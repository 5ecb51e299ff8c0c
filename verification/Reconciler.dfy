/**
 The monitor that keeps one remote "all chats" subscription and one local row in agreement.

 A pass of the monitor is a sequence of calls to Microsoft Graph and to the store; any of them may
 fail and end the pass where it stands. Lifecycle notifications refresh subscriptions on their own,
 between any two calls of a pass.
 */
module Reconciler {
  import opened Common
  import opened Text
  import Subscriptions

  // times in microseconds
  const FIVE_MINUTES := 300_000_000
  const TWO_HOURS := 7_200_000_000

  /** A subscription as Microsoft Graph lists it. */
  datatype Remote = Remote(resource: string, notificationURL: string, expiresOn: int)

  /** What a pass remembers of the remote subscription it saw. */
  datatype Seen = Seen(id: string, expiresOn: int)

  datatype Settings = Settings(baseURL: string, secret: string, pay: bool)

  predicate IsExpired(expiresOn: int, now: int) {
    expiresOn < now
  }

  predicate ShouldRefresh(expiresOn: int, now: int) {
    expiresOn - now < FIVE_MINUTES
  }

  /** The subscription that SubscribeToChats creates. */
  function NewChatsSubscription(settings: Settings, now: int): Remote {
    Remote(if settings.pay then "chats/getAllMessages?model=B" else "chats/getAllMessages",
           settings.baseURL + "changes",
           now + TWO_HOURS)
  }

  /** What the scan of the listing takes for the all chats subscription of this server. */
  predicate IsChats(baseURL: string, r: Remote) {
    baseURL <= r.notificationURL && Contains(r.resource, "chats/getAllMessages")
  }

  /** The scan recognises whatever SubscribeToChats creates. */
  lemma CreatedIsRecognised(settings: Settings, now: int)
    ensures IsChats(settings.baseURL, NewChatsSubscription(settings, now))
  {
    var r := NewChatsSubscription(settings, now);
    assert OccursAt(r.resource, "chats/getAllMessages", 0);
  }

  /** The last match in listing order. */
  function FindChats(remote: map<string, Remote>, baseURL: string, order: seq<string>): Option<Seen>
    requires forall i :: 0 <= i < |order| ==> order[i] in remote
  {
    if order == [] then None
    else
      var id := order[|order| - 1];
      if IsChats(baseURL, remote[id]) then Some(Seen(id, remote[id].expiresOn))
      else FindChats(remote, baseURL, order[..|order| - 1])
  }

  /** `order` is a complete listing. */
  predicate Lists(order: seq<string>, remote: map<string, Remote>) {
    (forall i :: 0 <= i < |order| ==> order[i] in remote) && (forall id :: id in remote ==> id in order)
  }

  /** The next call of a pass, and what the pass knows. */
  datatype Pc =
    | Idle
    | ListRemote
    | ListLocal(seen: Option<Seen>)
    | Compare(local: Option<string>, seen: Option<Seen>)
    | DropMismatch(local: Option<string>, id: string)
    | NoteExpiry(id: string, expiresOn: int, lookedBefore: int)
    | Refresh(id: string)
    | RecordRefresh(id: string, expiresOn: int)
    | DropUnrefreshed(id: string)
    | DropLocal(id: string)
    | Create
    | Record(id: string, expiresOn: int)

  /** The next call of a lifecycle notification. */
  datatype Lifecycle = LookUp(id: string) | RefreshRemote(id: string) | UpdateRow(id: string, expiresOn: int)

  /** `looked` is when a pass last compared the expiry time with the clock, or created a subscription. */
  datatype State = State(
    settings: Settings,
    remote: map<string, Remote>,
    rows: set<Subscriptions.Row>,
    clock: int,
    pc: Pc,
    looked: int,
    lifecycles: map<nat, Lifecycle>)

  datatype Event =
    | Tick(elapsed: nat)
    | Begin
    | Monitor(ok: bool, order: seq<string>, newId: string)
    | Notify(key: nat, id: string)
    | LifecycleStep(key: nat, ok: bool)
    | RemoteLost(id: string)
    | Panic   // a call of the pass panics; the job recovers and is over

  // ----- the calls -----

  function Extended(remote: map<string, Remote>, id: string, expiresOn: int): map<string, Remote>
    requires id in remote
  {
    remote[id := remote[id].(expiresOn := expiresOn)]
  }

  function NewRow(settings: Settings, id: string, expiresOn: int): Subscriptions.Op {
    Subscriptions.SaveGlobal(id, Subscriptions.TYPE_ALL_CHATS, settings.secret, expiresOn, "")
  }

  /** The row that a listing of the global subscriptions returns first. */
  ghost function LocalId(rows: set<Subscriptions.Row>): Option<string> {
    if r :| r in rows && r.kind == Subscriptions.TYPE_ALL_CHATS then Some(r.id) else None
  }

  /** Graph answers with an error for a subscription it does not have. */
  ghost function DropRemote(s: State, id: string, ok: bool, next: Pc): State {
    if ok && id in s.remote then s.(remote := s.remote - {id}, pc := next) else s.(pc := Idle)
  }

  function AfterDrop(local: Option<string>): Pc {
    if local.Some? then DropLocal(local.value) else Create
  }

  ghost function MonitorStep(s: State, ok: bool, order: seq<string>, newId: string): State {
    match s.pc
    case Idle => s
    case ListRemote =>
      if ok && Lists(order, s.remote) then s.(pc := ListLocal(FindChats(s.remote, s.settings.baseURL, order)))
      else s.(pc := Idle)
    case ListLocal(seen) =>
      if ok then s.(pc := Compare(LocalId(s.rows), seen)) else s.(pc := Idle)
    case Compare(local, seen) =>
      if seen.Some? && local != Some(seen.value.id) then s.(pc := DropMismatch(local, seen.value.id))
      else if seen.Some? && ShouldRefresh(seen.value.expiresOn, s.clock) then
        s.(pc := NoteExpiry(seen.value.id, seen.value.expiresOn, s.looked), looked := s.clock)
      else if seen.Some? then s.(pc := Idle, looked := s.clock)
      else s.(pc := AfterDrop(local))
    case DropMismatch(local, id) => DropRemote(s, id, ok, AfterDrop(local))
    case NoteExpiry(id, _, _) => s.(pc := Refresh(id))
    case Refresh(id) =>
      if ok && id in s.remote then
        s.(remote := Extended(s.remote, id, s.clock + TWO_HOURS), pc := RecordRefresh(id, s.clock + TWO_HOURS))
      else s.(pc := DropUnrefreshed(id))
    case RecordRefresh(id, expiresOn) =>
      if ok then
        s.(rows := Subscriptions.Commit(s.rows, Subscriptions.UpdateExpiresOn(id, expiresOn), NoFault), pc := Idle)
      else s.(pc := DropUnrefreshed(id))
    case DropUnrefreshed(id) => DropRemote(s, id, ok, DropLocal(id))
    case DropLocal(id) =>
      if ok then s.(rows := Subscriptions.Commit(s.rows, Subscriptions.DeleteById(id), NoFault), pc := Create)
      else s.(pc := Idle)
    case Create =>
      if ok && newId !in s.remote then
        s.(remote := s.remote[newId := NewChatsSubscription(s.settings, s.clock)],
           pc := Record(newId, s.clock + TWO_HOURS), looked := s.clock)
      else s.(pc := Idle)
    case Record(id, expiresOn) =>
      s.(rows := Subscriptions.Commit(s.rows, NewRow(s.settings, id, expiresOn), if ok then NoFault else InsertFails),
         pc := Idle)
  }

  ghost function LifecycleStepOf(s: State, key: nat, ok: bool): State
    requires key in s.lifecycles
  {
    var done := s.(lifecycles := s.lifecycles - {key});
    match s.lifecycles[key]
    case LookUp(id) =>
      // a failing lookup refreshes anyway; only "no such row" does not
      if ok && !exists r :: r in s.rows && r.id == id && r.kind == Subscriptions.TYPE_ALL_CHATS then done
      else s.(lifecycles := s.lifecycles[key := RefreshRemote(id)])
    case RefreshRemote(id) =>
      if ok && id in s.remote then
        s.(remote := Extended(s.remote, id, s.clock + TWO_HOURS),
           lifecycles := s.lifecycles[key := UpdateRow(id, s.clock + TWO_HOURS)])
      else done
    case UpdateRow(id, expiresOn) =>
      if ok then done.(rows := Subscriptions.Commit(s.rows, Subscriptions.UpdateExpiresOn(id, expiresOn), NoFault))
      else done
  }

  ghost function Apply(s: State, e: Event): State {
    match e
    case Tick(elapsed) => s.(clock := s.clock + elapsed)
    case Begin => if s.pc.Idle? then s.(pc := ListRemote) else s
    case Monitor(ok, order, newId) => MonitorStep(s, ok, order, newId)
    case Notify(key, id) => if key in s.lifecycles then s else s.(lifecycles := s.lifecycles[key := LookUp(id)])
    case LifecycleStep(key, ok) => if key in s.lifecycles then LifecycleStepOf(s, key, ok) else s
    case RemoteLost(id) => s.(remote := s.remote - {id})
    case Panic => s.(pc := Idle)
  }

  ghost function Run(s: State, es: seq<Event>): State
    decreases |es|
  {
    if es == [] then s else Run(Apply(s, es[0]), es[1..])
  }

  lemma {:induction false} RunSnoc(s: State, es: seq<Event>, e: Event)
    ensures Run(s, es + [e]) == Apply(Run(s, es), e)
    decreases |es|
  {
    if es == [] {
      assert [e][1..] == [];
      assert Run(Apply(s, e), []) == Apply(s, e);
    } else {
      assert (es + [e])[1..] == es[1..] + [e];
      RunSnoc(Apply(s, es[0]), es[1..], e);
    }
  }

  // ----- at most one of each, always -----

  function ChatIds(s: State): set<string> {
    set id | id in s.remote && IsChats(s.settings.baseURL, s.remote[id])
  }

  /** What a pass knows about the remote side: it can only have lost the subscription it saw. */
  ghost predicate PcFacts(pc: Pc, chats: set<string>) {
    match pc
    case Idle => true
    case ListRemote => true
    case ListLocal(seen) => chats <= if seen.Some? then {seen.value.id} else {}
    case Compare(_, seen) => chats <= if seen.Some? then {seen.value.id} else {}
    case DropMismatch(_, id) => chats <= {id}
    case NoteExpiry(id, _, _) => chats <= {id}
    case Refresh(id) => chats <= {id}
    case RecordRefresh(id, _) => chats <= {id}
    case DropUnrefreshed(id) => chats <= {id}
    case DropLocal(_) => chats == {}
    case Create => chats == {}
    case Record(id, _) => chats <= {id}
  }

  ghost predicate AtMostOneEach(s: State) {
    && (forall a, b :: a in ChatIds(s) && b in ChatIds(s) ==> a == b)
    && Subscriptions.Wellformed(s.rows)
  }

  ghost predicate Inv(s: State) {
    AtMostOneEach(s) && PcFacts(s.pc, ChatIds(s))
  }

  lemma {:induction false} FindChatsFinds(remote: map<string, Remote>, baseURL: string, order: seq<string>)
    requires forall i :: 0 <= i < |order| ==> order[i] in remote
    ensures FindChats(remote, baseURL, order).None? <==> forall id :: id in order ==> !IsChats(baseURL, remote[id])
    ensures FindChats(remote, baseURL, order).Some? ==>
              var seen := FindChats(remote, baseURL, order).value;
              seen.id in order && IsChats(baseURL, remote[seen.id]) && seen.expiresOn == remote[seen.id].expiresOn
  {
    if order != [] {
      FindChatsFinds(remote, baseURL, order[..|order| - 1]);
      assert order == order[..|order| - 1] + [order[|order| - 1]];
    }
  }

  /** Of several matches the last one in the listing is taken. */
  lemma {:induction false} LastMatchWins(remote: map<string, Remote>, baseURL: string, order: seq<string>)
    requires forall i :: 0 <= i < |order| ==> order[i] in remote
    ensures FindChats(remote, baseURL, order).Some? ==>
              exists i :: 0 <= i < |order| && order[i] == FindChats(remote, baseURL, order).value.id
                          && IsChats(baseURL, remote[order[i]])
                          && forall j :: i < j < |order| ==> !IsChats(baseURL, remote[order[j]])
  {
    hide IsChats;
    if order != [] {
      var last := |order| - 1;
      LastMatchWins(remote, baseURL, order[..last]);
      if IsChats(baseURL, remote[order[last]]) { assert order[last] == FindChats(remote, baseURL, order).value.id; }
    }
  }

  /** With at most one chats subscription the scan is exact. */
  lemma ScanIsExact(s: State, order: seq<string>)
    requires AtMostOneEach(s) && Lists(order, s.remote)
    ensures var seen := FindChats(s.remote, s.settings.baseURL, order);
            && ChatIds(s) == (if seen.Some? then {seen.value.id} else {})
            && (seen.Some? ==> seen.value.id in s.remote && seen.value.expiresOn == s.remote[seen.value.id].expiresOn)
  {
    FindChatsFinds(s.remote, s.settings.baseURL, order);
    var seen := FindChats(s.remote, s.settings.baseURL, order);
    if seen.Some? {
      assert seen.value.id in ChatIds(s);
    }
  }

  lemma ExtendedKeepsChats(s: State, id: string, expiresOn: int)
    requires id in s.remote
    ensures ChatIds(s.(remote := Extended(s.remote, id, expiresOn))) == ChatIds(s)
  {
  }

  lemma DroppedChats(s: State, id: string)
    ensures ChatIds(s.(remote := s.remote - {id})) == ChatIds(s) - {id}
  {
  }

  lemma CreatedChats(s: State, newId: string)
    requires newId !in s.remote
    ensures ChatIds(s.(remote := s.remote[newId := NewChatsSubscription(s.settings, s.clock)])) == ChatIds(s) + {newId}
  {
    CreatedIsRecognised(s.settings, s.clock);
  }

  /** The remote side after a call of a pass. */
  lemma MonitorStepChats(s: State, ok: bool, order: seq<string>, newId: string)
    ensures var s' := MonitorStep(s, ok, order, newId);
            && s'.settings == s.settings && s'.lifecycles == s.lifecycles && s'.clock == s.clock
            && ChatIds(s') ==
               match s.pc
               case DropMismatch(_, id) => if ok && id in s.remote then ChatIds(s) - {id} else ChatIds(s)
               case DropUnrefreshed(id) => if ok && id in s.remote then ChatIds(s) - {id} else ChatIds(s)
               case Create => if ok && newId !in s.remote then ChatIds(s) + {newId} else ChatIds(s)
               case _ => ChatIds(s)
  {
    match s.pc {
      case DropMismatch(_, id) => DroppedChats(s, id);
      case DropUnrefreshed(id) => DroppedChats(s, id);
      case Refresh(id) => if id in s.remote { ExtendedKeepsChats(s, id, s.clock + TWO_HOURS); }
      case Create => if newId !in s.remote { CreatedChats(s, newId); }
      case _ =>
    }
  }

  lemma MonitorStepKeepsInv(s: State, ok: bool, order: seq<string>, newId: string)
    requires Inv(s)
    ensures Inv(MonitorStep(s, ok, order, newId))
  {
    hide Subscriptions.Wellformed, Subscriptions.Commit, LocalId, IsChats;
    MonitorStepChats(s, ok, order, newId);
    match s.pc {
      case ListRemote => if Lists(order, s.remote) { ScanIsExact(s, order); }
      case RecordRefresh(id, expiresOn) =>
        Subscriptions.CommitKeepsWellformed(s.rows, Subscriptions.UpdateExpiresOn(id, expiresOn), NoFault);
      case DropLocal(id) => Subscriptions.CommitKeepsWellformed(s.rows, Subscriptions.DeleteById(id), NoFault);
      case Record(id, expiresOn) =>
        var fault := if ok then NoFault else InsertFails;
        Subscriptions.CommitKeepsWellformed(s.rows, NewRow(s.settings, id, expiresOn), fault);
      case _ =>
    }
  }

  lemma LifecycleKeepsChats(s: State, key: nat, ok: bool)
    requires key in s.lifecycles
    ensures var s' := LifecycleStepOf(s, key, ok);
            && ChatIds(s') == ChatIds(s) && s'.pc == s.pc && s'.settings == s.settings
            && s'.clock == s.clock && s'.looked == s.looked
            && s'.remote.Keys == s.remote.Keys
  {
    var t := s.lifecycles[key];
    if t.RefreshRemote? && t.id in s.remote { ExtendedKeepsChats(s, t.id, s.clock + TWO_HOURS); }
  }

  lemma LifecycleKeepsRows(s: State, key: nat, ok: bool)
    requires key in s.lifecycles && Subscriptions.Wellformed(s.rows)
    ensures Subscriptions.Wellformed(LifecycleStepOf(s, key, ok).rows)
  {
    var t := s.lifecycles[key];
    if t.UpdateRow? {
      Subscriptions.CommitKeepsWellformed(s.rows, Subscriptions.UpdateExpiresOn(t.id, t.expiresOn), NoFault);
    }
  }

  lemma ApplyKeepsInv(s: State, e: Event)
    requires Inv(s)
    ensures Inv(Apply(s, e))
  {
    match e {
      case Monitor(ok, order, newId) => MonitorStepKeepsInv(s, ok, order, newId);
      case LifecycleStep(key, ok) =>
        if key in s.lifecycles {
          LifecycleKeepsChats(s, key, ok);
          LifecycleKeepsRows(s, key, ok);
        }
      case RemoteLost(id) => DroppedChats(s, id);
      case _ => assert ChatIds(Apply(s, e)) == ChatIds(s);
    }
  }

  /** AT MOST ONE. From at most one remote subscription and one local row, no run of passes and
      lifecycle notifications, with any calls failing and the remote side losing subscriptions at any
      time, ever has two of either, not even in the middle of a pass. */
  lemma {:induction false} AtMostOneAlways(s: State, es: seq<Event>)
    requires Inv(s)
    ensures Inv(Run(s, es))
    ensures |ChatIds(Run(s, es))| <= 1
    ensures |set r | r in Run(s, es).rows && r.kind == Subscriptions.TYPE_ALL_CHATS| <= 1
    decreases |es|
  {
    if es == [] {
      Subscriptions.AtMostOneElement(ChatIds(s));
      Subscriptions.AtMostOneElement(set r | r in s.rows && r.kind == Subscriptions.TYPE_ALL_CHATS);
    } else {
      ApplyKeepsInv(s, es[0]);
      AtMostOneAlways(Apply(s, es[0]), es[1..]);
    }
  }

  // ----- self-repair -----

  /** Both sides hold the same single subscription. */
  ghost predicate Agree(s: State) {
    exists id :: ChatIds(s) == {id} && LocalId(s.rows) == Some(id)
  }

  /** No row has this id. */
  ghost predicate Fresh(rows: set<Subscriptions.Row>, id: string) {
    forall r :: r in rows ==> r.id != id
  }

  /** The call succeeds, unless it is a refresh or its record, and where the outcome carries data, the data is
      sound: a complete listing, and a subscription id that is new to both sides. */
  ghost predicate Effective(s: State, e: Event)
    requires e.Monitor?
  {
    && (e.ok || s.pc.Refresh? || s.pc.RecordRefresh?)
    && (s.pc.ListRemote? ==> Lists(e.order, s.remote))
    && (s.pc.Create? ==> e.newId !in s.remote && Fresh(s.rows, e.newId))
  }

  /** What a pass knows when none of its calls has failed, but for a refresh or its record. */
  ghost predicate PassFacts(s: State) {
    SidesFit(s.pc, ChatIds(s), LocalId(s.rows)) && (s.pc.Record? ==> Fresh(s.rows, s.pc.id))
  }

  ghost predicate SidesFit(pc: Pc, chats: set<string>, local: Option<string>) {
    match pc
    case Idle => exists id :: chats == {id} && local == Some(id)
    case ListRemote => true
    case ListLocal(seen) => chats == if seen.Some? then {seen.value.id} else {}
    case Compare(loc, seen) => loc == local && chats == if seen.Some? then {seen.value.id} else {}
    case DropMismatch(loc, id) => loc == local && loc != Some(id) && chats == {id}
    case NoteExpiry(id, _, _) => chats == {id} && local == Some(id)
    case Refresh(id) => chats == {id} && local == Some(id)
    case RecordRefresh(id, _) => chats == {id} && local == Some(id)
    case DropUnrefreshed(id) => chats == {id} && local == Some(id)
    case DropLocal(id) => chats == {} && local == Some(id)
    case Create => chats == {} && local == None
    case Record(id, _) => chats == {id} && local == None
  }

  /** Nothing but this pass's effective calls, lifecycle notifications and time. */
  ghost predicate Undisturbed(s: State, e: Event) {
    (e.Monitor? && !s.pc.Idle? && Effective(s, e)) || e.Tick? || e.Notify? || e.LifecycleStep?
  }

  lemma UpdateKeepsLocalId(rows: set<Subscriptions.Row>, id: string, expiresOn: int)
    requires Subscriptions.Wellformed(rows)
    ensures LocalId(Subscriptions.Commit(rows, Subscriptions.UpdateExpiresOn(id, expiresOn), NoFault)) == LocalId(rows)
    ensures forall i :: Fresh(rows, i) ==>
              Fresh(Subscriptions.Commit(rows, Subscriptions.UpdateExpiresOn(id, expiresOn), NoFault), i)
  {
    var rows' := Subscriptions.Commit(rows, Subscriptions.UpdateExpiresOn(id, expiresOn), NoFault);
    Subscriptions.CommitKeepsWellformed(rows, Subscriptions.UpdateExpiresOn(id, expiresOn), NoFault);
    if r :| r in rows && r.kind == Subscriptions.TYPE_ALL_CHATS {
      var r' := if r.id == id then r.(expiresOn := expiresOn) else r;
      assert r' in rows' && r'.kind == Subscriptions.TYPE_ALL_CHATS && r'.id == r.id;
      assert LocalId(rows') == Some(r.id);
    } else {
      forall r' | r' in rows' ensures r'.kind != Subscriptions.TYPE_ALL_CHATS {
        var r :| r in rows && r' == if r.id == id then r.(expiresOn := expiresOn) else r;
      }
    }
  }

  lemma DeleteClearsLocalId(rows: set<Subscriptions.Row>, id: string)
    requires Subscriptions.Wellformed(rows) && LocalId(rows) == Some(id)
    ensures LocalId(Subscriptions.Commit(rows, Subscriptions.DeleteById(id), NoFault)) == None
  {
  }

  lemma SaveSetsLocalId(rows: set<Subscriptions.Row>, settings: Settings, id: string, expiresOn: int)
    requires Subscriptions.Wellformed(rows) && Fresh(rows, id)
    ensures LocalId(Subscriptions.Commit(rows, NewRow(settings, id, expiresOn), NoFault)) == Some(id)
  {
    var op := NewRow(settings, id, expiresOn);
    Subscriptions.SaveOutcome(rows, op);
    var rows' := Subscriptions.Commit(rows, op, NoFault);
    var row := Subscriptions.NewRow(op);
    assert row in rows' && row.kind == Subscriptions.TYPE_ALL_CHATS;
    assert forall r :: r in rows' && r.kind == Subscriptions.TYPE_ALL_CHATS ==> Subscriptions.Replaced(op, r);
  }

  lemma MonitorStepKeepsPassFacts(s: State, e: Event)
    requires Inv(s) && PassFacts(s)
    requires e.Monitor? && !s.pc.Idle? && Effective(s, e)
    ensures PassFacts(Apply(s, e))
  {
    hide Subscriptions.Wellformed, Subscriptions.Commit, IsChats, FindChats, LocalId, Lists;
    MonitorStepChats(s, e.ok, e.order, e.newId);
    match s.pc {
      case ListRemote => ScanIsExact(s, e.order);
      case RecordRefresh(id, expiresOn) => UpdateKeepsLocalId(s.rows, id, expiresOn);
      case DropLocal(id) => DeleteClearsLocalId(s.rows, id);
      case Record(id, expiresOn) => SaveSetsLocalId(s.rows, s.settings, id, expiresOn);
      case DropMismatch(_, id) => assert id in ChatIds(s);
      case Refresh(id) => assert id in ChatIds(s);
      case DropUnrefreshed(id) => assert id in ChatIds(s);
      case _ =>
    }
  }

  lemma UndisturbedKeepsPassFacts(s: State, e: Event)
    requires Inv(s) && PassFacts(s)
    requires Undisturbed(s, e)
    ensures PassFacts(Apply(s, e))
  {
    match e {
      case Monitor(_, _, _) => MonitorStepKeepsPassFacts(s, e);
      case LifecycleStep(key, ok) =>
        if key in s.lifecycles {
          LifecycleKeepsChats(s, key, ok);
          var t := s.lifecycles[key];
          if t.UpdateRow? { UpdateKeepsLocalId(s.rows, t.id, t.expiresOn); }
        }
      case Tick(_) => assert ChatIds(Apply(s, e)) == ChatIds(s);
      case Notify(_, _) => assert ChatIds(Apply(s, e)) == ChatIds(s);
      case _ =>
    }
  }

  /** A pass of effective calls, with time and lifecycle notifications running through it. */
  ghost predicate Repairing(s: State, es: seq<Event>)
    decreases |es|
  {
    es == [] || (Undisturbed(s, es[0]) && Repairing(Apply(s, es[0]), es[1..]))
  }

  /** How many calls a pass still makes at most, failing ones included. */
  function Stage(pc: Pc): nat {
    match pc
    case Idle => 0
    case Record(_, _) => 1
    case Create => 2
    case DropLocal(_) => 3
    case DropMismatch(_, _) => 4
    case DropUnrefreshed(_) => 4
    case RecordRefresh(_, _) => 5
    case Refresh(_) => 6
    case NoteExpiry(_, _, _) => 7
    case Compare(_, _) => 8
    case ListLocal(_) => 9
    case ListRemote => 10
  }

  function Calls(es: seq<Event>): nat {
    if es == [] then 0 else (if es[0].Monitor? then 1 else 0) + Calls(es[1..])
  }

  /** Every call of a pass, whatever it answers, brings the pass closer to its end. */
  lemma CallLowersStage(s: State, e: Event)
    requires e.Begin? ==> !s.pc.Idle?
    ensures (if e.Monitor? && !s.pc.Idle? then 1 else 0) + Stage(Apply(s, e).pc) <= Stage(s.pc)
  {
    hide FindChats, Lists, LocalId, Subscriptions.Commit, Extended, NewChatsSubscription;
  }

  lemma {:induction false} RepairingRun(s: State, es: seq<Event>)
    requires Inv(s) && PassFacts(s) && Repairing(s, es)
    ensures Inv(Run(s, es))
    ensures PassFacts(Run(s, es))
    ensures Calls(es) + Stage(Run(s, es).pc) <= Stage(s.pc)
    decreases |es|
  {
    if es != [] {
      UndisturbedKeepsPassFacts(s, es[0]);
      ApplyKeepsInv(s, es[0]);
      CallLowersStage(s, es[0]);
      hide Inv, PassFacts, Apply, Undisturbed;
      RepairingRun(Apply(s, es[0]), es[1..]);
    }
  }

  /** SELF-REPAIR. Whatever failures came before, one pass of which at most the refresh or its record fails,
      with lifecycle notifications running through it, makes at most ten calls, and when it ends both sides
      hold the same single subscription. */
  lemma OnePassRepairs(s: State, es: seq<Event>)
    requires Inv(s) && s.pc.Idle?
    requires Repairing(Apply(s, Begin), es)
    ensures Calls(es) <= 10
    ensures Run(Apply(s, Begin), es).pc.Idle? ==> Agree(Run(Apply(s, Begin), es))
  {
    ApplyKeepsInv(s, Begin);
    RepairingRun(Apply(s, Begin), es);
  }

  // ----- nothing to do -----

  ghost predicate SettledFacts(s: State, id: string) {
    && ChatIds(s) == {id} && id in s.remote && LocalId(s.rows) == Some(id)
    && !ShouldRefresh(s.remote[id].expiresOn, s.clock)
    && match s.pc
       case Idle => true
       case ListRemote => true
       case ListLocal(seen) => seen == Some(Seen(id, s.remote[id].expiresOn))
       case Compare(local, seen) => local == Some(id) && seen == Some(Seen(id, s.remote[id].expiresOn))
       case _ => false
  }

  function Elapsed(es: seq<Event>): nat {
    if es == [] then 0 else (if es[0].Tick? then es[0].elapsed else 0) + Elapsed(es[1..])
  }

  /** The clock of a run is the time that has passed. */
  lemma {:induction false} ClockAdvances(s: State, es: seq<Event>)
    ensures Run(s, es).clock == s.clock + Elapsed(es)
    decreases |es|
  {
    if es != [] {
      hide FindChats, Lists, LocalId, Subscriptions.Commit, Extended, NewChatsSubscription;
      ClockAdvances(Apply(s, es[0]), es[1..]);
    }
  }

  /** Passes with any of their calls failing or panicking, time, and notifications that arrive. */
  predicate IsPassing(e: Event) {
    e.Begin? || e.Monitor? || e.Panic? || e.Tick? || e.Notify?
  }

  lemma PassingKeepsSettled(s: State, e: Event, id: string)
    requires AtMostOneEach(s) && SettledFacts(s, id) && IsPassing(e)
    requires !ShouldRefresh(s.remote[id].expiresOn, Apply(s, e).clock)
    ensures Apply(s, e).remote == s.remote && Apply(s, e).rows == s.rows
    ensures AtMostOneEach(Apply(s, e)) && SettledFacts(Apply(s, e), id)
  {
    var s' := Apply(s, e);
    assert s'.remote == s.remote && s'.rows == s.rows && s'.settings == s.settings;
    assert ChatIds(s') == ChatIds(s);
    if e.Monitor? && s.pc.ListRemote? && Lists(e.order, s.remote) { ScanIsExact(s, e.order); }
  }

  /** NO CHURN. Once both sides agree, any number of passes, failing or not, change neither side for as
      long as no refresh is due, and both sides go on agreeing. */
  lemma {:induction false} AgreementIsStable(s: State, es: seq<Event>, id: string)
    requires AtMostOneEach(s) && SettledFacts(s, id)
    requires forall i :: 0 <= i < |es| ==> IsPassing(es[i])
    requires !ShouldRefresh(s.remote[id].expiresOn, Run(s, es).clock)
    ensures Run(s, es).remote == s.remote && Run(s, es).rows == s.rows
    ensures SettledFacts(Run(s, es), id)
    decreases |es|
  {
    if es != [] {
      var s' := Apply(s, es[0]);
      ClockAdvances(s', es[1..]);
      PassingKeepsSettled(s, es[0], id);
      AgreementIsStable(s', es[1..], id);
    }
  }

  // ----- renewal -----

  /** Every refresh and every creation grants two hours from its own clock reading, so an expiry time
      is never further away than that. */
  ghost predicate GrantsBounded(s: State) {
    forall id :: id in ChatIds(s) ==> s.remote[id].expiresOn <= s.clock + TWO_HOURS
  }

  /** The remote subscription lasts five minutes past the last look at it. */
  ghost predicate Lasting(s: State, id: string) {
    id in s.remote && s.remote[id].expiresOn >= s.looked + FIVE_MINUTES
  }

  ghost predicate RenewalFacts(s: State, id: string) {
    && ChatIds(s) == {id} && id in s.remote && LocalId(s.rows) == Some(id)
    && s.looked <= s.clock
    && GrantsBounded(s)
    && match s.pc
       case Idle => Lasting(s, id)
       case ListRemote => Lasting(s, id)
       case ListLocal(seen) => seen.Some? && Glimpsed(s, id, seen.value)
       case Compare(local, seen) => local == Some(id) && seen.Some? && Glimpsed(s, id, seen.value)
       case NoteExpiry(i, expiresOn, lookedBefore) => i == id && expiresOn >= lookedBefore + FIVE_MINUTES
       case Refresh(i) => i == id
       case RecordRefresh(i, _) => i == id && Lasting(s, id)
       case DropUnrefreshed(i) => i == id
       case _ => false
  }

  /** A subscription that could not be refreshed is gone, and is being created anew. */
  ghost predicate BeingReplaced(s: State) {
    (s.pc.DropLocal? || s.pc.Create? || s.pc.Record?) && PassFacts(s) && PassLasts(s)
  }

  ghost predicate Renewing(s: State) {
    BeingReplaced(s) || exists id :: RenewalFacts(s, id)
  }

  /** What a pass saw is no more than what is there now, and was lasting. */
  ghost predicate Glimpsed(s: State, id: string, seen: Seen)
    requires id in s.remote
  {
    seen.id == id && s.looked + FIVE_MINUTES <= seen.expiresOn <= s.remote[id].expiresOn
  }

  /** Two looks are less than five minutes apart. */
  ghost predicate Prompt(s: State) {
    s.pc.NoteExpiry? ==> s.clock < s.pc.lookedBefore + FIVE_MINUTES
  }

  ghost predicate FindsExpired(s: State, e: Event) {
    e.Monitor? && s.pc.NoteExpiry? && IsExpired(s.pc.expiresOn, s.clock)
  }

  /** Any number of passes, all prompt and of effective calls, interleaved with notifications. */
  ghost predicate PromptRun(s: State, es: seq<Event>)
    decreases |es|
  {
    es == []
    || (&& (es[0].Begin? || Undisturbed(s, es[0]))
        && (es[0].Monitor? ==> Prompt(s))
        && PromptRun(Apply(s, es[0]), es[1..]))
  }

  ghost predicate NeverFindsExpired(s: State, es: seq<Event>)
    decreases |es|
  {
    es == [] || (!FindsExpired(s, es[0]) && NeverFindsExpired(Apply(s, es[0]), es[1..]))
  }

  /** What was seen has not lost any time since. */
  predicate SeenOrLater(remote: map<string, Remote>, seen: Option<Seen>) {
    seen.Some? ==> seen.value.id in remote && seen.value.expiresOn <= remote[seen.value.id].expiresOn
  }

  /** What a pass of effective calls knows about how long the subscription lasts. */
  ghost predicate PassLasts(s: State) {
    && s.looked <= s.clock
    && GrantsBounded(s)
    && match s.pc
       case Idle => forall id :: id in ChatIds(s) ==> Lasting(s, id)
       case ListLocal(seen) => SeenOrLater(s.remote, seen)
       case Compare(_, seen) => SeenOrLater(s.remote, seen)
       case RecordRefresh(id, _) => Lasting(s, id)
       case Record(id, _) => Lasting(s, id)
       case _ => true
  }

  lemma LifecycleOnlyExtends(s: State, key: nat, ok: bool)
    requires key in s.lifecycles && GrantsBounded(s)
    ensures GrantsBounded(LifecycleStepOf(s, key, ok))
    ensures forall id :: id in ChatIds(s) ==> LifecycleStepOf(s, key, ok).remote[id].expiresOn >= s.remote[id].expiresOn
  {
    LifecycleKeepsChats(s, key, ok);
  }

  lemma PassStepLasts(s: State, ok: bool, order: seq<string>, newId: string)
    requires Inv(s) && PassFacts(s) && PassLasts(s)
    requires Undisturbed(s, Monitor(ok, order, newId))
    ensures PassLasts(MonitorStep(s, ok, order, newId))
  {
    hide Subscriptions.Wellformed, Subscriptions.Commit, IsChats, FindChats, LocalId;
    MonitorStepChats(s, ok, order, newId);
    if s.pc.ListRemote? { ScanIsExact(s, order); }
    if s.pc.RecordRefresh? || s.pc.NoteExpiry? || s.pc.Refresh? { assert s.pc.id in ChatIds(s); }
  }

  lemma LifecycleStepLasts(s: State, key: nat, ok: bool)
    requires PassFacts(s) && PassLasts(s) && key in s.lifecycles
    ensures PassLasts(LifecycleStepOf(s, key, ok))
  {
    LifecycleKeepsChats(s, key, ok);
    LifecycleOnlyExtends(s, key, ok);
    if s.pc.RecordRefresh? || s.pc.Record? { assert s.pc.id in ChatIds(s); }
    if s.pc.ListLocal? || s.pc.Compare? {
      if s.pc.seen.Some? { assert s.pc.seen.value.id in ChatIds(s); }
    }
  }

  lemma UndisturbedKeepsPassLasts(s: State, e: Event)
    requires Inv(s) && PassFacts(s) && PassLasts(s)
    requires Undisturbed(s, e)
    ensures PassLasts(Apply(s, e))
  {
    var s' := Apply(s, e);
    match e {
      case Monitor(ok, order, newId) => PassStepLasts(s, ok, order, newId);
      case LifecycleStep(key, ok) => if key in s.lifecycles { LifecycleStepLasts(s, key, ok); }
      case Tick(_) => assert ChatIds(s') == ChatIds(s);
      case Notify(_, _) => assert ChatIds(s') == ChatIds(s);
      case _ =>
    }
  }

  lemma {:induction false} RepairingRunLasts(s: State, es: seq<Event>)
    requires Inv(s) && PassFacts(s) && PassLasts(s) && Repairing(s, es)
    ensures PassLasts(Run(s, es))
    decreases |es|
  {
    if es != [] {
      UndisturbedKeepsPassFacts(s, es[0]);
      UndisturbedKeepsPassLasts(s, es[0]);
      ApplyKeepsInv(s, es[0]);
      RepairingRunLasts(Apply(s, es[0]), es[1..]);
    }
  }

  /** The pass that repairs also starts the clock of renewal: whatever it did, refresh, create or
      nothing, the subscription then outlasts the look by five minutes. */
  lemma RepairStartsRenewal(s: State, es: seq<Event>)
    requires Inv(s) && s.pc.Idle? && s.looked <= s.clock && GrantsBounded(s)
    requires Repairing(Apply(s, Begin), es) && Run(Apply(s, Begin), es).pc.Idle?
    ensures exists id :: RenewalFacts(Run(Apply(s, Begin), es), id)
  {
    var b := Apply(s, Begin);
    ApplyKeepsInv(s, Begin);
    assert ChatIds(b) == ChatIds(s);
    RepairingRun(b, es);
    RepairingRunLasts(b, es);
    var t := Run(b, es);
    var id :| ChatIds(t) == {id} && LocalId(t.rows) == Some(id);
    assert id in ChatIds(t);
    assert RenewalFacts(t, id);
  }

  lemma HeldMonitorStep(s: State, e: Event, id: string)
    requires Inv(s) && RenewalFacts(s, id)
    requires e.Monitor? && !s.pc.Idle? && Effective(s, e) && Prompt(s)
    ensures !FindsExpired(s, e)
    ensures if s.pc.DropUnrefreshed? then BeingReplaced(Apply(s, e)) else RenewalFacts(Apply(s, e), id)
  {
    hide Subscriptions.Wellformed, Subscriptions.Commit, IsChats, FindChats, LocalId;
    var s' := Apply(s, e);
    MonitorStepChats(s, e.ok, e.order, e.newId);
    assert id in ChatIds(s);
    match s.pc {
      case ListRemote => ScanIsExact(s, e.order);
      case RecordRefresh(_, expiresOn) => UpdateKeepsLocalId(s.rows, id, expiresOn);
      case _ =>
    }
    assert forall i :: i in ChatIds(s') ==> i == id;
  }

  lemma ReplacingMonitorStep(s: State, e: Event)
    requires Inv(s) && BeingReplaced(s) && e.Monitor? && Effective(s, e)
    ensures !FindsExpired(s, e) && Renewing(Apply(s, e))
  {
    MonitorStepKeepsPassFacts(s, e);
    PassStepLasts(s, e.ok, e.order, e.newId);
    var s' := Apply(s, e);
    hide Inv, FindChats, Subscriptions.Commit, LocalId, IsChats;
    if s.pc.Record? {
      var id :| ChatIds(s') == {id} && LocalId(s'.rows) == Some(id);
      assert id in ChatIds(s');
      assert RenewalFacts(s', id);
    }
  }

  lemma RenewalMonitorStep(s: State, e: Event)
    requires Inv(s) && Renewing(s)
    requires e.Monitor? && !s.pc.Idle? && Effective(s, e) && Prompt(s)
    ensures Renewing(Apply(s, e)) && !FindsExpired(s, e)
  {
    hide RenewalFacts, BeingReplaced, Inv, Apply, Effective, Prompt, FindsExpired;
    if BeingReplaced(s) {
      ReplacingMonitorStep(s, e);
    } else {
      var id :| RenewalFacts(s, id);
      HeldMonitorStep(s, e, id);
    }
  }

  lemma HeldLifecycleStep(s: State, key: nat, ok: bool, id: string)
    requires Inv(s) && RenewalFacts(s, id) && key in s.lifecycles
    ensures RenewalFacts(LifecycleStepOf(s, key, ok), id)
  {
    var s' := LifecycleStepOf(s, key, ok);
    LifecycleKeepsChats(s, key, ok);
    assert id in ChatIds(s);
    var t := s.lifecycles[key];
    if t.UpdateRow? { UpdateKeepsLocalId(s.rows, t.id, t.expiresOn); }
    assert s'.remote[id].expiresOn >= s.remote[id].expiresOn;
    assert forall i :: i in ChatIds(s') ==> i == id;
  }

  lemma RenewalLifecycleStep(s: State, key: nat, ok: bool)
    requires Inv(s) && Renewing(s) && key in s.lifecycles
    ensures Renewing(LifecycleStepOf(s, key, ok))
  {
    var s' := LifecycleStepOf(s, key, ok);
    if BeingReplaced(s) {
      UndisturbedKeepsPassFacts(s, LifecycleStep(key, ok));
      LifecycleStepLasts(s, key, ok);
      LifecycleKeepsChats(s, key, ok);
    } else {
      var id :| RenewalFacts(s, id);
      HeldLifecycleStep(s, key, ok, id);
    }
    hide RenewalFacts, Inv, PassFacts, PassLasts, LifecycleStepOf;
  }

  /** Time, and passes and notifications that begin. */
  lemma RenewalGoesOn(s: State, e: Event)
    requires Renewing(s) && (e.Begin? || e.Tick? || e.Notify?)
    ensures Renewing(Apply(s, e))
  {
    var s' := Apply(s, e);
    assert ChatIds(s') == ChatIds(s);
    if BeingReplaced(s) {
      assert BeingReplaced(s');
    } else {
      var id :| RenewalFacts(s, id);
      assert RenewalFacts(s', id);
    }
  }

  /** RENEWAL. From agreement on a subscription that outlasts the last look by five minutes, prompt
      passes never find the subscription expired, and both sides keep agreeing on one, although refreshes and
      their records may fail: a subscription that cannot be refreshed is replaced in time. */
  lemma {:induction false} PromptPassesNeverFindExpired(s: State, es: seq<Event>)
    requires Inv(s) && Renewing(s) && PromptRun(s, es)
    ensures NeverFindsExpired(s, es)
    ensures Renewing(Run(s, es))
    decreases |es|
  {
    if es != [] {
      ApplyKeepsInv(s, es[0]);
      match es[0] {
        case Monitor(_, _, _) => RenewalMonitorStep(s, es[0]);
        case LifecycleStep(key, ok) => if key in s.lifecycles { RenewalLifecycleStep(s, key, ok); }
        case _ => RenewalGoesOn(s, es[0]);
      }
      hide Inv, Renewing;
      PromptPassesNeverFindExpired(Apply(s, es[0]), es[1..]);
    }
  }

  /** What renewal relies on from the start: expiry times are no further away than a grant, and the last
      look at them is not in the future. */
  ghost predicate TimesBounded(s: State) {
    GrantsBounded(s) && s.looked <= s.clock
  }

  lemma PassCallKeepsTimes(s: State, ok: bool, order: seq<string>, newId: string)
    requires TimesBounded(s)
    ensures TimesBounded(MonitorStep(s, ok, order, newId))
  {
    MonitorStepChats(s, ok, order, newId);
    hide LocalId, Lists, FindChats, Subscriptions.Commit, IsChats;
    var s' := MonitorStep(s, ok, order, newId);
    forall id | id in ChatIds(s') ensures s'.remote[id].expiresOn <= s'.clock + TWO_HOURS {
      assert id in s'.remote;
      if s.pc.Create? && id == newId && newId !in s.remote {
        assert ok;
      } else {
        assert id in ChatIds(s);
      }
    }
  }

  lemma ApplyKeepsTimes(s: State, e: Event)
    requires TimesBounded(s)
    ensures TimesBounded(Apply(s, e))
  {
    match e {
      case Monitor(ok, order, newId) => PassCallKeepsTimes(s, ok, order, newId);
      case LifecycleStep(key, ok) =>
        if key in s.lifecycles {
          LifecycleKeepsChats(s, key, ok);
          LifecycleOnlyExtends(s, key, ok);
        }
      case RemoteLost(id) => DroppedChats(s, id);
      case _ => assert ChatIds(Apply(s, e)) == ChatIds(s);
    }
  }

  /** No run, whatever fails in it, breaks the bounds on the times. */
  lemma {:induction false} TimesBoundedAlways(s: State, es: seq<Event>)
    requires TimesBounded(s)
    ensures TimesBounded(Run(s, es))
    decreases |es|
  {
    if es != [] {
      ApplyKeepsTimes(s, es[0]);
      TimesBoundedAlways(Apply(s, es[0]), es[1..]);
    }
  }

  /** FROM ANY FAILURE TO RENEWAL. After any run at all, with calls failing, passes panicking and the
      remote side losing subscriptions, one repairing pass is enough: prompt passes after it never find the
      subscription expired, and both sides agree on one whenever no pass is under way. */
  lemma RenewalHolds(s: State, failing: seq<Event>, repair: seq<Event>, prompt: seq<Event>)
    requires Inv(s) && TimesBounded(s)
    requires Run(s, failing).pc.Idle?
    requires var begun := Apply(Run(s, failing), Begin);
             Repairing(begun, repair) && Run(begun, repair).pc.Idle? && PromptRun(Run(begun, repair), prompt)
    ensures var repaired := Run(Apply(Run(s, failing), Begin), repair);
            && NeverFindsExpired(repaired, prompt)
            && Renewing(Run(repaired, prompt))
            && (Run(repaired, prompt).pc.Idle? ==> Agree(Run(repaired, prompt)))
  {
    var t := Run(s, failing);
    AtMostOneAlways(s, failing);
    TimesBoundedAlways(s, failing);
    RepairStartsRenewal(t, repair);
    var repaired := Run(Apply(t, Begin), repair);
    assert Renewing(repaired);
    ApplyKeepsInv(t, Begin);
    AtMostOneAlways(Apply(t, Begin), repair);
    hide Run, Inv, Renewing, PromptRun, NeverFindsExpired, Agree, Repairing, TimesBounded;
    PromptPassesNeverFindExpired(repaired, prompt);
    if Run(repaired, prompt).pc.Idle? { RenewingAgrees(Run(repaired, prompt)); }
  }

  lemma RenewingAgrees(s: State)
    requires Renewing(s) && s.pc.Idle?
    ensures Agree(s)
  {
  }
}
