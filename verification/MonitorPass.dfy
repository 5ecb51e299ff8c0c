/**
 A whole pass of the monitor, given the answers to its calls: it is a run of the step machine of
 `Reconciler`, and its outcome is told here on the two sides themselves, for all answers.
 */
module MonitorPass {
  import opened Common
  import opened Reconciler
  import Subscriptions

  /** Which calls of a pass succeed, and what they return. */
  datatype Answers = Answers(
    listRemote: bool,
    listing: seq<string>,
    listLocal: bool,
    dropRemote: bool,
    refresh: bool,
    recordRefresh: bool,
    dropLocal: bool,
    create: bool,
    newId: string,
    record: bool)

  /** Whether the call that a pass makes at `pc` succeeds. */
  function AnswerFor(pc: Pc, a: Answers): bool {
    match pc
    case ListRemote => a.listRemote
    case ListLocal(_) => a.listLocal
    case DropMismatch(_, _) => a.dropRemote
    case Refresh(_) => a.refresh
    case RecordRefresh(_, _) => a.recordRefresh
    case DropUnrefreshed(_) => a.dropRemote
    case DropLocal(_) => a.dropLocal
    case Create => a.create
    case Record(_, _) => a.record
    case _ => true
  }

  ghost function CallOf(s: State, a: Answers): Event {
    Event.Monitor(AnswerFor(s.pc, a), a.listing, a.newId)
  }

  /** The state in which a pass ends that stands at s, with these answers to its calls. */
  ghost function PassEnd(s: State, a: Answers): State
    decreases Stage(s.pc)
  {
    if s.pc.Idle? then s else CallLowersStage(s, CallOf(s, a)); PassEnd(Apply(s, CallOf(s, a)), a)
  }

  ghost function PassCalls(s: State, a: Answers): seq<Event>
    decreases Stage(s.pc)
  {
    if s.pc.Idle? then [] else CallLowersStage(s, CallOf(s, a)); [CallOf(s, a)] + PassCalls(Apply(s, CallOf(s, a)), a)
  }

  /** A whole pass is a run of the step machine that makes its calls one by one: at most ten. */
  lemma {:induction false} PassIsRun(s: State, a: Answers)
    ensures Run(s, PassCalls(s, a)) == PassEnd(s, a) && PassEnd(s, a).pc.Idle?
    ensures |PassCalls(s, a)| <= Stage(s.pc)
    ensures forall i :: 0 <= i < |PassCalls(s, a)| ==> PassCalls(s, a)[i].Monitor?
    decreases Stage(s.pc)
  {
    if !s.pc.Idle? {
      CallLowersStage(s, CallOf(s, a));
      PassIsRun(Apply(s, CallOf(s, a)), a);
      assert PassCalls(s, a)[1..] == PassCalls(Apply(s, CallOf(s, a)), a);
    }
  }

  /** The pass goes on from where its next call leads. */
  lemma PassGoesOn(s: State, a: Answers)
    requires !s.pc.Idle?
    ensures PassEnd(s, a) == PassEnd(MonitorStep(s, AnswerFor(s.pc, a), a.listing, a.newId), a)
  {
  }

  // ----- a pass of which at most the refresh or its record fails -----

  predicate RestSucceeds(a: Answers) {
    a.listRemote && a.listLocal && a.dropRemote && a.dropLocal && a.create && a.record
  }

  /** The listing that is still to come is complete, and the id that is still to come is new. */
  ghost predicate Provided(s: State, a: Answers) {
    && (s.pc.ListRemote? ==> Lists(a.listing, s.remote))
    && (s.pc.Idle? || s.pc.Record? || (a.newId !in s.remote && Fresh(s.rows, a.newId)))
  }

  lemma ProvidedGoesOn(s: State, a: Answers)
    requires !s.pc.Idle? && RestSucceeds(a) && Provided(s, a)
    ensures Effective(s, CallOf(s, a)) && Provided(Apply(s, CallOf(s, a)), a)
  {
  }

  lemma {:induction false} PassIsRepairing(s: State, a: Answers)
    requires RestSucceeds(a) && Provided(s, a)
    ensures Repairing(s, PassCalls(s, a))
    decreases Stage(s.pc)
  {
    if !s.pc.Idle? {
      var e := CallOf(s, a);
      CallLowersStage(s, CallOf(s, a));
      ProvidedGoesOn(s, a);
      PassIsRepairing(Apply(s, e), a);
      hide Apply, RestSucceeds, Provided;
      assert PassCalls(s, a) == [e] + PassCalls(Apply(s, e), a);
      assert ([e] + PassCalls(Apply(s, e), a))[1..] == PassCalls(Apply(s, e), a);
    }
  }

  /** A pass whose calls succeed, but for the refresh or its record, ends with both sides holding the same
      single subscription. */
  lemma RepairingPassAgrees(s: State, a: Answers)
    requires Inv(s) && s.pc.Idle? && RestSucceeds(a) && Provided(Apply(s, Begin), a)
    ensures Agree(PassEnd(Apply(s, Begin), a))
  {
    var b := Apply(s, Begin);
    PassIsRepairing(b, a);
    PassIsRun(b, a);
    hide Agree, Repairing, Provided;
    OnePassRepairs(s, PassCalls(b, a));
  }

  lemma {:induction false} ListingExists(ids: set<string>) returns (listing: seq<string>)
    ensures forall id :: id in listing <==> id in ids
    decreases |ids|
  {
    listing := [];
    if id :| id in ids {
      var rest := ListingExists(ids - {id});
      listing := [id] + rest;
    }
  }

  lemma {:induction false} LongerExists(ids: set<string>) returns (n: nat)
    ensures forall id :: id in ids ==> |id| < n
    decreases |ids|
  {
    n := 0;
    if id :| id in ids {
      n := LongerExists(ids - {id});
      n := Max(n, |id| + 1);
    }
  }

  /** REPAIR IS ALWAYS POSSIBLE. From every state, even when the pass that is under way panics, there is a
      repairing pass, and it ends in agreement. */
  lemma RepairExists(s: State)
    requires Inv(s)
    ensures var b := Apply(Apply(s, Panic), Begin); exists es :: Repairing(b, es) && Agree(Run(b, es))
  {
    var idle := Apply(s, Panic);
    var b := Apply(idle, Begin);
    ApplyKeepsInv(s, Panic);
    var listing := ListingExists(s.remote.Keys);
    var n := LongerExists(s.remote.Keys + set r | r in s.rows :: r.id);
    var newId := seq(n, _ => 'x');
    var a := Answers(true, listing, true, true, true, true, true, true, newId, true);
    assert newId !in s.remote.Keys + set r | r in s.rows :: r.id;
    assert Provided(b, a);
    RepairingPassAgrees(idle, a);
    PassIsRepairing(b, a);
    PassIsRun(b, a);
  }

  // ----- what a pass comes to, whatever its calls answer -----

  /** The chats subscription of the remote side, if there is one. */
  ghost function ChatsId(s: State): Option<string> {
    if id :| id in ChatIds(s) then Some(id) else None
  }

  /** What SubscribeToChats leaves on the remote side ... */
  function ChatsSubscription(s: State): Remote {
    Remote(if s.settings.pay then "chats/getAllMessages?model=B" else "chats/getAllMessages",
           s.settings.baseURL + "changes",
           s.clock + TWO_HOURS)
  }

  /** ... and the monitor on the local one. */
  function ChatsRow(s: State, id: string): Subscriptions.Row {
    Subscriptions.Row(id, "allChats", None, None, None, s.settings.secret, s.clock + TWO_HOURS, "")
  }

  function OtherRows(rows: set<Subscriptions.Row>): set<Subscriptions.Row> {
    set r | r in rows && r.kind != "allChats"
  }

  /** With nothing left on the remote side: the local row goes, a new subscription comes, and then its row.
      A failing call leaves it at that. */
  ghost function StartedOver(s: State, a: Answers): State {
    var others := OtherRows(s.rows);
    if s.rows != others && !a.dropLocal then s
    else if !a.create || a.newId in s.remote then s.(rows := others)
    else
      s.(remote := s.remote[a.newId := ChatsSubscription(s)],
         rows := if a.record && Fresh(others, a.newId) then others + {ChatsRow(s, a.newId)} else others,
         looked := s.clock)
  }

  /** A subscription that both sides hold, but not for long any more, is refreshed; when the refresh or its
      record fails, it is dropped and created anew. */
  ghost predicate RefreshedOrReplaced(s: State, id: string, a: Answers, end: State)
    requires id in s.remote
  {
    var extended := s.remote[id := s.remote[id].(expiresOn := s.clock + TWO_HOURS)];
    if a.refresh && a.recordRefresh then
      && end == s.(remote := extended, rows := end.rows)
      && Subscriptions.OnlyExpiryChanges(s.rows, end.rows, id, s.clock + TWO_HOURS)
    else if a.dropRemote then end == StartedOver(s.(remote := s.remote - {id}), a)
    else end == s.(remote := if a.refresh then extended else s.remote)
  }

  /** A remote subscription that the local side does not have is dropped and created anew, one that both
      have is left alone as long as five minutes are left. */
  ghost predicate Outcome(s: State, a: Answers, end: State) {
    var seen := ChatsId(s);
    if !a.listRemote || !Lists(a.listing, s.remote) || !a.listLocal then end == s
    else if seen.None? then end == StartedOver(s, a)
    else if LocalId(s.rows) != seen then
      end == if a.dropRemote then StartedOver(s.(remote := s.remote - {seen.value}), a) else s
    else if s.remote[seen.value].expiresOn - s.clock >= FIVE_MINUTES then end == s.(looked := s.clock)
    else RefreshedOrReplaced(s.(looked := s.clock), seen.value, a, end)
  }

  lemma NoLocalRow(rows: set<Subscriptions.Row>)
    requires Subscriptions.Wellformed(rows)
    ensures LocalId(rows).None? <==> OtherRows(rows) == rows
    ensures LocalId(rows).Some? ==>
              Subscriptions.Commit(rows, Subscriptions.DeleteById(LocalId(rows).value), NoFault) == OtherRows(rows)
  {
    if OtherRows(rows) != rows {
      assert exists r :: r in rows && r.kind == "allChats";
      var id := LocalId(rows).value;
      var r :| r in rows && r.kind == "allChats" && r.id == id;
      forall q | q in rows ensures q.kind == "allChats" <==> q.id == id {
      }
      assert Subscriptions.Effect(rows, Subscriptions.DeleteById(id)).value == OtherRows(rows);
    }
  }

  lemma SavedRow(s: State, id: string, ok: bool)
    ensures Subscriptions.Commit(s.rows, NewRow(s.settings, id, s.clock + TWO_HOURS),
                                 if ok then NoFault else InsertFails)
            == if ok && Fresh(OtherRows(s.rows), id) then OtherRows(s.rows) + {ChatsRow(s, id)} else s.rows
  {
    var op := NewRow(s.settings, id, s.clock + TWO_HOURS);
    assert (set r | r in s.rows && !Subscriptions.Replaced(op, r)) == OtherRows(s.rows);
  }

  lemma CreateComesTo(s: State, a: Answers)
    requires OtherRows(s.rows) == s.rows
    ensures PassEnd(s.(pc := Create), a) == StartedOver(s, a).(pc := Idle)
  {
    PassGoesOn(s.(pc := Create), a);
    if a.create && a.newId !in s.remote {
      var created := s.(remote := s.remote[a.newId := ChatsSubscription(s)], pc := Record(a.newId, s.clock + TWO_HOURS),
                        looked := s.clock);
      PassGoesOn(created, a);
      SavedRow(created, a.newId, a.record);
    }
  }

  lemma StartsOver(s: State, a: Answers)
    requires Subscriptions.Wellformed(s.rows)
    ensures PassEnd(s.(pc := AfterDrop(LocalId(s.rows))), a) == StartedOver(s, a).(pc := Idle)
  {
    NoLocalRow(s.rows);
    var local := LocalId(s.rows);
    if local.Some? {
      PassGoesOn(s.(pc := DropLocal(local.value)), a);
      if a.dropLocal { CreateComesTo(s.(rows := OtherRows(s.rows)), a); }
    } else {
      CreateComesTo(s, a);
    }
  }

  /** A remote subscription that has to go: it is dropped, and all starts over. */
  lemma DropsAndStartsOver(s: State, at: Pc, id: string, a: Answers)
    requires Subscriptions.Wellformed(s.rows) && id in s.remote
    requires at == DropMismatch(LocalId(s.rows), id) || (at == DropUnrefreshed(id) && LocalId(s.rows) == Some(id))
    ensures PassEnd(s.(pc := at), a)
            == if a.dropRemote then StartedOver(s.(remote := s.remote - {id}), a).(pc := Idle) else s.(pc := Idle)
  {
    PassGoesOn(s.(pc := at), a);
    if a.dropRemote { StartsOver(s.(remote := s.remote - {id}), a); }
    hide StartedOver, LocalId, Subscriptions.Wellformed;
  }

  lemma ExtendedThenDropped(s: State, id: string)
    requires id in s.remote
    ensures Extended(s.remote, id, s.clock + TWO_HOURS) - {id} == s.remote - {id}
  {
  }

  /** A subscription that is due and that both sides hold. */
  lemma RefreshComesTo(s: State, id: string, a: Answers)
    requires s.pc.Idle? && Subscriptions.Wellformed(s.rows) && id in s.remote && LocalId(s.rows) == Some(id)
    ensures RefreshedOrReplaced(s, id, a, PassEnd(s.(pc := Refresh(id)), a))
  {
    PassGoesOn(s.(pc := Refresh(id)), a);
    if a.refresh {
      var t := s.(remote := Extended(s.remote, id, s.clock + TWO_HOURS));
      PassGoesOn(t.(pc := RecordRefresh(id, s.clock + TWO_HOURS)), a);
      if a.recordRefresh {
        Subscriptions.UpdateTouchesOneRow(s.rows, id, s.clock + TWO_HOURS);
      } else {
        DropsAndStartsOver(t, DropUnrefreshed(id), id, a);
        ExtendedThenDropped(s, id);
      }
    } else {
      DropsAndStartsOver(s, DropUnrefreshed(id), id, a);
    }
    hide Subscriptions.Wellformed, Subscriptions.OnlyExpiryChanges, Subscriptions.Commit, StartedOver, LocalId;
  }

  /** Where a comparison leads. */
  lemma ComparisonGoesOn(s: State, local: Option<string>, seen: Option<Seen>, a: Answers)
    ensures PassEnd(s.(pc := Compare(local, seen)), a)
            == if seen.None? then PassEnd(s.(pc := AfterDrop(local)), a)
               else if local != Some(seen.value.id) then PassEnd(s.(pc := DropMismatch(local, seen.value.id)), a)
               else if seen.value.expiresOn - s.clock < FIVE_MINUTES then
                 PassEnd(s.(pc := Refresh(seen.value.id), looked := s.clock), a)
               else s.(pc := Idle, looked := s.clock)
  {
    PassGoesOn(s.(pc := Compare(local, seen)), a);
    if seen.Some? && local == Some(seen.value.id) && ShouldRefresh(seen.value.expiresOn, s.clock) {
      PassGoesOn(s.(pc := NoteExpiry(seen.value.id, seen.value.expiresOn, s.looked), looked := s.clock), a);
    }
  }

  /** The pass from where it compares the two sides. */
  lemma ComparisonComesTo(s: State, seen: Option<Seen>, a: Answers)
    requires s.pc.Idle? && Subscriptions.Wellformed(s.rows) && a.listRemote && a.listLocal && Lists(a.listing, s.remote)
    requires seen == match ChatsId(s) case None => None case Some(id) => Some(Seen(id, s.remote[id].expiresOn))
    ensures Outcome(s, a, PassEnd(s.(pc := Compare(LocalId(s.rows), seen)), a))
  {
    assert ChatsId(s).Some? ==> ChatsId(s).value in s.remote;
    hide PassEnd, StartedOver, RefreshedOrReplaced, LocalId, ChatsId, Subscriptions.Wellformed, Lists;
    var local := LocalId(s.rows);
    ComparisonGoesOn(s, local, seen, a);
    if seen.None? {
      StartsOver(s, a);
    } else if local != Some(seen.value.id) {
      DropsAndStartsOver(s, DropMismatch(local, seen.value.id), seen.value.id, a);
    } else if seen.value.expiresOn - s.clock < FIVE_MINUTES {
      RefreshComesTo(s.(looked := s.clock), seen.value.id, a);
    }
  }

  /** THE OUTCOME OF A PASS. From every state between two passes, and for all answers to its calls, a pass
      that nothing comes between leaves exactly this on both sides. */
  lemma PassComesTo(s: State, a: Answers)
    requires Inv(s) && s.pc.Idle?
    ensures Outcome(s, a, PassEnd(Apply(s, Begin), a))
  {
    hide Subscriptions.Wellformed, Subscriptions.OnlyExpiryChanges;
    PassGoesOn(s.(pc := ListRemote), a);
    if a.listRemote && Lists(a.listing, s.remote) {
      var seen := FindChats(s.remote, s.settings.baseURL, a.listing);
      ScanIsExact(s, a.listing);
      PassGoesOn(s.(pc := ListLocal(seen)), a);
      hide Outcome, FindChats, Lists, IsChats;
      assert seen.Some? ==> seen.value.id in ChatIds(s);
      if a.listLocal { ComparisonComesTo(s, seen, a); }
    }
  }

  /** Both sides hold exactly this subscription, which lasts two hours from now. */
  ghost predicate HoldsAnew(s: State, id: string, end: State) {
    && ChatIds(end) == {id} && LocalId(end.rows) == Some(id)
    && id in end.remote && end.remote[id].expiresOn == s.clock + TWO_HOURS
    && (forall r :: r in end.rows && r.id == id ==> r.expiresOn == s.clock + TWO_HOURS)
  }

  lemma StartedOverHoldsAnew(s: State, a: Answers)
    requires Subscriptions.Wellformed(s.rows) && ChatIds(s) == {}
    requires RestSucceeds(a) && a.newId !in s.remote && Fresh(s.rows, a.newId)
    ensures HoldsAnew(s, a.newId, StartedOver(s, a))
  {
    var end := StartedOver(s, a);
    assert ChatsSubscription(s) == NewChatsSubscription(s.settings, s.clock);
    CreatedChats(s, a.newId);
    assert ChatIds(end) == {a.newId};
    assert ChatsRow(s, a.newId) in end.rows;
    assert forall r :: r in end.rows && r.kind == Subscriptions.TYPE_ALL_CHATS ==> r == ChatsRow(s, a.newId);
  }

  /** REPLACED IN TIME. A subscription that both sides hold, but that cannot be refreshed when it is due, is
      replaced within the same pass by a new one that lasts two hours. */
  lemma UnrefreshedIsReplaced(s: State, id: string, a: Answers)
    requires Inv(s) && s.pc.Idle? && ChatIds(s) == {id} && LocalId(s.rows) == Some(id)
    requires s.remote[id].expiresOn - s.clock < FIVE_MINUTES && !(a.refresh && a.recordRefresh)
    requires RestSucceeds(a) && Lists(a.listing, s.remote) && a.newId !in s.remote && Fresh(s.rows, a.newId)
    ensures HoldsAnew(s, a.newId, PassEnd(Apply(s, Begin), a))
  {
    assert id in ChatIds(s);
    assert ChatsId(s) == Some(id);
    PassComesTo(s, a);
    var without := s.(remote := s.remote - {id}, looked := s.clock);
    assert ChatIds(without) == {};
    StartedOverHoldsAnew(without, a);
    hide Inv, StartedOver, Lists, ChatIds, LocalId, RestSucceeds, PassEnd;
  }

  /** REPLACED WHEN LOST. A subscription that the remote side has lost is replaced by the next pass. */
  lemma LostIsReplaced(s: State, id: string, a: Answers)
    requires Inv(s) && s.pc.Idle? && ChatIds(s) == {id}
    requires var t := Apply(s, RemoteLost(id));
             RestSucceeds(a) && Lists(a.listing, t.remote) && a.newId !in t.remote && Fresh(s.rows, a.newId)
    ensures HoldsAnew(s, a.newId, PassEnd(Apply(Apply(s, RemoteLost(id)), Begin), a))
  {
    var t := Apply(s, RemoteLost(id));
    ApplyKeepsInv(s, RemoteLost(id));
    DroppedChats(s, id);
    assert ChatIds(t) == {} && ChatsId(t) == None;
    PassComesTo(t, a);
    StartedOverHoldsAnew(t, a);
    hide Inv, StartedOver, Lists, ChatIds, LocalId, RestSucceeds, PassEnd;
  }
}
