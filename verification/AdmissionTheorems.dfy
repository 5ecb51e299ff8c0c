/**
 What the admission protocol guarantees over every run: every interleaving, every combination of
 failing calls, every change of configuration.
 */
module AdmissionTheorems {
  import opened Common
  import opened Users
  import opened Admission
  import opened AdmissionTasks

  lemma UnionSize<T>(a: set<T>, b: set<T>)
    ensures |a + b| <= |a| + |b|
  {
    assert |a + b| == |a| + |b - a| by { assert a + b == a + (b - a); }
  }

  lemma {:induction false} RunKeepsInv(s: State, es: seq<Event>)
    requires Inv(s)
    ensures Inv(Run(s, es))
    decreases |es|
  {
    if es != [] {
      ApplyKeepsInv(s, es[0]);
      RunKeepsInv(Apply(s, es[0]), es[1..]);
    }
  }

  // ----- who can become a member, step by step -----

  /** A step adds at most one member, and only the holder's two writes add one at all. */
  lemma StepMembers(s: State, e: Event)
    requires Inv(s)
    ensures var s' := Apply(s, e);
            && HasConnected(s'.users) ==
               (if e.Proceed? && e.ok && s.holder.Connecting? && s.holder.cpc.StoreToken?
                   && Free(s.users, s.holder.user, s.holder.teams)
                then HasConnected(s.users) + {s.holder.user} else HasConnected(s.users))
            && s'.invites.Keys ==
               (if e.Proceed? && e.ok && s.holder.Inviting? && s.holder.ipc.StoreInvite?
                then s.invites.Keys + {s.holder.user}
                else if e.Proceed? && e.ok && s.holder.Connecting? && s.holder.cpc.DropInvite?
                then s.invites.Keys - {s.holder.user} else s.invites.Keys)
  {
    if e.ProceedTask? && e.id in s.tasks {
      TaskStepFrame(s, e.id, e.ok, e.newToken);
      assert TaskFacts(s.tasks[e.id], HasConnected(s.users));
      TaskUsersKeep(s.users, s.clock, s.tasks[e.id], e.ok);
    }
    if e.Proceed? && s.holder.Connecting? {
      ConnectStepUsers(s, e.ok);
    }
  }

  /** Which member, if any, a step adds. */
  ghost function NewMember(s: State, e: Event): Option<string> {
    if e.Proceed? && e.ok && s.holder.Connecting? && s.holder.cpc.StoreToken?
       && Free(s.users, s.holder.user, s.holder.teams) then Some(s.holder.user)
    else if e.Proceed? && e.ok && s.holder.Inviting? && s.holder.ipc.StoreInvite? then Some(s.holder.user)
    else None
  }

  lemma MembersOnlyGrow(s: State, e: Event)
    requires Inv(s)
    ensures Members(Apply(s, e)) == Members(s) + (if NewMember(s, e).Some? then {NewMember(s, e).value} else {})
  {
    StepMembers(s, e);
  }

  /** The holder after a step: still where it was, moved on by its own step, gone, or just arrived. */
  lemma StepHolder(s: State, e: Event)
    requires Inv(s)
    ensures var h, h' := s.holder, Apply(s, e).holder;
            var c := HasConnected(s.users);
            if e.Proceed? && h.Inviting? then
              (var next := NextInvitePc(h.ipc, h.user, c, s.invites, s.whitelist, s.config, e.ok, e.weekend);
               h' == if next.Returned? then Unlocked else Inviting(h.user, h.at, next))
            else if e.Proceed? && h.Connecting? then
              (var next := NextConnectPc(h.cpc, h.user, c, s.invites, s.whitelist, s.config, e.ok,
                                         Free(s.users, h.user, h.teams));
               h' == if next.Responded? then Unlocked else Connecting(h.user, h.teams, h.token, next))
            else
              || h' == h
              || (h.Unlocked? && h'.Inviting? && h'.ipc.AskHasConnected?)
              || (h.Unlocked? && h'.Connecting? && h'.cpc.HasRightConnected?)
  {
    hide NextInvitePc, NextConnectPc, HasConnected, SetInfo, Free;
  }

  // ----- capacity -----

  /** What a passed check says about the room that was left. */
  predicate HasRoom(h: Holder, connected: set<string>, invited: set<string>, cap: int) {
    match h
    case Unlocked => true
    case Inviting(u, _, pc) =>
      (match pc
       case CheckPending(_) => |connected| + |invited| < cap
       case CheckTime(since) => since == 0 ==> |connected| + |invited| < cap
       case SendMessage => |connected| + |invited| < cap
       case StoreInvite => |connected| + |invited| < cap
       case _ => true)
    case Connecting(u, _, _, pc) =>
      (match pc
       case OpenRestricted(nA) => nA <= cap - |connected| - |invited|
       case OpenWhitelisted(nA) => nA <= cap - |connected| - |invited|
       case StoreToken => u in connected || u in invited || |connected| + |invited| < cap
       case _ => true)
  }

  ghost predicate WithinCap(s: State, cap: int) {
    && |Members(s)| <= cap
    && s.config.allowed <= cap
    && HasRoom(s.holder, HasConnected(s.users), s.invites.Keys, cap)
  }

  lemma InviteKeepsRoom(s: State, e: Event, cap: int)
    requires Inv(s) && WithinCap(s, cap) && e.Proceed? && s.holder.Inviting?
    ensures HasRoom(Apply(s, e).holder, HasConnected(Apply(s, e).users), Apply(s, e).invites.Keys, cap)
  {
    StepHolder(s, e);
    StepMembers(s, e);
    var h := s.holder;
    assert |s.invites.Keys| == |s.invites|;
    assert InviteFacts(h.ipc, h.user, HasConnected(s.users), s.invites);
  }

  lemma NextHasRoom(
    h: Holder, connected: set<string>, invites: map<string, Invite>, whitelist: set<string>, config: Config,
    ok: bool, free: bool, cap: int)
    requires h.Connecting? && ConnectFacts(h.cpc, h.user, connected, invites)
    requires HasRoom(h, connected, invites.Keys, cap) && config.allowed <= cap
    ensures var next := NextConnectPc(h.cpc, h.user, connected, invites, whitelist, config, ok, free);
            HasRoom(Connecting(h.user, h.teams, h.token, next),
                    if ok && free && h.cpc.StoreToken? then connected + {h.user} else connected,
                    if ok && h.cpc.DropInvite? then invites.Keys - {h.user} else invites.Keys,
                    cap)
  {
    assert |invites.Keys| == |invites|;
  }

  lemma ConnectKeepsRoom(s: State, e: Event, cap: int)
    requires Inv(s) && WithinCap(s, cap) && e.Proceed? && s.holder.Connecting?
    ensures HasRoom(Apply(s, e).holder, HasConnected(Apply(s, e).users), Apply(s, e).invites.Keys, cap)
  {
    StepHolder(s, e);
    StepMembers(s, e);
    hide Apply, UsersOk, TasksOk, InvitesOk, Free, ConnectFacts, NextConnectPc;
    var h := s.holder;
    assert ConnectFacts(h.cpc, h.user, HasConnected(s.users), s.invites);
    NextHasRoom(h, HasConnected(s.users), s.invites, s.whitelist, s.config, e.ok, Free(s.users, h.user, h.teams), cap);
  }

  lemma NewMemberHasRoom(s: State, e: Event, cap: int)
    requires WithinCap(s, cap) && NewMember(s, e).Some?
    ensures NewMember(s, e).value in Members(s) || |HasConnected(s.users)| + |s.invites.Keys| < cap
  {
    assert HasRoom(s.holder, HasConnected(s.users), s.invites.Keys, cap);
  }

  lemma AddingFits<T>(a: set<T>, b: set<T>, x: T, cap: int)
    requires |a + b| <= cap && (x in a + b || |a| + |b| < cap)
    ensures |a + b + {x}| <= cap
  {
    if x in a + b {
      assert a + b + {x} == a + b;
    } else {
      UnionSize(a, b);
      UnionSize(a + b, {x});
    }
  }

  /** Both counts read under the mutex are still exact when the holder writes, and their sum is never
      below the size of the union: the new member fits. */
  lemma NewMemberFits(s: State, e: Event, cap: int)
    requires Inv(s) && WithinCap(s, cap)
    ensures |Members(Apply(s, e))| <= cap
  {
    assert |Members(s)| <= cap;
    hide Apply, Inv, WithinCap, NewMember, HasConnected;
    MembersOnlyGrow(s, e);
    if NewMember(s, e).Some? {
      NewMemberHasRoom(s, e, cap);
      AddingFits(HasConnected(s.users), s.invites.Keys, NewMember(s, e).value, cap);
    } else {
      assert Members(s) + {} == Members(s);
    }
  }

  lemma StepKeepsCap(s: State, e: Event, cap: int)
    requires Inv(s) && WithinCap(s, cap)
    requires e.SetConfig? ==> e.config.allowed <= cap
    ensures WithinCap(Apply(s, e), cap)
  {
    NewMemberFits(s, e, cap);
    ConfigAfter(s, e);
    if e.Proceed? && s.holder.Inviting? {
      InviteKeepsRoom(s, e, cap);
    } else if e.Proceed? && s.holder.Connecting? {
      ConnectKeepsRoom(s, e, cap);
    } else {
      StepHolder(s, e);
      StepMembers(s, e);
    }
  }

  /** The greatest limit ever in force. */
  function GreatestAllowed(config: Config, es: seq<Event>): int
    decreases |es|
  {
    if es == [] then config.allowed
    else Max(config.allowed, GreatestAllowed(if es[0].SetConfig? then es[0].config else config, es[1..]))
  }

  lemma ConfigAfter(s: State, e: Event)
    ensures Apply(s, e).config == if e.SetConfig? then e.config else s.config
  {
    if e.ProceedTask? && e.id in s.tasks { TaskStepFrame(s, e.id, e.ok, e.newToken); }
  }

  lemma {:induction false} RunKeepsCap(s: State, es: seq<Event>, cap: int)
    requires Inv(s) && WithinCap(s, cap)
    requires GreatestAllowed(s.config, es) <= cap
    ensures WithinCap(Run(s, es), cap)
    decreases |es|
  {
    if es != [] {
      ApplyKeepsInv(s, es[0]);
      ConfigAfter(s, es[0]);
      assert GreatestAllowed(Apply(s, es[0]).config, es[1..]) <= cap;
      assert Apply(s, es[0]).config.allowed <= cap;
      StepKeepsCap(s, es[0], cap);
      RunKeepsCap(Apply(s, es[0]), es[1..], cap);
    }
  }

  /** CAPACITY. The users who have connected and those who hold an invite, together, never outnumber
      the larger of their initial number and the greatest limit ever in force. */
  lemma CapacityHolds(s: State, es: seq<Event>)
    requires Initial(s)
    ensures |Members(Run(s, es))| <= Max(|Members(s)|, GreatestAllowed(s.config, es))
  {
    RunKeepsCap(s, es, Max(|Members(s)|, GreatestAllowed(s.config, es)));
  }

  // ----- pending invites -----

  predicate HasInviteRoom(h: Holder, invited: set<string>, cap: int) {
    h.Inviting? && (h.ipc.SendMessage? || h.ipc.StoreInvite? || (h.ipc.CheckTime? && h.ipc.since == 0))
    ==> |invited| < cap
  }

  ghost predicate WithinPending(s: State, cap: int) {
    |s.invites| <= cap && s.config.maxPending <= cap && HasInviteRoom(s.holder, s.invites.Keys, cap)
  }

  lemma StepKeepsPending(s: State, e: Event, cap: int)
    requires Inv(s) && WithinPending(s, cap)
    requires e.SetConfig? ==> e.config.maxPending <= cap
    ensures WithinPending(Apply(s, e), cap)
  {
    StepHolder(s, e);
    StepMembers(s, e);
    ConfigAfter(s, e);
    var s' := Apply(s, e);
    assert |s.invites.Keys| == |s.invites| && |s'.invites.Keys| == |s'.invites|;
    if s.holder.Inviting? { assert InviteFacts(s.holder.ipc, s.holder.user, HasConnected(s.users), s.invites); }
    if s.holder.Connecting? {
      assert |s.invites.Keys - {s.holder.user}| <= |s.invites.Keys|;
    }
  }

  function GreatestPending(config: Config, es: seq<Event>): int
    decreases |es|
  {
    if es == [] then config.maxPending
    else Max(config.maxPending, GreatestPending(if es[0].SetConfig? then es[0].config else config, es[1..]))
  }

  lemma {:induction false} RunKeepsPending(s: State, es: seq<Event>, cap: int)
    requires Inv(s) && WithinPending(s, cap)
    requires GreatestPending(s.config, es) <= cap
    ensures WithinPending(Run(s, es), cap)
    decreases |es|
  {
    if es != [] {
      ApplyKeepsInv(s, es[0]);
      ConfigAfter(s, es[0]);
      assert GreatestPending(Apply(s, es[0]).config, es[1..]) <= cap;
      StepKeepsPending(s, es[0], cap);
      RunKeepsPending(Apply(s, es[0]), es[1..], cap);
    }
  }

  /** PENDING INVITES never exceed the larger of their initial number and the greatest pending limit
      ever in force; with a fixed configuration, that limit. */
  lemma PendingHolds(s: State, es: seq<Event>)
    requires Initial(s)
    ensures |Run(s, es).invites| <= Max(|s.invites|, GreatestPending(s.config, es))
  {
    RunKeepsPending(s, es, Max(|s.invites|, GreatestPending(s.config, es)));
  }

  // ----- restricted mode -----

  /** Everyone who was on the whitelist at some time of the run. */
  ghost function EverWhitelisted(s: State, es: seq<Event>): set<string>
    decreases |es|
  {
    if es == [] then s.whitelist else s.whitelist + EverWhitelisted(Apply(s, es[0]), es[1..])
  }

  predicate AlwaysRestricted(config: Config, es: seq<Event>) {
    config.restricted && forall i :: 0 <= i < |es| && es[i].SetConfig? ==> es[i].config.restricted
  }

  /** Past the whitelist check, the user is vouched for. */
  predicate HolderVouched(h: Holder, vouched: set<string>) {
    match h
    case Unlocked => true
    case Inviting(u, _, pc) => PastWhitelist(pc) ==> u in vouched
    case Connecting(u, _, _, pc) => pc.StoreToken? ==> u in vouched
  }

  predicate PastWhitelist(pc: InvitePc) {
    || pc.CountConnected? || pc.CountInvited? || pc.CheckCapacity? || pc.CheckPending?
    || (pc.CheckTime? && pc.since == 0) || pc.SendMessage? || pc.StoreInvite?
  }

  ghost predicate AllVouched(s: State, vouched: set<string>) {
    && Members(s) <= vouched
    && s.whitelist <= vouched
    && s.config.restricted
    && HolderVouched(s.holder, vouched)
  }

  lemma InviteVouched(
    pc: InvitePc, u: string, connected: set<string>, invites: map<string, Invite>, whitelist: set<string>,
    config: Config, ok: bool, weekend: bool, vouched: set<string>)
    requires InviteFacts(pc, u, connected, invites) && InvitesOk(invites)
    requires config.restricted && whitelist <= vouched && (PastWhitelist(pc) ==> u in vouched)
    ensures PastWhitelist(NextInvitePc(pc, u, connected, invites, whitelist, config, ok, weekend)) ==> u in vouched
  {
  }

  lemma ConnectVouched(
    pc: ConnectPc, u: string, connected: set<string>, invites: map<string, Invite>, whitelist: set<string>,
    config: Config, ok: bool, free: bool, vouched: set<string>)
    requires config.restricted && whitelist <= vouched && connected + invites.Keys <= vouched
    ensures NextConnectPc(pc, u, connected, invites, whitelist, config, ok, free).StoreToken? ==> u in vouched
  {
    assert u in invites ==> u in invites.Keys;
  }

  lemma StepKeepsHolderVouched(s: State, e: Event, vouched: set<string>)
    requires Inv(s) && AllVouched(s, vouched)
    ensures HolderVouched(Apply(s, e).holder, vouched)
  {
    StepHolder(s, e);
    var h, connected := s.holder, HasConnected(s.users);
    if e.Proceed? && h.Inviting? {
      InviteVouched(h.ipc, h.user, connected, s.invites, s.whitelist, s.config, e.ok, e.weekend, vouched);
    } else if e.Proceed? && h.Connecting? {
      ConnectVouched(h.cpc, h.user, connected, s.invites, s.whitelist, s.config, e.ok,
                     Free(s.users, h.user, h.teams), vouched);
    }
  }

  lemma StepKeepsVouched(s: State, e: Event, vouched: set<string>)
    requires Inv(s) && AllVouched(s, vouched)
    requires e.SetConfig? ==> e.config.restricted
    requires Apply(s, e).whitelist <= vouched
    ensures AllVouched(Apply(s, e), vouched)
  {
    MembersOnlyGrow(s, e);
    StepKeepsHolderVouched(s, e, vouched);
    ConfigAfter(s, e);
  }

  lemma {:induction false} RunKeepsVouched(s: State, es: seq<Event>, vouched: set<string>)
    requires Inv(s) && AllVouched(s, vouched)
    requires AlwaysRestricted(s.config, es) && EverWhitelisted(s, es) <= vouched
    ensures AllVouched(Run(s, es), vouched)
    decreases |es|
  {
    if es != [] {
      var s' := Apply(s, es[0]);
      ApplyKeepsInv(s, es[0]);
      ConfigAfter(s, es[0]);
      assert s'.whitelist <= EverWhitelisted(s', es[1..]);
      StepKeepsVouched(s, es[0], vouched);
      assert AlwaysRestricted(s'.config, es[1..]) by {
        forall i | 0 <= i < |es[1..]| && es[1..][i].SetConfig? ensures es[1..][i].config.restricted {
          assert es[1..][i] == es[i + 1];
        }
      }
      RunKeepsVouched(s', es[1..], vouched);
    }
  }

  /** RESTRICTED MODE. While it is in force throughout, everyone who has become invited or connected
      was so initially or had been on the whitelist, even when uploads replace the whitelist between
      the check and the write. */
  lemma RestrictedHolds(s: State, es: seq<Event>)
    requires Initial(s) && AlwaysRestricted(s.config, es)
    ensures Members(Run(s, es)) <= Members(s) + EverWhitelisted(s, es)
  {
    assert s.whitelist <= EverWhitelisted(s, es);
    RunKeepsVouched(s, es, Members(s) + EverWhitelisted(s, es));
  }

  // ----- phases and the "only once" of invites -----

  /** 0 not invited, 1 invited, 2 has connected. */
  function Phase(s: State, u: string): nat {
    if u in HasConnected(s.users) then 2 else if u in s.invites then 1 else 0
  }

  ghost predicate CreatesInvite(s: State, e: Event, u: string) {
    u !in s.invites && u in Apply(s, e).invites
  }

  /** A phase only moves forward, and an invite record is created only in phase 0. */
  lemma StepPhase(s: State, e: Event, u: string)
    requires Inv(s)
    ensures Phase(s, u) <= Phase(Apply(s, e), u)
    ensures CreatesInvite(s, e, u) <==>
            e.Proceed? && e.ok && s.holder.Inviting? && s.holder.ipc.StoreInvite? && s.holder.user == u
    ensures CreatesInvite(s, e, u) ==> Phase(s, u) == 0 && Phase(Apply(s, e), u) == 1
  {
    StepMembers(s, e);
    if s.holder.Inviting? { assert InviteFacts(s.holder.ipc, s.holder.user, HasConnected(s.users), s.invites); }
    if s.holder.Connecting? { assert ConnectFacts(s.holder.cpc, s.holder.user, HasConnected(s.users), s.invites); }
    assert u in Apply(s, e).invites <==> u in Apply(s, e).invites.Keys;
    assert u in s.invites <==> u in s.invites.Keys;
  }

  ghost function InvitesCreated(s: State, es: seq<Event>, u: string): nat
    decreases |es|
  {
    if es == [] then 0
    else (if CreatesInvite(s, es[0], u) then 1 else 0) + InvitesCreated(Apply(s, es[0]), es[1..], u)
  }

  lemma {:induction false} RunPhase(s: State, es: seq<Event>, u: string)
    requires Inv(s)
    ensures Phase(s, u) <= Phase(Run(s, es), u)
    ensures InvitesCreated(s, es, u) <= if Phase(s, u) == 0 then 1 else 0
    decreases |es|
  {
    if es != [] {
      ApplyKeepsInv(s, es[0]);
      StepPhase(s, es[0], u);
      RunPhase(Apply(s, es[0]), es[1..], u);
    }
  }

  /** PHASES. Over any run a user goes from not invited to invited to has connected and never back, and
      gets at most one invite record, none at all if already invited or connected. */
  lemma PhasesHold(s: State, es: seq<Event>, u: string)
    requires Initial(s)
    ensures Phase(s, u) <= Phase(Run(s, es), u)
    ensures InvitesCreated(s, es, u) <= if Phase(s, u) == 0 then 1 else 0
  {
    RunPhase(s, es, u);
  }

  predicate SendsMessage(s: State, e: Event, u: string) {
    e.Proceed? && e.ok && s.holder.Inviting? && s.holder.ipc.SendMessage? && s.holder.user == u
  }

  predicate LosesRecord(s: State, e: Event, u: string) {
    e.Proceed? && !e.ok && s.holder.Inviting? && s.holder.ipc.StoreInvite? && s.holder.user == u
  }

  predicate BetweenSendAndStore(s: State, u: string) {
    s.holder.Inviting? && s.holder.ipc.StoreInvite? && s.holder.user == u
  }

  ghost function MessagesSent(s: State, es: seq<Event>, u: string): nat
    decreases |es|
  {
    if es == [] then 0
    else (if SendsMessage(s, es[0], u) then 1 else 0) + MessagesSent(Apply(s, es[0]), es[1..], u)
  }

  ghost function RecordsLost(s: State, es: seq<Event>, u: string): nat
    decreases |es|
  {
    if es == [] then 0
    else (if LosesRecord(s, es[0], u) then 1 else 0) + RecordsLost(Apply(s, es[0]), es[1..], u)
  }

  function Count(b: bool): nat {
    if b then 1 else 0
  }

  lemma StepAccountsForMessages(s: State, e: Event, u: string)
    requires Inv(s)
    ensures Count(SendsMessage(s, e, u)) + Count(BetweenSendAndStore(s, u))
            == Count(CreatesInvite(s, e, u)) + Count(LosesRecord(s, e, u)) + Count(BetweenSendAndStore(Apply(s, e), u))
  {
    hide Apply, Inv, HasConnected, Free, Phase;
    StepPhase(s, e, u);
    StepHolder(s, e);
  }

  lemma {:induction false} RunAccountsForMessages(s: State, es: seq<Event>, u: string)
    requires Inv(s)
    ensures MessagesSent(s, es, u) + Count(BetweenSendAndStore(s, u))
            == InvitesCreated(s, es, u) + RecordsLost(s, es, u) + Count(BetweenSendAndStore(Run(s, es), u))
    decreases |es|
  {
    if es != [] {
      ApplyKeepsInv(s, es[0]);
      StepAccountsForMessages(s, es[0], u);
      RunAccountsForMessages(Apply(s, es[0]), es[1..], u);
    }
  }

  /** "ONLY SEND ONCE". Every invitation message to a user is accounted for by the one record, by a
      store call that failed after the message had gone out, or by a store call still to come. So a
      second message is sent only after such a failure, and one failure is enough for it. */
  lemma MessagesAccountedFor(s: State, es: seq<Event>, u: string)
    requires Initial(s)
    ensures MessagesSent(s, es, u)
            == InvitesCreated(s, es, u) + RecordsLost(s, es, u) + Count(BetweenSendAndStore(Run(s, es), u))
    ensures MessagesSent(s, es, u) <= 1 + RecordsLost(s, es, u)
  {
    RunAccountsForMessages(s, es, u);
    RunPhase(s, es, u);
    RunKeepsInv(s, es);
    if BetweenSendAndStore(Run(s, es), u) {
      // still in phase 0, so no record has been created yet
      CreatedLeavesPhaseZero(s, es, u);
    }
  }

  lemma {:induction false} CreatedLeavesPhaseZero(s: State, es: seq<Event>, u: string)
    requires Inv(s)
    ensures InvitesCreated(s, es, u) > 0 ==> Phase(Run(s, es), u) > 0
    decreases |es|
  {
    if es != [] {
      ApplyKeepsInv(s, es[0]);
      StepPhase(s, es[0], u);
      RunPhase(Apply(s, es[0]), es[1..], u);
      CreatedLeavesPhaseZero(Apply(s, es[0]), es[1..], u);
    }
  }

  // ----- a message can be repeated without end -----

  lemma {:induction false} RunThen(s: State, es: seq<Event>, fs: seq<Event>, u: string)
    ensures Run(s, es + fs) == Run(Run(s, es), fs)
    ensures MessagesSent(s, es + fs, u) == MessagesSent(s, es, u) + MessagesSent(Run(s, es), fs, u)
    ensures InvitesCreated(s, es + fs, u) == InvitesCreated(s, es, u) + InvitesCreated(Run(s, es), fs, u)
    decreases |es|
  {
    hide Apply, SendsMessage, CreatesInvite;
    if es == [] {
      assert es + fs == fs;
    } else {
      assert (es + fs)[1..] == es[1..] + fs;
      RunThen(Apply(s, es[0]), es[1..], fs, u);
    }
  }

  /** Nothing stands in the way of an invitation. */
  ghost predicate Invitable(s: State, u: string) {
    && s.holder.Unlocked?
    && u !in HasConnected(s.users) && u !in s.invites
    && (s.config.restricted ==> IsWhitelisted(s.whitelist, u))
    && |HasConnected(s.users)| + |s.invites| < s.config.allowed
    && |s.invites| < s.config.maxPending
  }

  /** Where an invitation that nothing stands in the way of can be. */
  ghost predicate OnTheWay(s: State, pc: InvitePc) {
    match pc
    case AskWhitelisted => s.config.restricted
    case CountInvited(nC) => nC == |HasConnected(s.users)|
    case CheckCapacity(nC, nI) => nC == |HasConnected(s.users)| && nI == |s.invites|
    case CheckPending(nI) => nI == |s.invites|
    case CheckTime(since) => since == 0
    case ForgetListed => false
    case Returned => false
    case _ => true
  }

  /** The next call of an invitation of which only the store will fail. */
  ghost function NextOnTheWay(s: State, u: string, pc: InvitePc): InvitePc {
    NextInvitePc(pc, u, HasConnected(s.users), s.invites, s.whitelist, s.config, !pc.StoreInvite?, false)
  }

  lemma StaysOnTheWay(s: State, u: string, at: nat, pc: InvitePc)
    requires Invitable(s, u) && OnTheWay(s, pc)
    ensures var next := NextOnTheWay(s, u, pc);
            && (if pc.StoreInvite? then next.Returned? else OnTheWay(s, next))
            && Apply(s.(holder := Inviting(u, at, pc)), Proceed(!pc.StoreInvite?, false))
               == s.(holder := if pc.StoreInvite? then Unlocked else Inviting(u, at, next))
            && (pc.SendMessage? <==> next.StoreInvite?)
  {
  }

  /** An invitation whose store fails: it sends its message and leaves everything as it was. */
  lemma {:induction false} Attempt(s: State, u: string, at: nat, pc: InvitePc) returns (es: seq<Event>)
    requires Invitable(s, u) && OnTheWay(s, pc)
    ensures var here := s.(holder := Inviting(u, at, pc));
            && Run(here, es) == s
            && MessagesSent(here, es, u) == Count(!pc.StoreInvite?)
            && InvitesCreated(here, es, u) == 0
    decreases InviteStage(pc)
  {
    var here, e := s.(holder := Inviting(u, at, pc)), Proceed(!pc.StoreInvite?, false);
    StaysOnTheWay(s, u, at, pc);
    InviteStageFalls(pc, u, HasConnected(s.users), s.invites, s.whitelist, s.config, !pc.StoreInvite?, false);
    var rest := [];
    if !pc.StoreInvite? { rest := Attempt(s, u, at, NextOnTheWay(s, u, pc)); }
    es := [e] + rest;
    hide Apply, OnTheWay, HasConnected;
    assert es[1..] == rest;
    assert Apply(here, e).invites == s.invites;
  }

  lemma QuietStep(s: State, e: Event, rest: seq<Event>, t: State, u: string)
    requires t == Apply(s, e) && !e.Proceed? && t.invites == s.invites
    ensures Run(s, [e] + rest) == Run(t, rest)
    ensures MessagesSent(s, [e] + rest, u) == MessagesSent(t, rest, u)
    ensures InvitesCreated(s, [e] + rest, u) == InvitesCreated(t, rest, u)
  {
    assert ([e] + rest)[1..] == rest;
    hide Apply;
  }

  /** An invitation from its start to where it asks its first question, and then `rest`. */
  lemma Arrives(s: State, id: nat, u: string, rest: seq<Event>)
    requires Invitable(s, u) && id !in s.tasks
    ensures var go := Goes(id, true);
            var es := [Start(id, NotifyConnect(u))] + ([go] + ([go] + ([go] + rest)));
            var there := s.(holder := Inviting(u, s.clock, AskHasConnected));
            && Run(s, es) == Run(there, rest)
            && MessagesSent(s, es, u) == MessagesSent(there, rest, u)
            && InvitesCreated(s, es, u) == InvitesCreated(there, rest, u)
  {
    ArrivingReads(s, id, u, true);
    assert s.holder.Unlocked? && s.config.maxPending != 0;
    hide Apply, Run, MessagesSent, InvitesCreated, Invitable;
    var go := Goes(id, true);
    var s1, s2 := WithTask(s, id, InviteStart(u, s.clock)), WithTask(s, id, InviteLookup(u, s.clock));
    var s3, there := WithTask(s, id, InviteWaiting(u, s.clock)), s.(holder := Inviting(u, s.clock, AskHasConnected));
    QuietStep(s, Start(id, NotifyConnect(u)), [go] + ([go] + ([go] + rest)), s1, u);
    QuietStep(s1, go, [go] + ([go] + rest), s2, u);
    QuietStep(s2, go, [go] + rest, s3, u);
    QuietStep(s3, go, rest, there, u);
  }

  /** REPEATED MESSAGES. As long as storing fails there is no limit: a user to whose invitation nothing
      stands in the way can be sent any number of messages without ever getting a record. */
  lemma {:induction false} MessagesRepeat(s: State, id: nat, u: string, n: nat) returns (es: seq<Event>)
    requires Invitable(s, u) && id !in s.tasks
    ensures Run(s, es) == s && MessagesSent(s, es, u) == n && InvitesCreated(s, es, u) == 0
  {
    es := [];
    if n > 0 {
      var attempt := Attempt(s, u, s.clock, AskHasConnected);
      var more := MessagesRepeat(s, id, u, n - 1);
      hide Apply, Run, MessagesSent, InvitesCreated, Invitable;
      var go := Goes(id, true);
      Arrives(s, id, u, attempt + more);
      RunThen(s.(holder := Inviting(u, s.clock, AskHasConnected)), attempt, more, u);
      es := [Start(id, NotifyConnect(u))] + ([go] + ([go] + ([go] + (attempt + more))));
    }
  }

  /** Such a state exists: empty tables, and room for one. */
  lemma InvitableExists(u: string)
    ensures exists s :: Initial(s) && Invitable(s, u)
  {
    var s := State(map[], map[], {}, Config(1, false, 1), 1, Unlocked, map[]);
    assert HasConnected(s.users) == {};
    assert Initial(s) && Invitable(s, u);
  }
}
