/**
 The connection admission protocol as a step machine: who may be invited, who may connect, and what
 the users, invites and whitelist tables hold after every single store call.

 MaybeSendInviteMessage and the admission section of the OAuth redirect run under one cluster mutex;
 at most one of them is inside at a time (`holder`). Disconnects, token losses, token refreshes,
 whitelist uploads and configuration changes do not take it: their calls (`tasks`, `Upload`,
 `SetConfig`) come between any two calls of the holder. Every call may fail.
 */
module Admission {
  import opened Common
  import opened Users
  import Whitelist

  datatype Config = Config(allowed: int, restricted: bool, maxPending: int)

  datatype Invite = Invite(pendingSince: nat, lastSentAt: nat)

  /** The pending-since time that a read of the record returns: the last-sent time wins. */
  function ReadPendingSince(i: Invite): nat {
    if i.lastSentAt != 0 then i.lastSentAt else i.pendingSince
  }

  /** The next call of MaybeSendInviteMessage, and what it has read so far. */
  datatype InvitePc =
    | AskHasConnected
    | AskInvite
    | AskRestricted
    | AskWhitelisted
    | CountConnected
    | CountInvited(nConnected: int)
    | CheckCapacity(nConnected: int, nInvited: int)
    | CheckPending(nInvited: int)
    | CheckTime(since: nat)
    | SendMessage
    | StoreInvite
    | ForgetListed
    | Returned

  /** The next call of the admission section of oauthRedirectHandler, and what it has read so far. */
  datatype ConnectPc =
    | HasRightConnected
    | HasRightInvited
    | OpenCountConnected
    | OpenCountInvited(nConnected: int)
    | OpenAvailable(nConnected: int, nInvited: int)
    | OpenRestricted(nAvailable: int)
    | OpenWhitelisted(nAvailable: int)
    | Deny
    | StoreToken
    | SetPreference
    | DropInvite
    | DropListed
    | Responded

  /** The process inside the mutex. */
  datatype Holder =
    | Unlocked
    | Inviting(user: string, at: nat, ipc: InvitePc)
    | Connecting(user: string, teams: string, token: Token, cpc: ConnectPc)

  /** A process outside the mutex: its next call, and what it has read so far. */
  datatype Task =
    | InviteStart(user: string, at: nat)
    | InviteLookup(user: string, at: nat)
    | InviteWaiting(user: string, at: nat)
    | ConnectPrecheck(user: string, teams: string, token: Token)
    | ConnectWaiting(user: string, teams: string, token: Token)
    | DisconnectFindTeams(user: string)
    | DisconnectFindToken(user: string, teams: string)
    | LossFindTeams(user: string)
    | ClearToken(user: string, teams: string)
    | RefreshFindToken(user: string)
    | RefreshRemote(user: string)
    | RefreshFindTeams(user: string, token: Token)
    | RefreshStore(user: string, teams: string, token: Token)

  /** The entry points that start a process. */
  datatype Request =
    | NotifyConnect(user: string)
    | OAuthRedirect(user: string, teams: string, token: Token)
    | DisconnectCommand(user: string)
    | TokenLost(user: string)
    | ClientForUser(user: string)

  datatype State = State(
    users: UserMap,
    invites: map<string, Invite>,
    whitelist: set<string>,
    config: Config,
    clock: nat,
    holder: Holder,
    tasks: map<nat, Task>)

  datatype Event =
    | Tick(elapsed: nat)
    | Start(id: nat, request: Request)
    | Proceed(ok: bool, weekend: bool)
    | ProceedTask(id: nat, ok: bool, newToken: Token)
    | Upload(ids: seq<string>, ok: bool)
    | SetConfig(config: Config)

  // ----- the steps -----

  function IsWhitelisted(whitelist: set<string>, user: string): bool {
    user in whitelist && user != ""
  }

  function ShouldSendInviteMessage(since: nat, weekend: bool): bool {
    !weekend && since == 0
  }

  /** What the next call of MaybeSendInviteMessage leads to. A failing call or a negative answer
      returns. */
  function NextInvitePc(
    pc: InvitePc, u: string, connected: set<string>, invites: map<string, Invite>, whitelist: set<string>,
    config: Config, ok: bool, weekend: bool): InvitePc
  {
    match pc
    case AskHasConnected => if !ok || u in connected then Returned else AskInvite
    case AskInvite =>
      if !ok then Returned
      else if u in invites then CheckTime(ReadPendingSince(invites[u]))
      else AskRestricted
    case AskRestricted => if config.restricted then AskWhitelisted else CountConnected
    case AskWhitelisted => if ok && IsWhitelisted(whitelist, u) then CountConnected else Returned
    case CountConnected => if ok then CountInvited(|connected|) else Returned
    case CountInvited(nC) => if ok then CheckCapacity(nC, |invites|) else Returned
    case CheckCapacity(nC, nI) => if nC + nI >= config.allowed then Returned else CheckPending(nI)
    case CheckPending(nI) => if nI < config.maxPending then CheckTime(0) else Returned
    case CheckTime(since) => if ShouldSendInviteMessage(since, weekend) then SendMessage else Returned
    case SendMessage => if ok then StoreInvite else Returned
    case StoreInvite => if ok then ForgetListed else Returned
    case ForgetListed => Returned
    case Returned => Returned
  }

  function InviteStep(s: State, ok: bool, weekend: bool): State
    requires s.holder.Inviting?
  {
    var Inviting(u, at, pc) := s.holder;
    var next := NextInvitePc(pc, u, HasConnected(s.users), s.invites, s.whitelist, s.config, ok, weekend);
    s.(invites := if pc.StoreInvite? && ok then s.invites[u := Invite(at, at)] else s.invites,
       whitelist := if pc.ForgetListed? && ok then s.whitelist - {u} else s.whitelist,
       holder := if next.Returned? then Unlocked else Inviting(u, at, next))
  }

  /** What the next call of the admission section leads to. `free` says that nobody else holds the
      Teams account, without which a store write fails. */
  function NextConnectPc(
    pc: ConnectPc, u: string, connected: set<string>, invites: map<string, Invite>, whitelist: set<string>,
    config: Config, ok: bool, free: bool): ConnectPc
  {
    match pc
    case HasRightConnected => if !ok then Responded else if u in connected then StoreToken else HasRightInvited
    case HasRightInvited => if !ok then Responded else if u in invites then StoreToken else OpenCountConnected
    case OpenCountConnected => if ok then OpenCountInvited(|connected|) else Responded
    case OpenCountInvited(nC) => if ok then OpenAvailable(nC, |invites|) else Responded
    case OpenAvailable(nC, nI) => OpenRestricted(config.allowed - nC - nI)
    case OpenRestricted(nA) =>
      if config.restricted then OpenWhitelisted(nA) else if nA > 0 then StoreToken else Deny
    case OpenWhitelisted(nA) =>
      if !ok then Responded else if IsWhitelisted(whitelist, u) && nA > 0 then StoreToken else Deny
    case Deny => Responded
    case StoreToken => if ok && free then SetPreference else Responded
    case SetPreference => if ok then DropInvite else Responded
    case DropInvite => DropListed
    case DropListed => Responded
    case Responded => Responded
  }

  ghost function ConnectStep(s: State, ok: bool): State
    requires s.holder.Connecting?
  {
    var Connecting(u, t, tok, pc) := s.holder;
    var free := Free(s.users, u, t);
    var next := NextConnectPc(pc, u, HasConnected(s.users), s.invites, s.whitelist, s.config, ok, free);
    s.(users :=
         if pc.Deny? && ok then SetInfo(s.users, u, t, None, s.clock)
         else if pc.StoreToken? && ok then SetInfo(s.users, u, t, Some(tok), s.clock)
         else s.users,
       invites := if pc.DropInvite? && ok then s.invites - {u} else s.invites,
       whitelist := if pc.DropListed? && ok then s.whitelist - {u} else s.whitelist,
       holder := if next.Responded? then Unlocked else Connecting(u, t, tok, next))
  }

  function HasToken(m: UserMap, user: string): bool {
    user in m && m[user].token != ""
  }

  /** The users table after a call of a process outside the mutex. */
  ghost function TaskUsers(m: UserMap, clock: nat, t: Task, ok: bool): UserMap {
    if ok && t.ClearToken? then SetInfo(m, t.user, t.teams, None, clock)
    else if ok && t.RefreshStore? then SetInfo(m, t.user, t.teams, Some(t.token), clock)
    else m
  }

  /** The next call of a process outside the mutex. */
  ghost function TaskStep(s: State, id: nat, ok: bool, newToken: Token): State
    requires id in s.tasks
  {
    var done := s.(tasks := s.tasks - {id});
    match s.tasks[id]
    case InviteStart(u, at) =>
      if s.config.maxPending == 0 then done else s.(tasks := s.tasks[id := InviteLookup(u, at)])
    case InviteLookup(u, at) =>
      // fails for an unknown user, the plugin bot, any bot and any guest
      if ok then s.(tasks := s.tasks[id := InviteWaiting(u, at)]) else done
    case InviteWaiting(u, at) =>
      if s.holder.Unlocked? then done.(holder := Inviting(u, at, AskHasConnected)) else s
    case ConnectPrecheck(u, t, tok) =>
      // a failing read is logged and taken for "no token"
      if ok && exists other :: other in s.users && s.users[other].teams == t && s.users[other].token != ""
      then done
      else s.(tasks := s.tasks[id := ConnectWaiting(u, t, tok)])
    case ConnectWaiting(u, t, tok) =>
      if s.holder.Unlocked? then done.(holder := Connecting(u, t, tok, HasRightConnected)) else s
    case DisconnectFindTeams(u) =>
      if ok && u in s.users then s.(tasks := s.tasks[id := DisconnectFindToken(u, s.users[u].teams)]) else done
    case DisconnectFindToken(u, t) =>
      if ok && HasToken(s.users, u) then s.(tasks := s.tasks[id := ClearToken(u, t)]) else done
    case LossFindTeams(u) =>
      if ok && u in s.users then s.(tasks := s.tasks[id := ClearToken(u, s.users[u].teams)]) else done
    case ClearToken(u, t) =>
      done.(users := TaskUsers(s.users, s.clock, s.tasks[id], ok))
    case RefreshFindToken(u) =>
      if ok && HasToken(s.users, u) then s.(tasks := s.tasks[id := RefreshRemote(u)]) else done
    case RefreshRemote(u) =>
      if ok then s.(tasks := s.tasks[id := RefreshFindTeams(u, newToken)]) else done
    case RefreshFindTeams(u, tok) =>
      if ok && u in s.users then s.(tasks := s.tasks[id := RefreshStore(u, s.users[u].teams, tok)]) else done
    case RefreshStore(u, t, tok) =>
      done.(users := TaskUsers(s.users, s.clock, s.tasks[id], ok))
  }

  function FirstCall(request: Request, clock: nat): Task {
    match request
    case NotifyConnect(u) => InviteStart(u, clock)
    case OAuthRedirect(u, t, tok) => ConnectPrecheck(u, t, tok)
    case DisconnectCommand(u) => DisconnectFindTeams(u)
    case TokenLost(u) => LossFindTeams(u)
    case ClientForUser(u) => RefreshFindToken(u)
  }

  ghost function Apply(s: State, e: Event): State {
    match e
    case Tick(elapsed) => s.(clock := s.clock + elapsed)
    case Start(id, request) => if id in s.tasks then s else s.(tasks := s.tasks[id := FirstCall(request, s.clock)])
    case Proceed(ok, weekend) =>
      (match s.holder
       case Unlocked => s
       case Inviting(_, _, _) => InviteStep(s, ok, weekend)
       case Connecting(_, _, _, _) => ConnectStep(s, ok))
    case ProceedTask(id, ok, newToken) => if id in s.tasks then TaskStep(s, id, ok, newToken) else s
    case Upload(ids, ok) => if ok then s.(whitelist := Whitelist.Uploaded(s.whitelist, ids)) else s
    case SetConfig(config) => s.(config := config)
  }

  ghost function Run(s: State, es: seq<Event>): State
    decreases |es|
  {
    if es == [] then s else Run(Apply(s, es[0]), es[1..])
  }

  /** How many steps an invitation still makes at most ... */
  function InviteStage(pc: InvitePc): nat {
    match pc
    case Returned => 0
    case ForgetListed => 1
    case StoreInvite => 2
    case SendMessage => 3
    case CheckTime(_) => 4
    case CheckPending(_) => 5
    case CheckCapacity(_, _) => 6
    case CountInvited(_) => 7
    case CountConnected => 8
    case AskWhitelisted => 9
    case AskRestricted => 10
    case AskInvite => 11
    case AskHasConnected => 12
  }

  /** ... and an admission. */
  function ConnectStage(pc: ConnectPc): nat {
    match pc
    case Responded => 0
    case DropListed => 1
    case DropInvite => 2
    case SetPreference => 3
    case StoreToken => 4
    case Deny => 4
    case OpenWhitelisted(_) => 5
    case OpenRestricted(_) => 6
    case OpenAvailable(_, _) => 7
    case OpenCountInvited(_) => 8
    case OpenCountConnected => 9
    case HasRightInvited => 10
    case HasRightConnected => 11
  }

  lemma InviteStageFalls(
    pc: InvitePc, u: string, connected: set<string>, invites: map<string, Invite>, whitelist: set<string>,
    config: Config, ok: bool, weekend: bool)
    ensures var next := NextInvitePc(pc, u, connected, invites, whitelist, config, ok, weekend);
            next.Returned? || InviteStage(next) < InviteStage(pc)
  {
  }

  lemma ConnectStageFalls(
    pc: ConnectPc, u: string, connected: set<string>, invites: map<string, Invite>, whitelist: set<string>,
    config: Config, ok: bool, free: bool)
    ensures var next := NextConnectPc(pc, u, connected, invites, whitelist, config, ok, free);
            next.Responded? || ConnectStage(next) < ConnectStage(pc)
  {
  }

  // ----- what every step keeps -----

  /** The users that count against the limit: connected at least once, or holding an invite. */
  function Members(s: State): set<string> {
    HasConnected(s.users) + s.invites.Keys
  }

  /** What an inviting process knows to be still true of those who have connected and of the invites. */
  predicate InviteFacts(pc: InvitePc, u: string, connected: set<string>, invites: map<string, Invite>) {
    match pc
    case AskHasConnected => true
    case AskInvite => u !in connected
    case CountInvited(nC) => u !in connected && u !in invites && nC == |connected|
    case CheckCapacity(nC, nI) => u !in connected && u !in invites && nC == |connected| && nI == |invites|
    case CheckPending(nI) => u !in connected && u !in invites && nI == |invites|
    case CheckTime(since) => u !in connected && (u in invites ==> since != 0)
    case ForgetListed => u in invites
    case _ => u !in connected && u !in invites
  }

  /** What a connecting process knows to be still true. */
  predicate ConnectFacts(pc: ConnectPc, u: string, connected: set<string>, invites: map<string, Invite>) {
    match pc
    case HasRightConnected => true
    case HasRightInvited => u !in connected
    case OpenCountInvited(nC) => u !in connected && u !in invites && nC == |connected|
    case OpenAvailable(nC, nI) => u !in connected && u !in invites && nC == |connected| && nI == |invites|
    case StoreToken => true
    case SetPreference => u in connected
    case DropInvite => u in connected
    case DropListed => u in connected
    case _ => u !in connected && u !in invites
  }

  predicate HolderFacts(h: Holder, connected: set<string>, invites: map<string, Invite>) {
    match h
    case Unlocked => true
    case Inviting(u, at, pc) => at > 0 && !pc.Returned? && InviteFacts(pc, u, connected, invites)
    case Connecting(u, _, _, pc) => !pc.Responded? && ConnectFacts(pc, u, connected, invites)
  }

  /** A refresh that has seen a token belongs to a user who has connected. */
  predicate TaskFacts(t: Task, connected: set<string>) {
    && (t.RefreshRemote? || t.RefreshFindTeams? || t.RefreshStore? ==> t.user in connected)
    && (t.InviteStart? || t.InviteLookup? || t.InviteWaiting? ==> t.at > 0)
  }

  ghost predicate TasksOk(tasks: map<nat, Task>, connected: set<string>) {
    forall id :: id in tasks ==> TaskFacts(tasks[id], connected)
  }

  ghost predicate InvitesOk(invites: map<string, Invite>) {
    forall u :: u in invites ==> ReadPendingSince(invites[u]) != 0
  }

  ghost predicate UsersOk(m: UserMap, clock: nat) {
    clock > 0 && Injective(m) && AllTimesFit(m, clock)
  }

  ghost predicate Inv(s: State) {
    && UsersOk(s.users, s.clock)
    && InvitesOk(s.invites)
    && HolderFacts(s.holder, HasConnected(s.users), s.invites)
    && TasksOk(s.tasks, HasConnected(s.users))
  }

  /** Nothing is in progress; the tables may hold anything that fits together. */
  ghost predicate Initial(s: State) {
    && UsersOk(s.users, s.clock)
    && InvitesOk(s.invites)
    && s.holder.Unlocked?
    && s.tasks == map[]
  }

  /** A stored token belongs to a user who has connected. */
  lemma TokenMeansConnected(m: UserMap, clock: nat, u: string)
    requires UsersOk(m, clock) && HasToken(m, u)
    ensures u in HasConnected(m)
  {
    assert TimesFit(m[u], clock);
  }

  lemma WriteKeepsUsers(m: UserMap, clock: nat, u: string, teams: string, token: Option<Token>)
    requires UsersOk(m, clock)
    ensures UsersOk(SetInfo(m, u, teams, token, clock), clock)
    ensures HasConnected(SetInfo(m, u, teams, token, clock))
            == if Free(m, u, teams) && token.Some? then HasConnected(m) + {u} else HasConnected(m)
  {
    SetInfoKeepsBijection(m, u, teams, token, clock);
    SetInfoKeepsTimes(m, u, teams, token, clock, clock);
    SetInfoGrowsHasConnected(m, u, teams, token, clock);
  }

  lemma InviteStepKeepsInv(s: State, ok: bool, weekend: bool)
    requires Inv(s) && s.holder.Inviting?
    ensures Inv(InviteStep(s, ok, weekend))
  {
  }

  /** The only store call that changes who has connected is the one after the check. */
  lemma ConnectStepUsers(s: State, ok: bool)
    requires Inv(s) && s.holder.Connecting?
    ensures var Connecting(u, t, _, pc) := s.holder;
            var s' := ConnectStep(s, ok);
            && UsersOk(s'.users, s'.clock)
            && HasConnected(s'.users)
               == if pc.StoreToken? && ok && Free(s.users, u, t) then HasConnected(s.users) + {u}
                  else HasConnected(s.users)
  {
    var Connecting(u, t, tok, pc) := s.holder;
    if pc.Deny? { WriteKeepsUsers(s.users, s.clock, u, t, None); }
    if pc.StoreToken? { WriteKeepsUsers(s.users, s.clock, u, t, Some(tok)); }
  }

  lemma ConnectFactsStep(
    pc: ConnectPc, u: string, connected: set<string>, invites: map<string, Invite>, whitelist: set<string>,
    config: Config, ok: bool, free: bool)
    requires ConnectFacts(pc, u, connected, invites)
    ensures ConnectFacts(NextConnectPc(pc, u, connected, invites, whitelist, config, ok, free), u,
                         if pc.StoreToken? && ok && free then connected + {u} else connected,
                         if pc.DropInvite? && ok then invites - {u} else invites)
            || NextConnectPc(pc, u, connected, invites, whitelist, config, ok, free).Responded?
  {
  }

  lemma ConnectStepKeepsInv(s: State, ok: bool)
    requires Inv(s) && s.holder.Connecting?
    ensures Inv(ConnectStep(s, ok))
  {
    var Connecting(u, t, tok, pc) := s.holder;
    var s' := ConnectStep(s, ok);
    ConnectStepUsers(s, ok);
    ConnectFactsStep(pc, u, HasConnected(s.users), s.invites, s.whitelist, s.config, ok, Free(s.users, u, t));
    MoreConnectedKeepsTasks(s.tasks, HasConnected(s.users), HasConnected(s'.users));
  }

  lemma MoreConnectedKeepsTasks(tasks: map<nat, Task>, before: set<string>, after: set<string>)
    requires TasksOk(tasks, before) && before <= after
    ensures TasksOk(tasks, after)
  {
    forall id | id in tasks ensures TaskFacts(tasks[id], after) { assert TaskFacts(tasks[id], before); }
  }

  /** No process outside the mutex changes who has connected. */
  lemma TaskUsersKeep(m: UserMap, clock: nat, t: Task, ok: bool)
    requires UsersOk(m, clock) && TaskFacts(t, HasConnected(m))
    ensures UsersOk(TaskUsers(m, clock, t, ok), clock)
    ensures HasConnected(TaskUsers(m, clock, t, ok)) == HasConnected(m)
  {
    if t.ClearToken? { WriteKeepsUsers(m, clock, t.user, t.teams, None); }
    if t.RefreshStore? { WriteKeepsUsers(m, clock, t.user, t.teams, Some(t.token)); }
  }

  lemma TaskStepFrame(s: State, id: nat, ok: bool, newToken: Token)
    requires id in s.tasks
    ensures var s' := TaskStep(s, id, ok, newToken);
            && s'.users == TaskUsers(s.users, s.clock, s.tasks[id], ok)
            && s'.invites == s.invites && s'.whitelist == s.whitelist
            && s'.config == s.config && s'.clock == s.clock
  {
    hide SetInfo;
  }

  lemma TaskStepKeepsTasks(s: State, id: nat, ok: bool, newToken: Token)
    requires Inv(s) && id in s.tasks
    ensures TasksOk(TaskStep(s, id, ok, newToken).tasks, HasConnected(s.users))
    ensures TaskStep(s, id, ok, newToken).holder == s.holder
            || HolderFacts(TaskStep(s, id, ok, newToken).holder, HasConnected(s.users), s.invites)
  {
    hide UsersOk, InvitesOk, HasConnected, Free;
    assert TaskFacts(s.tasks[id], HasConnected(s.users));
    if HasToken(s.users, s.tasks[id].user) { TokenMeansConnected(s.users, s.clock, s.tasks[id].user); }
  }

  lemma TaskStepKeepsInv(s: State, id: nat, ok: bool, newToken: Token)
    requires Inv(s) && id in s.tasks
    ensures Inv(TaskStep(s, id, ok, newToken))
  {
    TaskStepFrame(s, id, ok, newToken);
    TaskUsersKeep(s.users, s.clock, s.tasks[id], ok);
    TaskStepKeepsTasks(s, id, ok, newToken);
  }

  lemma ApplyKeepsInv(s: State, e: Event)
    requires Inv(s)
    ensures Inv(Apply(s, e))
  {
    match e {
      case Proceed(ok, weekend) =>
        if s.holder.Inviting? { InviteStepKeepsInv(s, ok, weekend); }
        if s.holder.Connecting? { ConnectStepKeepsInv(s, ok); }
      case ProceedTask(id, ok, newToken) =>
        if id in s.tasks { TaskStepKeepsInv(s, id, ok, newToken); }
      case Tick(elapsed) =>
        forall u | u in s.users ensures TimesFit(s.users[u], s.clock + elapsed) {
          assert TimesFit(s.users[u], s.clock);
        }
      case _ =>
    }
  }
}
