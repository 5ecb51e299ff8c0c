/**
 The processes outside the mutex: what each of their writes does to the users table in any interleaving,
 and what a whole process comes to when nothing comes in between. Both are told on the columns of the
 row, for every state that other processes may have left.
 */
module AdmissionTasks {
  import opened Common
  import opened Users
  import opened Admission

  // ----- one step -----

  /** Only two calls outside the mutex write. A disconnect and a token loss leave the row without a token
      and stamp the time if one was held, a refresh leaves the new token; in both cases with the Teams id
      that was read before, if nobody else has taken it meanwhile. */
  lemma TaskWrites(s: State, id: nat, ok: bool, newToken: Token)
    requires id in s.tasks
    ensures var t, s' := s.tasks[id], Apply(s, ProceedTask(id, ok, newToken));
            && (if ok && t.ClearToken? && Free(s.users, t.user, t.teams) then
                  Written(s.users, s'.users, t.user, t.teams, None, s.clock)
                else if ok && t.RefreshStore? && Free(s.users, t.user, t.teams) then
                  Written(s.users, s'.users, t.user, t.teams, Some(t.token), s.clock)
                else s'.users == s.users)
            && s'.invites == s.invites && s'.whitelist == s.whitelist
            && s'.config == s.config && s'.clock == s.clock
  {
    TaskStepFrame(s, id, ok, newToken);
    var t := s.tasks[id];
    if t.ClearToken? { SetInfoWrites(s.users, t.user, t.teams, None, s.clock); }
    if t.RefreshStore? { SetInfoWrites(s.users, t.user, t.teams, Some(t.token), s.clock); }
    hide SetInfo, Written, Free, TaskStep;
  }

  /** Time, a new configuration and an upload each change one thing only: an upload replaces the whitelist
      by its ids, and fails when one of them repeats. */
  lemma SurroundingsChange(s: State, elapsed: nat, config: Config, ids: seq<string>, ok: bool)
    ensures Apply(s, Tick(elapsed)) == s.(clock := s.clock + elapsed)
    ensures Apply(s, SetConfig(config)) == s.(config := config)
    ensures var s' := Apply(s, Upload(ids, ok));
            && s' == s.(whitelist := s'.whitelist)
            && (if ok && Distinct(ids) then forall u :: u in s'.whitelist <==> u in ids
                else s'.whitelist == s.whitelist)
  {
  }

  // ----- whole processes -----

  lemma RunOne(s: State, e: Event)
    ensures Run(s, [e]) == Apply(s, e)
  {
    assert [e][1..] == [];
    hide Apply;
    assert Run(Apply(s, e), []) == Apply(s, e);
  }

  lemma RunTwo(s: State, a: Event, b: Event)
    ensures Run(s, [a, b]) == Apply(Apply(s, a), b)
  {
    assert [a, b][1..] == [b] && [b][1..] == [];
    hide Apply;
    assert Run(Apply(s, a), [b]) == Run(Apply(Apply(s, a), b), []);
  }

  lemma {:induction false} RunAppend(s: State, es: seq<Event>, fs: seq<Event>)
    ensures Run(s, es + fs) == Run(Run(s, es), fs)
    decreases |es|
  {
    hide Apply;
    if es == [] {
      assert es + fs == fs;
    } else {
      assert (es + fs)[1..] == es[1..] + fs;
      RunAppend(Apply(s, es[0]), es[1..], fs);
    }
  }

  lemma RunThree(s: State, a: Event, b: Event, c: Event)
    ensures Run(s, [a, b, c]) == Apply(Apply(Apply(s, a), b), c)
  {
    hide Apply;
    RunTwo(s, a, b);
    RunAppend(s, [a, b], [c]);
    assert [a, b] + [c] == [a, b, c] && [c][1..] == [];
  }

  lemma RunFour(s: State, a: Event, b: Event, c: Event, d: Event)
    ensures Run(s, [a, b, c, d]) == Apply(Apply(Apply(Apply(s, a), b), c), d)
  {
    hide Apply;
    RunTwo(s, a, b);
    RunAppend(s, [a, b], [c, d]);
    RunTwo(Apply(Apply(s, a), b), c, d);
    assert [a, b] + [c, d] == [a, b, c, d];
  }

  /** The calls of a process: its answers in order. No answer but the refreshed token carries data. */
  function Goes(id: nat, ok: bool): Event {
    ProceedTask(id, ok, "token")
  }

  function Disconnecting(id: nat, user: string, findTeams: bool, findToken: bool, setUserInfo: bool): seq<Event> {
    [Start(id, DisconnectCommand(user)), Goes(id, findTeams), Goes(id, findToken), Goes(id, setUserInfo)]
  }

  function LosingToken(id: nat, user: string, findTeams: bool, setUserInfo: bool): seq<Event> {
    [Start(id, TokenLost(user)), Goes(id, findTeams), Goes(id, setUserInfo)]
  }

  /** A refresh; without a new token the call for it has failed, or was not needed. */
  function Refreshing(id: nat, user: string, findToken: bool, newToken: Option<Token>, findTeams: bool,
      setUserInfo: bool): seq<Event>
  {
    [Start(id, ClientForUser(user)), Goes(id, findToken),
     ProceedTask(id, newToken.Some?, if newToken.Some? then newToken.value else "token")]
    + [Goes(id, findTeams), Goes(id, setUserInfo)]
  }

  function Arriving(id: nat, user: string, found: bool): seq<Event> {
    [Start(id, NotifyConnect(user)), Goes(id, true), Goes(id, found), Goes(id, true)]
  }

  function Redirected(id: nat, user: string, teams: string, token: Token, findHolder: bool): seq<Event> {
    [Start(id, OAuthRedirect(user, teams, token)), Goes(id, findHolder), Goes(id, true)]
  }

  /** Somebody holds a token for this Teams account. */
  predicate TokenHeldFor(m: UserMap, teams: string) {
    exists u :: u in m && m[u].teams == teams && m[u].token != ""
  }

  function WithTask(s: State, id: nat, t: Task): State {
    s.(tasks := s.tasks[id := t])
  }

  lemma TaskGone(s: State, id: nat, t: Task)
    requires id !in s.tasks
    ensures WithTask(s, id, t).(tasks := WithTask(s, id, t).tasks - {id}) == s
  {
    assert s.tasks[id := t] - {id} == s.tasks;
  }

  /** The write of a disconnect or a token loss that nothing has come before. */
  lemma Clears(s: State, id: nat, user: string, ok: bool)
    requires id !in s.tasks && Injective(s.users) && user in s.users
    ensures var s' := Apply(WithTask(s, id, ClearToken(user, s.users[user].teams)), Goes(id, ok));
            s' == s.(users := if !ok then s.users
                              else if s.users[user].token != "" then
                                s.users[user := s.users[user].(token := "", lastDisconnectAt := s.clock)]
                              else s.users)
  {
    TaskGone(s, id, ClearToken(user, s.users[user].teams));
    assert Free(s.users, user, s.users[user].teams);
  }

  lemma DisconnectReads(s: State, id: nat, user: string, findTeams: bool, findToken: bool)
    requires id !in s.tasks
    ensures var s1 := WithTask(s, id, DisconnectFindTeams(user));
            && Apply(s, Start(id, DisconnectCommand(user))) == s1
            && Apply(s1, Goes(id, findTeams))
               == (if findTeams && user in s.users
                   then WithTask(s, id, DisconnectFindToken(user, s.users[user].teams)) else s)
            && (user in s.users ==>
                  Apply(WithTask(s, id, DisconnectFindToken(user, s.users[user].teams)), Goes(id, findToken))
                  == if findToken && s.users[user].token != ""
                     then WithTask(s, id, ClearToken(user, s.users[user].teams)) else s)
            && forall ok :: Apply(s, Goes(id, ok)) == s
  {
    TaskGone(s, id, DisconnectFindTeams(user));
    if user in s.users { TaskGone(s, id, DisconnectFindToken(user, s.users[user].teams)); }
  }

  /** DISCONNECT. Run without interruption, whatever else is in progress, the disconnect command clears a
      held token and stamps the time, when all its calls succeed; otherwise it changes nothing. */
  lemma DisconnectClears(s: State, id: nat, user: string, findTeams: bool, findToken: bool, setUserInfo: bool)
    requires id !in s.tasks && Injective(s.users)
    ensures Run(s, Disconnecting(id, user, findTeams, findToken, setUserInfo))
            == if findTeams && findToken && setUserInfo && user in s.users && s.users[user].token != ""
               then s.(users := s.users[user := s.users[user].(token := "", lastDisconnectAt := s.clock)])
               else s
  {
    RunFour(s, Start(id, DisconnectCommand(user)), Goes(id, findTeams), Goes(id, findToken), Goes(id, setUserInfo));
    DisconnectReads(s, id, user, findTeams, findToken);
    if user in s.users { Clears(s, id, user, setUserInfo); }
    hide Apply, Run;
  }

  lemma LossReads(s: State, id: nat, user: string, findTeams: bool)
    requires id !in s.tasks
    ensures var s1 := WithTask(s, id, LossFindTeams(user));
            && Apply(s, Start(id, TokenLost(user))) == s1
            && Apply(s1, Goes(id, findTeams))
               == (if findTeams && user in s.users then WithTask(s, id, ClearToken(user, s.users[user].teams)) else s)
            && forall ok :: Apply(s, Goes(id, ok)) == s
  {
    TaskGone(s, id, LossFindTeams(user));
  }

  /** TOKEN LOSS. The handler does not look whether there is a token: without one it writes, but changes
      nothing. */
  lemma LossClears(s: State, id: nat, user: string, findTeams: bool, setUserInfo: bool)
    requires id !in s.tasks && Injective(s.users)
    ensures Run(s, LosingToken(id, user, findTeams, setUserInfo))
            == if findTeams && setUserInfo && user in s.users && s.users[user].token != ""
               then s.(users := s.users[user := s.users[user].(token := "", lastDisconnectAt := s.clock)])
               else s
  {
    RunThree(s, Start(id, TokenLost(user)), Goes(id, findTeams), Goes(id, setUserInfo));
    LossReads(s, id, user, findTeams);
    if user in s.users { Clears(s, id, user, setUserInfo); }
    hide Apply, Run;
  }

  lemma RefreshReads(s: State, id: nat, user: string, findToken: bool, newToken: Option<Token>)
    requires id !in s.tasks
    ensures var s1, s2 := WithTask(s, id, RefreshFindToken(user)), WithTask(s, id, RefreshRemote(user));
            var token := if newToken.Some? then newToken.value else "token";
            && Apply(s, Start(id, ClientForUser(user))) == s1
            && Apply(s1, Goes(id, findToken))
               == (if findToken && user in s.users && s.users[user].token != "" then s2 else s)
            && Apply(s2, ProceedTask(id, newToken.Some?, token))
               == (if newToken.Some? then WithTask(s, id, RefreshFindTeams(user, newToken.value)) else s)
            && forall ok, tok :: Apply(s, ProceedTask(id, ok, tok)) == s
  {
    TaskGone(s, id, RefreshFindToken(user));
    TaskGone(s, id, RefreshRemote(user));
  }

  /** The second half of a refresh: the Teams id is read, then the new token written. */
  lemma RefreshStores(s: State, id: nat, user: string, token: Token, findTeams: bool, setUserInfo: bool)
    requires id !in s.tasks && Injective(s.users) && user in s.users
    ensures Apply(Apply(WithTask(s, id, RefreshFindTeams(user, token)), Goes(id, findTeams)), Goes(id, setUserInfo))
            == if findTeams && setUserInfo
               then s.(users := s.users[user := s.users[user].(token := token, lastConnectAt := s.clock)]) else s
  {
    TaskGone(s, id, RefreshFindTeams(user, token));
    TaskGone(s, id, RefreshStore(user, s.users[user].teams, token));
    assert Free(s.users, user, s.users[user].teams);
  }

  /** REFRESH. A refresh that succeeds in every call replaces the token of a user who holds one, and counts
      as a connect; otherwise nothing changes. */
  lemma RefreshReplaces(s: State, id: nat, user: string, findToken: bool, newToken: Option<Token>, findTeams: bool,
      setUserInfo: bool)
    requires id !in s.tasks && Injective(s.users)
    ensures Run(s, Refreshing(id, user, findToken, newToken, findTeams, setUserInfo))
            == if findToken && newToken.Some? && findTeams && setUserInfo
                  && user in s.users && s.users[user].token != ""
               then s.(users := s.users[user := s.users[user].(token := newToken.value, lastConnectAt := s.clock)])
               else s
  {
    var token := if newToken.Some? then newToken.value else "token";
    var first := [Start(id, ClientForUser(user)), Goes(id, findToken), ProceedTask(id, newToken.Some?, token)];
    RunAppend(s, first, [Goes(id, findTeams), Goes(id, setUserInfo)]);
    RunThree(s, first[0], first[1], first[2]);
    RunTwo(Run(s, first), Goes(id, findTeams), Goes(id, setUserInfo));
    RefreshReads(s, id, user, findToken, newToken);
    if user in s.users { RefreshStores(s, id, user, token, findTeams, setUserInfo); }
    hide Apply, Run;
  }

  lemma ArrivingReads(s: State, id: nat, user: string, found: bool)
    requires id !in s.tasks
    ensures var s1 := WithTask(s, id, InviteStart(user, s.clock));
            var s2 := WithTask(s, id, InviteLookup(user, s.clock));
            var s3 := WithTask(s, id, InviteWaiting(user, s.clock));
            && Apply(s, Start(id, NotifyConnect(user))) == s1
            && Apply(s1, Goes(id, true)) == (if s.config.maxPending == 0 then s else s2)
            && Apply(s2, Goes(id, found)) == (if found then s3 else s)
            && Apply(s3, Goes(id, true))
               == (if s.holder.Unlocked? then s.(holder := Inviting(user, s.clock, AskHasConnected)) else s3)
            && forall ok :: Apply(s, Goes(id, ok)) == s
  {
    TaskGone(s, id, InviteStart(user, s.clock));
    TaskGone(s, id, InviteLookup(user, s.clock));
    TaskGone(s, id, InviteWaiting(user, s.clock));
  }

  /** An invitation takes the mutex when it is free, unless there is no pending limit or the user cannot be
      invited at all; while the mutex is taken it waits. */
  lemma InvitationArrives(s: State, id: nat, user: string, found: bool)
    requires id !in s.tasks
    ensures Run(s, Arriving(id, user, found))
            == if s.config.maxPending == 0 || !found then s
               else if s.holder.Unlocked? then s.(holder := Inviting(user, s.clock, AskHasConnected))
               else WithTask(s, id, InviteWaiting(user, s.clock))
  {
    RunFour(s, Start(id, NotifyConnect(user)), Goes(id, true), Goes(id, found), Goes(id, true));
    ArrivingReads(s, id, user, found);
    hide Apply, Run;
  }

  lemma RedirectReads(s: State, id: nat, user: string, teams: string, token: Token, findHolder: bool)
    requires id !in s.tasks
    ensures var s1, s2 := WithTask(s, id, ConnectPrecheck(user, teams, token)),
                          WithTask(s, id, ConnectWaiting(user, teams, token));
            && Apply(s, Start(id, OAuthRedirect(user, teams, token))) == s1
            && Apply(s1, Goes(id, findHolder)) == (if findHolder && TokenHeldFor(s.users, teams) then s else s2)
            && Apply(s2, Goes(id, true))
               == (if s.holder.Unlocked? then s.(holder := Connecting(user, teams, token, HasRightConnected)) else s2)
            && forall ok :: Apply(s, Goes(id, ok)) == s
  {
    TaskGone(s, id, ConnectPrecheck(user, teams, token));
    TaskGone(s, id, ConnectWaiting(user, teams, token));
  }

  /** A redirect takes the mutex when it is free, unless somebody holds a token for its Teams account and
      the look-up says so; a failing look-up lets it pass. */
  lemma RedirectArrives(s: State, id: nat, user: string, teams: string, token: Token, findHolder: bool)
    requires id !in s.tasks
    ensures Run(s, Redirected(id, user, teams, token, findHolder))
            == if findHolder && TokenHeldFor(s.users, teams) then s
               else if s.holder.Unlocked? then s.(holder := Connecting(user, teams, token, HasRightConnected))
               else WithTask(s, id, ConnectWaiting(user, teams, token))
  {
    RunThree(s, Start(id, OAuthRedirect(user, teams, token)), Goes(id, findHolder), Goes(id, true));
    RedirectReads(s, id, user, teams, token, findHolder);
    hide Apply, Run;
  }

  // ----- who holds a token, over every run -----

  /** The call stores a token for this user: at the end of an admission, or of a refresh. */
  ghost predicate GivesToken(s: State, e: Event, u: string) {
    || (&& e.Proceed? && e.ok && s.holder.Connecting? && s.holder.cpc.StoreToken?
        && s.holder.user == u && Free(s.users, u, s.holder.teams))
    || (&& e.ProceedTask? && e.ok && e.id in s.tasks && s.tasks[e.id].RefreshStore?
        && s.tasks[e.id].user == u && Free(s.users, u, s.tasks[e.id].teams))
  }

  /** The call leaves this user without a token: a denial, a disconnect, or a token loss. */
  ghost predicate TakesToken(s: State, e: Event, u: string) {
    || (&& e.Proceed? && e.ok && s.holder.Connecting? && s.holder.cpc.Deny?
        && s.holder.user == u && Free(s.users, u, s.holder.teams))
    || (&& e.ProceedTask? && e.ok && e.id in s.tasks && s.tasks[e.id].ClearToken?
        && s.tasks[e.id].user == u && Free(s.users, u, s.tasks[e.id].teams))
  }

  lemma HolderStepToken(s: State, ok: bool, weekend: bool, u: string)
    ensures var e := Proceed(ok, weekend);
            HasToken(Apply(s, e).users, u) <==> GivesToken(s, e, u) || (HasToken(s.users, u) && !TakesToken(s, e, u))
  {
    if s.holder.Connecting? {
      var h := s.holder;
      SetInfoWrites(s.users, h.user, h.teams, None, s.clock);
      SetInfoWrites(s.users, h.user, h.teams, Some(h.token), s.clock);
      hide SetInfo, Free, NextConnectPc, HasConnected;
    }
  }

  lemma TaskStepToken(s: State, id: nat, ok: bool, newToken: Token, u: string)
    ensures var e := ProceedTask(id, ok, newToken);
            HasToken(Apply(s, e).users, u) <==> GivesToken(s, e, u) || (HasToken(s.users, u) && !TakesToken(s, e, u))
  {
    if id in s.tasks { TaskWrites(s, id, ok, newToken); }
    hide TaskStep, Free;
  }

  /** Which step changes whether a user holds a token, and how. */
  lemma StepToken(s: State, e: Event, u: string)
    ensures HasToken(Apply(s, e).users, u) <==> GivesToken(s, e, u) || (HasToken(s.users, u) && !TakesToken(s, e, u))
  {
    if e.Proceed? { HolderStepToken(s, e.ok, e.weekend, u); }
    if e.ProceedTask? { TaskStepToken(s, e.id, e.ok, e.newToken, u); }
    hide HasToken, GivesToken, TakesToken;
  }

  ghost predicate NothingGives(s: State, es: seq<Event>, u: string)
    decreases |es|
  {
    es == [] || (!GivesToken(s, es[0], u) && NothingGives(Apply(s, es[0]), es[1..], u))
  }

  /** DISCONNECTED STAYS DISCONNECTED until an admission or a refresh stores a token for the user. */
  lemma {:induction false} TokenStaysAway(s: State, es: seq<Event>, u: string)
    requires !HasToken(s.users, u) && NothingGives(s, es, u)
    ensures !HasToken(Run(s, es).users, u)
    decreases |es|
  {
    if es != [] {
      StepToken(s, es[0], u);
      hide Apply, GivesToken, TakesToken, HasToken;
      TokenStaysAway(Apply(s, es[0]), es[1..], u);
    }
  }

  /** A refresh that has read all it needs, and is about to store. */
  lemma RefreshReady(s: State, id: nat, user: string, token: Token)
    requires id !in s.tasks && HasToken(s.users, user)
    ensures Run(s, [Start(id, ClientForUser(user)), Goes(id, true), ProceedTask(id, true, token), Goes(id, true)])
            == WithTask(s, id, RefreshStore(user, s.users[user].teams, token))
  {
    RunFour(s, Start(id, ClientForUser(user)), Goes(id, true), ProceedTask(id, true, token), Goes(id, true));
    RefreshReads(s, id, user, true, Some(token));
    var last := WithTask(s, id, RefreshFindTeams(user, token));
    assert Apply(last, Goes(id, true)) == WithTask(s, id, RefreshStore(user, s.users[user].teams, token));
    hide Apply, Run;
  }

  /** THE RACE. A refresh can be that store: one that has read all it needs before a disconnect writes its
      token afterwards, although the user has been told of the disconnect. */
  lemma RefreshUndoesDisconnect(s: State, refresh: nat, id: nat, user: string, token: Token)
    requires Injective(s.users) && HasToken(s.users, user)
    requires id !in s.tasks && refresh !in s.tasks && refresh != id
    ensures var reading := [Start(refresh, ClientForUser(user)), Goes(refresh, true),
                            ProceedTask(refresh, true, token), Goes(refresh, true)];
            var disconnected := Run(Run(s, reading), Disconnecting(id, user, true, true, true));
            && !HasToken(disconnected.users, user)
            && HasToken(Apply(disconnected, Goes(refresh, true)).users, user)
  {
    RefreshReady(s, refresh, user, token);
    var ready := WithTask(s, refresh, RefreshStore(user, s.users[user].teams, token));
    DisconnectClears(ready, id, user, true, true, true);
    var disconnected := Run(ready, Disconnecting(id, user, true, true, true));
    hide Run;
    StepToken(disconnected, Goes(refresh, true), user);
    assert Free(disconnected.users, user, s.users[user].teams);
  }
}
