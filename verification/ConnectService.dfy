/**
 The two procedures that run under the cluster mutex, as the program writes them: methods of one
 object that read and write the tables call by call. Each method ends where the step machine of
 `Admission` ends from the same state with the same answers to its calls, so everything that holds of
 all runs holds of it; in addition each method says outright what it has done to the tables.
 */
module ConnectService {
  import opened Common
  import opened Users
  import opened Admission
  import opened AdmissionTasks

  /** Which calls of MaybeSendInviteMessage succeed, and what day it is for the user. */
  datatype InviteAnswers = InviteAnswers(
    hasConnected: bool,
    getInvite: bool,
    isWhitelisted: bool,
    countConnected: bool,
    countInvited: bool,
    send: bool,
    store: bool,
    forget: bool,
    weekend: bool)

  /** What is looked up of a user before an invitation. */
  datatype Account = Account(isBot: bool, isGuest: bool)

  /** Which calls of the admission section succeed. */
  datatype ConnectAnswers = ConnectAnswers(
    hasConnected: bool,
    getInvite: bool,
    countConnected: bool,
    countInvited: bool,
    isWhitelisted: bool,
    setUserInfo: bool,
    setPreference: bool,
    deleteInvite: bool,
    deleteListed: bool)

  /** Whether the call that an invitation makes at `pc` succeeds. */
  function InviteAnswer(pc: InvitePc, a: InviteAnswers): bool {
    match pc
    case AskHasConnected => a.hasConnected
    case AskInvite => a.getInvite
    case AskWhitelisted => a.isWhitelisted
    case CountConnected => a.countConnected
    case CountInvited(_) => a.countInvited
    case SendMessage => a.send
    case StoreInvite => a.store
    case ForgetListed => a.forget
    case _ => true
  }

  /** Whether the call that an admission makes at `pc` succeeds. */
  function ConnectAnswer(pc: ConnectPc, a: ConnectAnswers): bool {
    match pc
    case HasRightConnected => a.hasConnected
    case HasRightInvited => a.getInvite
    case OpenCountConnected => a.countConnected
    case OpenCountInvited(_) => a.countInvited
    case OpenWhitelisted(_) => a.isWhitelisted
    case Deny => a.setUserInfo
    case StoreToken => a.setUserInfo
    case SetPreference => a.setPreference
    case DropInvite => a.deleteInvite
    case DropListed => a.deleteListed
    case _ => true
  }

  /** How many steps the holder of the mutex still makes at most. */
  function HolderStage(h: Holder): nat {
    match h
    case Unlocked => 0
    case Inviting(_, _, pc) => 1 + InviteStage(pc)
    case Connecting(_, _, _, pc) => 1 + ConnectStage(pc)
  }

  /** The next call of the holder, with its answer. */
  ghost function CallOf(h: Holder, a: InviteAnswers, b: ConnectAnswers): Event
    requires !h.Unlocked?
  {
    if h.Inviting? then Proceed(InviteAnswer(h.ipc, a), a.weekend) else Proceed(ConnectAnswer(h.cpc, b), false)
  }

  lemma StageFalls(s: State, a: InviteAnswers, b: ConnectAnswers)
    requires !s.holder.Unlocked?
    ensures HolderStage(Apply(s, CallOf(s.holder, a, b)).holder) < HolderStage(s.holder)
  {
    hide NextInvitePc, NextConnectPc, InviteStage, ConnectStage, HasConnected, Free;
    var h, connected := s.holder, HasConnected(s.users);
    if h.Inviting? {
      InviteStageFalls(h.ipc, h.user, connected, s.invites, s.whitelist, s.config, InviteAnswer(h.ipc, a), a.weekend);
    } else {
      ConnectStageFalls(h.cpc, h.user, connected, s.invites, s.whitelist, s.config, ConnectAnswer(h.cpc, b),
                        Free(s.users, h.user, h.teams));
    }
  }

  /** The state in which the mutex is released, when the holder's calls get these answers. */
  ghost function Release(s: State, a: InviteAnswers, b: ConnectAnswers): State
    decreases HolderStage(s.holder)
  {
    if s.holder.Unlocked? then s
    else StageFalls(s, a, b); Release(Apply(s, CallOf(s.holder, a, b)), a, b)
  }

  ghost function Calls(s: State, a: InviteAnswers, b: ConnectAnswers): seq<Event>
    decreases HolderStage(s.holder)
  {
    if s.holder.Unlocked? then []
    else StageFalls(s, a, b); [CallOf(s.holder, a, b)] + Calls(Apply(s, CallOf(s.holder, a, b)), a, b)
  }

  /** A whole stay inside the mutex is a run of the step machine that makes the calls one by one. */
  lemma {:induction false} ReleaseIsRun(s: State, a: InviteAnswers, b: ConnectAnswers)
    ensures Run(s, Calls(s, a, b)) == Release(s, a, b) && Release(s, a, b).holder.Unlocked?
    ensures |Calls(s, a, b)| <= HolderStage(s.holder)
    ensures forall i :: 0 <= i < |Calls(s, a, b)| ==> Calls(s, a, b)[i].Proceed?
    decreases HolderStage(s.holder)
  {
    if !s.holder.Unlocked? {
      var e := CallOf(s.holder, a, b);
      StageFalls(s, a, b);
      ReleaseIsRun(Apply(s, e), a, b);
      assert Calls(s, a, b)[1..] == Calls(Apply(s, e), a, b);
    }
  }

  const NO_CONNECT := ConnectAnswers(false, false, false, false, false, false, false, false, false)
  const NO_INVITE := InviteAnswers(false, false, false, false, false, false, false, false, false)

  ghost function InviteEnd(s: State, a: InviteAnswers): State {
    Release(s, a, NO_CONNECT)
  }

  ghost function ConnectEnd(s: State, b: ConnectAnswers): State {
    Release(s, NO_INVITE, b)
  }

  /** An invitation goes on from where its next call leads. */
  lemma InviteGoesOn(s: State, a: InviteAnswers)
    requires s.holder.Inviting?
    ensures InviteEnd(s, a) == InviteEnd(InviteStep(s, InviteAnswer(s.holder.ipc, a), a.weekend), a)
  {
  }

  /** An admission goes on from where its next call leads. */
  lemma ConnectGoesOn(s: State, b: ConnectAnswers)
    requires s.holder.Connecting?
    ensures ConnectEnd(s, b) == ConnectEnd(ConnectStep(s, ConnectAnswer(s.holder.cpc, b)), b)
  {
  }

  lemma ReleasedStays(s: State, a: InviteAnswers, b: ConnectAnswers)
    requires s.holder.Unlocked?
    ensures InviteEnd(s, a) == s && ConnectEnd(s, b) == s
  {
  }

  class Plugin {
    var users: UserMap
    var invites: map<string, Invite>
    var whitelist: set<string>
    var config: Config
    var clock: nat
    var notifications: map<string, bool>   // the notification preference of each user
    const botUserId: string

    constructor (users: UserMap, invites: map<string, Invite>, whitelist: set<string>, config: Config, clock: nat,
        botUserId: string)
      ensures this.users == users && this.invites == invites && this.whitelist == whitelist
      ensures this.config == config && this.clock == clock && this.notifications == map[]
    {
      this.users, this.invites, this.whitelist, this.config, this.clock := users, invites, whitelist, config, clock;
      this.notifications, this.botUserId := map[], botUserId;
    }

    ghost function Snapshot(holder: Holder): State
      reads `users, `invites, `whitelist, `config, `clock
    {
      State(users, invites, whitelist, config, clock, holder, map[])
    }

    /** Where an invitation stands at `pc`, and where it ends from there. */
    ghost function InviteFrom(user: string, at: nat, pc: InvitePc, a: InviteAnswers): State
      reads `users, `invites, `whitelist, `config, `clock
    {
      if pc.Returned? then Snapshot(Unlocked) else InviteEnd(Snapshot(Inviting(user, at, pc)), a)
    }

    ghost function ConnectFrom(user: string, teams: string, token: Token, pc: ConnectPc, a: ConnectAnswers): State
      reads `users, `invites, `whitelist, `config, `clock
    {
      if pc.Responded? then Snapshot(Unlocked) else ConnectEnd(Snapshot(Connecting(user, teams, token, pc)), a)
    }

    /** A call that changes no table only moves on. */
    lemma InviteReads(user: string, at: nat, pc: InvitePc, a: InviteAnswers)
      requires !pc.Returned? && !pc.StoreInvite? && !pc.ForgetListed?
      ensures InviteFrom(user, at, pc, a)
              == InviteFrom(user, at, NextInvitePc(pc, user, HasConnected(users), invites, whitelist, config,
                                                   InviteAnswer(pc, a), a.weekend), a)
    {
      var s := Snapshot(Inviting(user, at, pc));
      InviteGoesOn(s, a);
      ReleasedStays(Snapshot(Unlocked), a, NO_CONNECT);
      hide InviteEnd;
    }

    lemma ConnectReads(user: string, teams: string, token: Token, pc: ConnectPc, a: ConnectAnswers)
      requires !pc.Responded? && !pc.Deny? && !pc.StoreToken? && !pc.DropInvite? && !pc.DropListed?
      ensures ConnectFrom(user, teams, token, pc, a)
              == ConnectFrom(user, teams, token,
                   NextConnectPc(pc, user, HasConnected(users), invites, whitelist, config, ConnectAnswer(pc, a),
                                 Free(users, user, teams)), a)
    {
      var s := Snapshot(Connecting(user, teams, token, pc));
      ConnectGoesOn(s, a);
      ReleasedStays(Snapshot(Unlocked), NO_INVITE, a);
      hide ConnectEnd;
    }

    /** In restricted mode only whitelisted users are invited; None when the lookup failed. */
    method PassesWhitelist(user: string, at: nat, a: InviteAnswers) returns (answer: Option<bool>)
      ensures InviteFrom(user, at, AskRestricted, a)
              == InviteFrom(user, at, if answer == Some(true) then CountConnected else Returned, a)
      ensures answer.None? <==> config.restricted && !a.isWhitelisted
      ensures answer.Some? ==> (answer.value <==> !config.restricted || (user in whitelist && user != ""))
    {
      hide InviteFrom;
      InviteReads(user, at, AskRestricted, a);
      if !config.restricted { return Some(true); }
      InviteReads(user, at, AskWhitelisted, a);
      if !a.isWhitelisted { return None; }
      return Some(IsWhitelisted(whitelist, user));
    }

    /** The two limits, compared after both counts have been read. */
    method WithinLimits(user: string, at: nat, nConnected: int, nInvited: int, a: InviteAnswers)
      returns (answer: bool)
      ensures InviteFrom(user, at, CheckCapacity(nConnected, nInvited), a)
              == InviteFrom(user, at, if answer then CheckTime(0) else Returned, a)
      ensures answer <==> nConnected + nInvited < config.allowed && nInvited < config.maxPending
    {
      hide InviteFrom;
      InviteReads(user, at, CheckCapacity(nConnected, nInvited), a);
      if nConnected + nInvited >= config.allowed { return false; }
      InviteReads(user, at, CheckPending(nInvited), a);
      return nInvited < config.maxPending;
    }

    /** canInviteUser: None when a call failed. */
    method CanInviteUser(user: string, at: nat, a: InviteAnswers) returns (answer: Option<bool>)
      ensures InviteFrom(user, at, AskRestricted, a)
              == InviteFrom(user, at, if answer == Some(true) then CheckTime(0) else Returned, a)
      ensures answer == Some(true) <==>
                && (config.restricted ==> a.isWhitelisted && user in whitelist && user != "")
                && a.countConnected && a.countInvited
                && |HasConnected(users)| + |invites| < config.allowed
                && |invites| < config.maxPending
    {
      hide InviteFrom, HasConnected;
      answer := PassesWhitelist(user, at, a);
      if answer != Some(true) { return; }
      InviteReads(user, at, CountConnected, a);
      if !a.countConnected { return None; }
      var nConnected := |HasConnected(users)|;
      InviteReads(user, at, CountInvited(nConnected), a);
      if !a.countInvited { return None; }
      var within := WithinLimits(user, at, nConnected, |invites|, a);
      return Some(within);
    }

    /** The record of an invitation, as the time since when it has been pending: the time of the last message,
        if there is one, takes the place of the time it was recorded with. */
    method GetInvitedUser(user: string) returns (pendingSince: Option<nat>)
      ensures pendingSince.Some? <==> user in invites
      ensures pendingSince.Some? ==>
                && pendingSince.value == ReadPendingSince(invites[user])
                && pendingSince.value == if invites[user].lastSentAt != 0 then invites[user].lastSentAt
                                         else invites[user].pendingSince
    {
      if user !in invites { return None; }
      var since := 0;
      if invites[user].pendingSince != 0 { since := invites[user].pendingSince; }
      if invites[user].lastSentAt != 0 { since := invites[user].lastSentAt; }
      return Some(since);
    }

    /** Sends and records an invitation, from the decision on. */
    method SendAndRecord(user: string, at: nat, since: nat, a: InviteAnswers) returns (sent: bool)
      modifies this`invites, this`whitelist
      ensures Snapshot(Unlocked) == old(InviteFrom(user, at, CheckTime(since), a))
      ensures invites == if since == 0 && !a.weekend && a.send && a.store then old(invites)[user := Invite(at, at)]
                         else old(invites)
      ensures sent <==> since == 0 && !a.weekend && a.send && a.store && a.forget
      ensures whitelist == if sent then old(whitelist) - {user} else old(whitelist)
    {
      InviteReads(user, at, CheckTime(since), a);
      if !ShouldSendInviteMessage(since, a.weekend) { return false; }
      InviteReads(user, at, SendMessage, a);
      if !a.send { return false; }
      sent := StoreInvitedUser(user, at, a);
    }

    /** Two writes: the record, then the whitelist entry; the first stays when the second fails. */
    method StoreInvitedUser(user: string, at: nat, a: InviteAnswers) returns (ok: bool)
      modifies this`invites, this`whitelist
      ensures Snapshot(Unlocked) == old(InviteFrom(user, at, StoreInvite, a))
      ensures ok <==> a.store && a.forget
      ensures invites == if a.store then old(invites)[user := Invite(at, at)] else old(invites)
      ensures whitelist == if ok then old(whitelist) - {user} else old(whitelist)
    {
      ghost var storing := Snapshot(Inviting(user, at, StoreInvite));
      InviteGoesOn(storing, a);
      ReleasedStays(Snapshot(Unlocked), a, NO_CONNECT);
      hide InviteEnd, HasConnected;
      if !a.store { return false; }
      invites := invites[user := Invite(at, at)];
      ghost var forgetting := Snapshot(Inviting(user, at, ForgetListed));
      assert InviteEnd(storing, a) == InviteEnd(forgetting, a);
      InviteGoesOn(forgetting, a);
      if a.forget { whitelist := whitelist - {user}; }
      ReleasedStays(Snapshot(Unlocked), a, NO_CONNECT);
      return a.forget;
    }

    /** An invitation is due when its calls get these answers. Inviting anew needs room and, in restricted
        mode, a place on the whitelist; a record is invited again only if it carries no time at all. */
    predicate Due(user: string, a: InviteAnswers)
      reads `users, `invites, `whitelist, `config
    {
      && a.hasConnected && user !in HasConnected(users) && a.getInvite && !a.weekend
      && if user in invites then invites[user].lastSentAt == 0 && invites[user].pendingSince == 0
         else
           && (config.restricted ==> a.isWhitelisted && user in whitelist && user != "")
           && a.countConnected && a.countInvited
           && |HasConnected(users)| + |invites| < config.allowed && |invites| < config.maxPending
    }

    /** The part of MaybeSendInviteMessage inside the mutex. */
    method InviteLocked(user: string, at: nat, a: InviteAnswers) returns (sent: bool)
      modifies this`invites, this`whitelist
      ensures Snapshot(Unlocked) == old(InviteFrom(user, at, AskHasConnected, a))
      ensures invites == if old(Due(user, a)) && a.send && a.store then old(invites)[user := Invite(at, at)]
                         else old(invites)
      ensures sent <==> old(Due(user, a)) && a.send && a.store && a.forget
      ensures whitelist == if sent then old(whitelist) - {user} else old(whitelist)
    {
      InviteReads(user, at, AskHasConnected, a);
      if !a.hasConnected || user in HasConnected(users) { return false; }
      InviteReads(user, at, AskInvite, a);
      if !a.getInvite { return false; }
      var pendingSince := 0;
      var invitedUser := GetInvitedUser(user);
      if invitedUser.Some? {
        pendingSince := invitedUser.value;
      } else {
        var canInvite := CanInviteUser(user, at, a);
        if canInvite != Some(true) { return false; }
      }
      hide HasConnected, InviteFrom;
      sent := SendAndRecord(user, at, pendingSince, a);
    }

    /** Who can be invited at all: never the plugin's bot, an unknown user, another bot or a guest.
        `account` is the answer of the user lookup. */
    predicate Addressable(user: string, account: Option<Account>) {
      user != botUserId && account.Some? && !account.value.isBot && !account.value.isGuest
    }

    /** MaybeSendInviteMessage: the checks before the mutex, then the rest inside it. Called with the current
        time it is a run of the protocol from its first step to its last. */
    method MaybeSendInviteMessage(user: string, at: nat, account: Option<Account>, a: InviteAnswers)
      returns (sent: bool)
      modifies this`invites, this`whitelist
      ensures var due := config.maxPending != 0 && Addressable(user, account) && old(Due(user, a));
              && invites == (if due && a.send && a.store then old(invites)[user := Invite(at, at)] else old(invites))
              && (sent <==> due && a.send && a.store && a.forget)
              && whitelist == if sent then old(whitelist) - {user} else old(whitelist)
      ensures at == clock ==>
                Snapshot(Unlocked) == old(InviteEnd(Run(Snapshot(Unlocked),
                                                        Arriving(0, user, Addressable(user, account))), a))
    {
      InvitationArrives(Snapshot(Unlocked), 0, user, Addressable(user, account));
      ReleasedStays(Snapshot(Unlocked), a, NO_CONNECT);
      hide Run, Due, InviteEnd;
      if config.maxPending == 0 { return false; }
      if user == botUserId { return false; }
      if account.None? { return false; }
      if account.value.isBot { return false; }
      if account.value.isGuest { return false; }
      sent := InviteLocked(user, at, a);
    }

    /** UserHasRightToConnect: invited, or connected before. */
    method UserHasRightToConnect(user: string, teams: string, token: Token, a: ConnectAnswers)
      returns (answer: Option<bool>)
      ensures ConnectFrom(user, teams, token, HasRightConnected, a)
              == ConnectFrom(user, teams, token, if answer.None? then Responded
                                                 else if answer.value then StoreToken else OpenCountConnected, a)
      ensures answer.None? <==> !a.hasConnected || (user !in HasConnected(users) && !a.getInvite)
      ensures answer.Some? ==> (answer.value <==> user in HasConnected(users) || user in invites)
    {
      hide ConnectFrom;
      ConnectReads(user, teams, token, HasRightConnected, a);
      if !a.hasConnected { return None; }
      if user in HasConnected(users) { return Some(true); }
      ConnectReads(user, teams, token, HasRightInvited, a);
      if !a.getInvite { return None; }
      return Some(user in invites);
    }

    /** UserCanOpenlyConnect: a free place, and in restricted mode a place on the whitelist. */
    method UserCanOpenlyConnect(user: string, teams: string, token: Token, a: ConnectAnswers)
      returns (answer: Option<bool>, nAvailable: int)
      ensures ConnectFrom(user, teams, token, OpenCountConnected, a)
              == ConnectFrom(user, teams, token, if answer.None? then Responded
                                                 else if answer.value then StoreToken else Deny, a)
      ensures answer.None? <==> !a.countConnected || !a.countInvited || (config.restricted && !a.isWhitelisted)
      ensures answer.Some? ==> nAvailable == config.allowed - |HasConnected(users)| - |invites|
      ensures answer.Some? ==>
                (answer.value <==> nAvailable > 0 && (config.restricted ==> user in whitelist && user != ""))
    {
      hide ConnectFrom, HasConnected;
      ConnectReads(user, teams, token, OpenCountConnected, a);
      if !a.countConnected { return None, 0; }
      var nConnected := |HasConnected(users)|;
      ConnectReads(user, teams, token, OpenCountInvited(nConnected), a);
      if !a.countInvited { return None, 0; }
      var nInvited := |invites|;
      ConnectReads(user, teams, token, OpenAvailable(nConnected, nInvited), a);
      nAvailable := config.allowed - nConnected - nInvited;
      ConnectReads(user, teams, token, OpenRestricted(nAvailable), a);
      if config.restricted {
        ConnectReads(user, teams, token, OpenWhitelisted(nAvailable), a);
        if !a.isWhitelisted { return None, 0; }
        if !IsWhitelisted(whitelist, user) { return Some(false), nAvailable; }
      }
      return Some(nAvailable > 0), nAvailable;
    }

    /** SetUserInfo as one call: its transaction is the subject of `Users.Table`. */
    method SetUserInfo(user: string, teams: string, token: Option<Token>, answers: bool) returns (ok: bool)
      modifies this`users
      ensures ok <==> answers && Free(old(users), user, teams)
      ensures users == if answers then SetInfo(old(users), user, teams, token, clock) else old(users)
      ensures if ok then Written(old(users), users, user, teams, token, clock) else users == old(users)
    {
      if !answers || exists other :: other in users && other != user && users[other].teams == teams { return false; }
      users := users[user := NextInfo(Lookup(users, user), teams, token, clock)];
      return true;
    }

    /** A denied user keeps the row, but no token. */
    method DenyConnection(user: string, teams: string, token: Token, a: ConnectAnswers)
      modifies this`users
      ensures Snapshot(Unlocked) == old(ConnectFrom(user, teams, token, Deny, a))
      ensures if a.setUserInfo && Free(old(users), user, teams)
              then Written(old(users), users, user, teams, None, clock) else users == old(users)
    {
      ConnectGoesOn(Snapshot(Connecting(user, teams, token, Deny)), a);
      var cleared := SetUserInfo(user, teams, None, a.setUserInfo);
      ReleasedStays(Snapshot(Unlocked), NO_INVITE, a);
    }

    lemma PreferenceGoesOn(user: string, teams: string, token: Token, a: ConnectAnswers)
      ensures ConnectFrom(user, teams, token, SetPreference, a)
              == ConnectFrom(user, teams, token, if a.setPreference then DropInvite else Responded, a)
    {
      ConnectReads(user, teams, token, SetPreference, a);
      hide ConnectFrom, HasConnected, Free;
    }

    /** The first write after admission. */
    method StoreConnectedToken(user: string, teams: string, token: Token, a: ConnectAnswers) returns (stored: bool)
      modifies this`users
      ensures old(ConnectFrom(user, teams, token, StoreToken, a))
              == ConnectFrom(user, teams, token, if stored then SetPreference else Responded, a)
      ensures stored <==> a.setUserInfo && Free(old(users), user, teams)
      ensures if stored then Written(old(users), users, user, teams, Some(token), clock) else users == old(users)
    {
      ConnectGoesOn(Snapshot(Connecting(user, teams, token, StoreToken)), a);
      stored := SetUserInfo(user, teams, Some(token), a.setUserInfo);
      ReleasedStays(Snapshot(Unlocked), NO_INVITE, a);
      hide ConnectEnd, SetInfo, Free, Written;
    }

    /** The writes after admission. */
    method StoreConnection(user: string, teams: string, token: Token, a: ConnectAnswers) returns (connected: bool)
      modifies this`users, this`notifications, this`invites, this`whitelist
      ensures Snapshot(Unlocked) == old(ConnectFrom(user, teams, token, StoreToken, a))
      ensures notifications == if connected then old(notifications)[user := true] else old(notifications)
      ensures connected <==> a.setUserInfo && Free(old(users), user, teams) && a.setPreference
      ensures if a.setUserInfo && Free(old(users), user, teams)
              then Written(old(users), users, user, teams, Some(token), clock) else users == old(users)
      ensures invites == if connected && a.deleteInvite then old(invites) - {user} else old(invites)
      ensures whitelist == if connected && a.deleteListed then old(whitelist) - {user} else old(whitelist)
    {
      hide ConnectFrom, HasConnected, SetInfo, Free, Written;
      var stored := StoreConnectedToken(user, teams, token, a);
      if !stored {
        Responds(user, teams, token, a);
        return false;
      }
      connected := FinishConnection(user, teams, token, a);
    }

    /** The writes after the token: a failing preference ends the admission, although the token stays. */
    method FinishConnection(user: string, teams: string, token: Token, a: ConnectAnswers) returns (finished: bool)
      modifies this`notifications, this`invites, this`whitelist
      ensures Snapshot(Unlocked) == old(ConnectFrom(user, teams, token, SetPreference, a))
      ensures finished <==> a.setPreference
      ensures notifications == if finished then old(notifications)[user := true] else old(notifications)
      ensures invites == if finished && a.deleteInvite then old(invites) - {user} else old(invites)
      ensures whitelist == if finished && a.deleteListed then old(whitelist) - {user} else old(whitelist)
    {
      hide ConnectFrom;
      PreferenceGoesOn(user, teams, token, a);
      if !a.setPreference {
        Responds(user, teams, token, a);
        return false;
      }
      notifications := notifications[user := true];
      ForgetInvitation(user, teams, token, a);
      return true;
    }

    /** A connected user no longer needs an invite or a place on the whitelist. Failures are only logged. */
    method ForgetInvitation(user: string, teams: string, token: Token, a: ConnectAnswers)
      modifies this`invites, this`whitelist
      ensures Snapshot(Unlocked) == old(ConnectFrom(user, teams, token, DropInvite, a))
      ensures invites == if a.deleteInvite then old(invites) - {user} else old(invites)
      ensures whitelist == if a.deleteListed then old(whitelist) - {user} else old(whitelist)
    {
      ConnectGoesOn(Snapshot(Connecting(user, teams, token, DropInvite)), a);
      if a.deleteInvite { invites := invites - {user}; }
      ConnectGoesOn(Snapshot(Connecting(user, teams, token, DropListed)), a);
      if a.deleteListed { whitelist := whitelist - {user}; }
      ReleasedStays(Snapshot(Unlocked), NO_INVITE, a);
    }

    /** Whom the admission section lets through when its calls get these answers: who has connected before or
        is invited, or finds a free place and, in restricted mode, is whitelisted. */
    predicate Admits(user: string, a: ConnectAnswers)
      reads `users, `invites, `whitelist, `config
    {
      && a.hasConnected
      && (|| user in HasConnected(users)
          || (&& a.getInvite
              && (|| user in invites
                  || (&& a.countConnected && a.countInvited
                      && |HasConnected(users)| + |invites| < config.allowed
                      && (config.restricted ==> a.isWhitelisted && user in whitelist && user != "")))))
    }

    /** Whom it turns away: all it asks has been answered, and a place or an invitation is missing. */
    predicate Denies(user: string, a: ConnectAnswers)
      reads `users, `invites, `whitelist, `config
    {
      && a.hasConnected && a.getInvite && a.countConnected && a.countInvited
      && (config.restricted ==> a.isWhitelisted)
      && user !in HasConnected(users) && user !in invites
      && (|| |HasConnected(users)| + |invites| >= config.allowed
          || (config.restricted && (user !in whitelist || user == "")))
    }

    /** The admission section of oauthRedirectHandler, inside the mutex. */
    method Admit(user: string, teams: string, token: Token, a: ConnectAnswers) returns (connected: bool)
      modifies this`users, this`notifications, this`invites, this`whitelist
      ensures Snapshot(Unlocked) == old(ConnectFrom(user, teams, token, HasRightConnected, a))
      ensures var writes := a.setUserInfo && Free(old(users), user, teams);
              && (connected <==> old(Admits(user, a)) && writes && a.setPreference)
              && if old(Admits(user, a)) && writes then Written(old(users), users, user, teams, Some(token), clock)
                 else if old(Denies(user, a)) && writes then Written(old(users), users, user, teams, None, clock)
                 else users == old(users)
      ensures notifications == if connected then old(notifications)[user := true] else old(notifications)
      ensures invites == if connected && a.deleteInvite then old(invites) - {user} else old(invites)
      ensures whitelist == if connected && a.deleteListed then old(whitelist) - {user} else old(whitelist)
    {
      hide ConnectFrom, SetInfo, Written, Free, HasConnected;
      var right := UserHasRightToConnect(user, teams, token, a);
      if right.None? {
        Responds(user, teams, token, a);
        return false;
      }
      if !right.value {
        var open, nAvailable := UserCanOpenlyConnect(user, teams, token, a);
        if open.None? {
          Responds(user, teams, token, a);
          return false;
        }
        if !open.value {
          DenyConnection(user, teams, token, a);
          return false;
        }
      }
      connected := StoreConnection(user, teams, token, a);
    }

    lemma Responds(user: string, teams: string, token: Token, a: ConnectAnswers)
      ensures ConnectFrom(user, teams, token, Responded, a) == Snapshot(Unlocked)
    {
    }

    /** The redirect from where it asks whether the Teams account is taken: a failing look-up lets it pass. */
    method AdmitUnlessHeld(user: string, teams: string, token: Token, findHolder: bool, a: ConnectAnswers)
      returns (connected: bool)
      modifies this`users, this`notifications, this`invites, this`whitelist
      ensures Snapshot(Unlocked) == old(ConnectEnd(Run(Snapshot(Unlocked),
                                                       Redirected(0, user, teams, token, findHolder)), a))
      ensures var held := findHolder && exists u :: u in old(users) && old(users)[u].teams == teams
                                                    && old(users)[u].token != "";
              && (connected <==> !held && old(Admits(user, a)) && a.setUserInfo && Free(old(users), user, teams)
                                 && a.setPreference)
              && (held ==> Snapshot(Unlocked) == old(Snapshot(Unlocked)) && notifications == old(notifications))
    {
      RedirectArrives(Snapshot(Unlocked), 0, user, teams, token, findHolder);
      ReleasedStays(Snapshot(Unlocked), NO_INVITE, a);
      hide Run, Admits, Denies, ConnectEnd, Written, Free;
      if findHolder && exists u :: u in users && users[u].teams == teams && users[u].token != "" { return false; }
      connected := Admit(user, teams, token, a);
    }

    // ----- outside the mutex, run without interruption -----

    /** A new configuration comes into force at once. */
    method SetConfiguration(config: Config)
      modifies this`config
      ensures this.config == config
      ensures Snapshot(Unlocked) == Run(old(Snapshot(Unlocked)), [SetConfig(config)])
    {
      RunOne(Snapshot(Unlocked), SetConfig(config));
      this.config := config;
    }

    /** The upload of a whitelist as one call: its transaction is the subject of `Whitelist.Table`. */
    method SetWhitelist(ids: seq<string>, answers: bool) returns (ok: bool)
      modifies this`whitelist
      ensures ok <==> answers && Distinct(ids)
      ensures whitelist == if ok then set id | id in ids else old(whitelist)
      ensures Snapshot(Unlocked) == Run(old(Snapshot(Unlocked)), [Upload(ids, answers)])
    {
      RunOne(Snapshot(Unlocked), Upload(ids, answers));
      ok := answers && forall i, j :: 0 <= i < j < |ids| ==> ids[i] != ids[j];
      if ok { whitelist := set id | id in ids; }
    }

    /** executeDisconnectCommand: reads the Teams id and the token, then clears the token. Writing back
        the user's own Teams id can never violate the unique index. A preference that cannot be reset is
        only logged. */
    method ExecuteDisconnectCommand(user: string, findTeams: bool, findToken: bool, setUserInfo: bool,
        setPreference: bool)
      returns (disconnected: bool)
      requires Injective(users)
      modifies this`users, this`notifications
      ensures notifications == if disconnected && setPreference then old(notifications)[user := false]
                               else old(notifications)
      ensures Snapshot(Unlocked)
              == Run(old(Snapshot(Unlocked)), Disconnecting(0, user, findTeams, findToken, setUserInfo))
      ensures disconnected <==>
                findTeams && findToken && setUserInfo && user in old(users) && old(users)[user].token != ""
      ensures !disconnected ==> users == old(users)
      ensures disconnected ==>
                users == old(users)[user := old(users)[user].(token := "", lastDisconnectAt := clock)]
    {
      DisconnectClears(Snapshot(Unlocked), 0, user, findTeams, findToken, setUserInfo);
      hide Run, SetInfo;
      if !findTeams || user !in users { return false; }
      var teams := users[user].teams;
      if !findToken || !HasToken(users, user) { return false; }
      disconnected := SetUserInfo(user, teams, None, setUserInfo);
      if disconnected && setPreference { notifications := notifications[user := false]; }
    }

    /** OnDisconnectedTokenHandler: clears the token without looking whether there is one. */
    method OnDisconnectedTokenHandler(user: string, findTeams: bool, setUserInfo: bool) returns (cleared: bool)
      requires Injective(users)
      modifies this`users
      ensures Snapshot(Unlocked) == Run(old(Snapshot(Unlocked)), LosingToken(0, user, findTeams, setUserInfo))
      ensures cleared <==> findTeams && setUserInfo && user in old(users)
      ensures users == if cleared && old(users)[user].token != ""
                       then old(users)[user := old(users)[user].(token := "", lastDisconnectAt := clock)]
                       else old(users)
    {
      LossClears(Snapshot(Unlocked), 0, user, findTeams, setUserInfo);
      hide Run, SetInfo;
      if !findTeams || user !in users { return false; }
      cleared := SetUserInfo(user, users[user].teams, None, setUserInfo);
    }

    /** GetClientForUser: a stored token that has expired is replaced by a refreshed one. */
    method GetClientForUser(user: string, findToken: bool, expired: bool, newToken: Option<Token>,
        findTeams: bool, setUserInfo: bool)
      returns (ok: bool)
      requires Injective(users)
      modifies this`users
      ensures Snapshot(Unlocked)
              == Run(old(Snapshot(Unlocked)),
                     Refreshing(0, user, findToken, if expired then newToken else None, findTeams, setUserInfo))
      ensures ok <==> findToken && user in old(users) && old(users)[user].token != ""
                      && (expired ==> newToken.Some? && findTeams && setUserInfo)
      ensures ok && expired ==>
                users == old(users)[user := old(users)[user].(token := newToken.value, lastConnectAt := clock)]
      ensures !ok || !expired ==> users == old(users)
    {
      RefreshReplaces(Snapshot(Unlocked), 0, user, findToken, if expired then newToken else None, findTeams,
                      setUserInfo);
      hide Run, SetInfo;
      if !findToken || !HasToken(users, user) { return false; }
      if expired {
        if newToken.None? { return false; }
        if !findTeams { return false; }
        ok := SetUserInfo(user, users[user].teams, newToken, setUserInfo);
        return;
      }
      return true;
    }
  }
}
