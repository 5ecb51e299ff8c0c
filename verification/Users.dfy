/**
 The users table: which Mattermost user holds which Teams account, with which token, and when the
 user last connected and disconnected.

 `Table` is the SQL table with its two key constraints and the transaction around `SetUserInfo`.
 `UserMap` is the simple map it refines.
 */
module Users {
  import opened Common

  /** An encrypted OAuth token; the empty column value means "no token". */
  type Token = s: string | s != "" witness "token"

  datatype UserRow = UserRow(mm: string, info: UserInfo)

  /** Everything stored about one Mattermost user. A time of 0 is "never". */
  datatype UserInfo = UserInfo(teams: string, token: string, lastConnectAt: nat, lastDisconnectAt: nat)

  type UserMap = map<string, UserInfo>

  /** What is read before a write: the connection state, with an absent time for "never". */
  datatype ConnectStatus = ConnectStatus(connected: bool, lastConnectAt: Option<nat>, lastDisconnectAt: Option<nat>)

  const NO_STATUS := ConnectStatus(false, None, None)

  function TimeOf(column: nat): Option<nat> {
    if column == 0 then None else Some(column)
  }

  function StatusOf(info: UserInfo): ConnectStatus {
    ConnectStatus(info.token != "", TimeOf(info.lastConnectAt), TimeOf(info.lastDisconnectAt))
  }

  /** The new pair (lastConnectAt, lastDisconnectAt). */
  function ComputeStatusTimes(status: ConnectStatus, nextIsConnected: bool, now: nat): (nat, nat) {
    if nextIsConnected then
      (now, if status.lastDisconnectAt.Some? then status.lastDisconnectAt.value else 0)
    else
      (if status.lastConnectAt.Some? then status.lastConnectAt.value else 0,
       if status.connected then now
       else if status.lastDisconnectAt.Some? then status.lastDisconnectAt.value
       else 0)
  }

  function Column(token: Option<Token>): string {
    if token.Some? then token.value else ""
  }

  /** The row a user has after a successful write. */
  function NextInfo(was: Option<UserInfo>, teams: string, token: Option<Token>, now: nat): UserInfo {
    var status := if was.Some? then StatusOf(was.value) else NO_STATUS;
    var (connectAt, disconnectAt) := ComputeStatusTimes(status, token.Some?, now);
    UserInfo(teams, Column(token), connectAt, disconnectAt)
  }

  function Lookup(m: UserMap, mm: string): Option<UserInfo> {
    if mm in m then Some(m[mm]) else None
  }

  /** Nobody else holds this Teams account. */
  ghost predicate Free(m: UserMap, mm: string, teams: string) {
    forall other :: other in m && other != mm ==> m[other].teams != teams
  }

  /** The simple form of SetUserInfo: one map update, or an error that changes nothing. */
  ghost function SetInfo(m: UserMap, mm: string, teams: string, token: Option<Token>, now: nat): UserMap {
    if Free(m, mm, teams) then m[mm := NextInfo(Lookup(m, mm), teams, token, now)] else m
  }

  /** What a successful write leaves in the table, column by column: storing a token is a connect, and
      writing none is a disconnect if a token was held. Every other row stays as it was. */
  ghost predicate Written(
    before: UserMap, after: UserMap, mm: string, teams: string, token: Option<Token>, now: nat)
  {
    && after.Keys == before.Keys + {mm}
    && (forall u :: u in before && u != mm ==> after[u] == before[u])
    && after[mm].teams == teams
    && (if token.Some? then
          && after[mm].token == token.value
          && after[mm].lastConnectAt == now
          && after[mm].lastDisconnectAt == (if mm in before then before[mm].lastDisconnectAt else 0)
        else
          && after[mm].token == ""
          && after[mm].lastConnectAt == (if mm in before then before[mm].lastConnectAt else 0)
          && after[mm].lastDisconnectAt == (if mm !in before then 0
                                            else if before[mm].token != "" then now
                                            else before[mm].lastDisconnectAt))
  }

  /** No Teams account is held twice: with `UserMap` being a map, a partial bijection. */
  ghost predicate Injective(m: UserMap) {
    forall a, b :: a in m && b in m && m[a].teams == m[b].teams ==> a == b
  }

  ghost function TeamsOf(m: UserMap, mm: string): Option<string> {
    if mm in m then Some(m[mm].teams) else None
  }

  ghost function HolderOf(m: UserMap, teams: string): Option<string> {
    if u :| u in m && m[u].teams == teams then Some(u) else None
  }

  /** Users whose row says that they connected at least once. */
  function HasConnected(m: UserMap): set<string> {
    set u | u in m && m[u].lastConnectAt != 0
  }

  /** The stored times fit together, and none lies in the future. */
  predicate TimesFit(info: UserInfo, now: nat) {
    && info.lastConnectAt <= now
    && info.lastDisconnectAt <= now
    && (info.token != "" ==> info.lastConnectAt != 0 && info.lastConnectAt >= info.lastDisconnectAt)
    && (info.token == "" && info.lastConnectAt != 0 ==> info.lastDisconnectAt >= info.lastConnectAt)
    && (info.lastConnectAt == 0 ==> info.lastDisconnectAt == 0)
  }

  ghost predicate AllTimesFit(m: UserMap, now: nat) {
    forall u :: u in m ==> TimesFit(m[u], now)
  }

  // ----- one write -----

  /** The simple form, told column by column. */
  lemma SetInfoWrites(m: UserMap, mm: string, teams: string, token: Option<Token>, now: nat)
    ensures if Free(m, mm, teams) then Written(m, SetInfo(m, mm, teams, token, now), mm, teams, token, now)
            else SetInfo(m, mm, teams, token, now) == m
  {
  }

  /** A write keeps the partial bijection, and the caller ends up holding the Teams account exactly
      when nobody else held it. */
  lemma SetInfoKeepsBijection(m: UserMap, mm: string, teams: string, token: Option<Token>, now: nat)
    requires Injective(m)
    ensures Injective(SetInfo(m, mm, teams, token, now))
    ensures TeamsOf(SetInfo(m, mm, teams, token, now), mm) == Some(teams) <==> Free(m, mm, teams)
    ensures HolderOf(SetInfo(m, mm, teams, token, now), teams) == Some(mm) <==> Free(m, mm, teams)
  {
    var m' := SetInfo(m, mm, teams, token, now);
    if Free(m, mm, teams) {
      assert mm in m' && m'[mm].teams == teams;
    } else {
      var other :| other in m && other != mm && m[other].teams == teams;
      assert m'[other].teams == teams;
    }
  }

  /** The two id lookups are inverse to each other. */
  lemma LookupsAreInverse(m: UserMap, mm: string, teams: string)
    requires Injective(m)
    ensures TeamsOf(m, mm) == Some(teams) <==> HolderOf(m, teams) == Some(mm)
  {
    if mm in m && m[mm].teams == teams {
      assert HolderOf(m, teams).Some?;
    }
  }

  /** A write keeps the stored times in order. */
  lemma SetInfoKeepsTimes(m: UserMap, mm: string, teams: string, token: Option<Token>, before: nat, now: nat)
    requires AllTimesFit(m, before) && before <= now && 0 < now
    ensures AllTimesFit(SetInfo(m, mm, teams, token, now), now)
  {
    var m' := SetInfo(m, mm, teams, token, now);
    forall u | u in m'
      ensures TimesFit(m'[u], now)
    {
      if u in m { assert TimesFit(m[u], before); }
    }
  }

  /** A write can only add its own user to those who have connected, and does so exactly when it
      stores a token. */
  lemma SetInfoGrowsHasConnected(m: UserMap, mm: string, teams: string, token: Option<Token>, now: nat)
    requires 0 < now
    ensures HasConnected(SetInfo(m, mm, teams, token, now))
            == if Free(m, mm, teams) && token.Some? then HasConnected(m) + {mm} else HasConnected(m)
  {
    var m' := SetInfo(m, mm, teams, token, now);
    forall u
      ensures u in HasConnected(m')
              <==> u in if Free(m, mm, teams) && token.Some? then HasConnected(m) + {mm} else HasConnected(m)
    {
    }
  }

  // ----- every sequence of writes -----

  /** One call of SetUserInfo, `elapsed` after the previous one. A failed call has a fault. */
  datatype Call = Call(mm: string, teams: string, token: Option<Token>, elapsed: nat, fault: TxFault)

  ghost function After(m: UserMap, clock: nat, c: Call): UserMap {
    if c.fault.NoFault? then SetInfo(m, c.mm, c.teams, c.token, clock + c.elapsed) else m
  }

  ghost function RunCalls(m: UserMap, clock: nat, calls: seq<Call>): UserMap
    decreases |calls|
  {
    if calls == [] then m
    else RunCalls(After(m, clock, calls[0]), clock + calls[0].elapsed, calls[1..])
  }

  function ClockAfter(clock: nat, calls: seq<Call>): nat
    decreases |calls|
  {
    if calls == [] then clock else ClockAfter(clock + calls[0].elapsed, calls[1..])
  }

  lemma TimesFitLater(m: UserMap, before: nat, now: nat)
    requires AllTimesFit(m, before) && before <= now
    ensures AllTimesFit(m, now)
  {
    forall u | u in m ensures TimesFit(m[u], now) { assert TimesFit(m[u], before); }
  }

  /** Over any sequence of calls the table stays a partial bijection, a token implies an earlier
      connect, connected rows connected last, disconnected rows disconnected last, and nobody who
      has connected is forgotten. */
  lemma {:induction false} RunKeepsTable(m: UserMap, clock: nat, calls: seq<Call>)
    requires 0 < clock
    requires Injective(m) && AllTimesFit(m, clock)
    ensures Injective(RunCalls(m, clock, calls))
    ensures AllTimesFit(RunCalls(m, clock, calls), ClockAfter(clock, calls))
    ensures HasConnected(m) <= HasConnected(RunCalls(m, clock, calls))
    decreases |calls|
  {
    if calls != [] {
      var c := calls[0];
      SetInfoKeepsBijection(m, c.mm, c.teams, c.token, clock + c.elapsed);
      SetInfoKeepsTimes(m, c.mm, c.teams, c.token, clock, clock + c.elapsed);
      SetInfoGrowsHasConnected(m, c.mm, c.teams, c.token, clock + c.elapsed);
      TimesFitLater(m, clock, clock + c.elapsed);
      hide SetInfo, Injective, AllTimesFit, HasConnected;
      RunKeepsTable(After(m, clock, c), clock + c.elapsed, calls[1..]);
    }
  }

  predicate IsConnected(m: UserMap, u: string) {
    u in m && m[u].token != ""
  }

  /** How often user u goes from holding a token to holding none. */
  ghost function Disconnects(m: UserMap, clock: nat, calls: seq<Call>, u: string): nat
    decreases |calls|
  {
    if calls == [] then 0
    else
      var m' := After(m, clock, calls[0]);
      (if IsConnected(m, u) && !IsConnected(m', u) then 1 else 0)
      + Disconnects(m', clock + calls[0].elapsed, calls[1..], u)
  }

  function DisconnectAt(m: UserMap, u: string): nat {
    if u in m then m[u].lastDisconnectAt else 0
  }

  /** The last disconnect time changes only when a held token is really lost: in a run without such
      an edge it is the initial one, and one lost token stamps it with the time of that call. */
  lemma {:induction false} DisconnectTimeNeedsEdge(m: UserMap, clock: nat, calls: seq<Call>, u: string)
    requires 0 < clock
    ensures Disconnects(m, clock, calls, u) == 0
            ==> DisconnectAt(RunCalls(m, clock, calls), u) == DisconnectAt(m, u)
    ensures Disconnects(m, clock, calls, u) > 0
            ==> clock <= DisconnectAt(RunCalls(m, clock, calls), u) <= ClockAfter(clock, calls)
    decreases |calls|
  {
    if calls != [] {
      var m' := After(m, clock, calls[0]);
      ClockOnlyGrows(clock + calls[0].elapsed, calls[1..]);
      DisconnectTimeNeedsEdge(m', clock + calls[0].elapsed, calls[1..], u);
    }
  }

  lemma {:induction false} ClockOnlyGrows(clock: nat, calls: seq<Call>)
    ensures clock <= ClockAfter(clock, calls)
    decreases |calls|
  {
    if calls != [] { ClockOnlyGrows(clock + calls[0].elapsed, calls[1..]); }
  }

  // ----- the table -----

  /** At most one row per Mattermost user. No key of the table demands this: the key is the pair
      (mmUserID, msTeamsUserID). It is kept by deleting before inserting. */
  ghost predicate OneRowPerUser(rows: set<UserRow>) {
    forall r, q :: r in rows && q in rows && r.mm == q.mm ==> r == q
  }

  /** The unique index on msTeamsUserID. */
  ghost predicate UniqueTeams(rows: set<UserRow>) {
    forall r, q :: r in rows && q in rows && r.info.teams == q.info.teams ==> r == q
  }

  ghost function ViewOf(rows: set<UserRow>): (m: UserMap)
    requires OneRowPerUser(rows)
    ensures forall r :: r in rows ==> r.mm in m && m[r.mm] == r.info
    ensures forall u :: u in m ==> UserRow(u, m[u]) in rows
  {
    map r | r in rows :: r.mm := r.info
  }

  /** DELETE FROM users WHERE mmUserID = mm. */
  function DeleteRows(rows: set<UserRow>, mm: string): set<UserRow> {
    set r | r in rows && r.mm != mm
  }

  /** INSERT ... ON CONFLICT (mmUserID, msTeamsUserID) DO UPDATE: a row with the same primary key is
      overwritten; any other row with the same Teams id violates the unique index. */
  function Upsert(rows: set<UserRow>, row: UserRow): Option<set<UserRow>> {
    var samePrimaryKey := set r | r in rows && r.mm == row.mm && r.info.teams == row.info.teams;
    if samePrimaryKey != {} then Some(rows - samePrimaryKey + {row})
    else if exists r :: r in rows && r.info.teams == row.info.teams then None
    else Some(rows + {row})
  }

  /** After the delete the insert fails exactly when someone else holds the Teams account, and the
      upsert's overwriting branch is never taken. */
  lemma InsertOutcome(rows: set<UserRow>, row: UserRow)
    requires OneRowPerUser(rows)
    ensures Upsert(DeleteRows(rows, row.mm), row)
            == if Free(ViewOf(rows), row.mm, row.info.teams) then Some(DeleteRows(rows, row.mm) + {row}) else None
  {
    var m := ViewOf(rows);
    var kept := DeleteRows(rows, row.mm);
    assert (set r | r in kept && r.mm == row.mm && r.info.teams == row.info.teams) == {};
    if Free(m, row.mm, row.info.teams) {
      forall r | r in kept ensures r.info.teams != row.info.teams { assert m[r.mm] == r.info; }
    } else {
      var other :| other in m && other != row.mm && m[other].teams == row.info.teams;
      assert UserRow(other, m[other]) in kept;
    }
  }

  /** Deleting a user's rows and adding one is a single map update. */
  lemma DeleteThenAdd(rows: set<UserRow>, row: UserRow)
    requires OneRowPerUser(rows)
    ensures OneRowPerUser(DeleteRows(rows, row.mm) + {row})
    ensures ViewOf(DeleteRows(rows, row.mm) + {row}) == ViewOf(rows)[row.mm := row.info]
  {
    var m, tx := ViewOf(rows), DeleteRows(rows, row.mm) + {row};
    var m' := ViewOf(tx);
    forall u | u in m' ensures u in m[row.mm := row.info] && m'[u] == m[row.mm := row.info][u] {
      assert UserRow(u, m'[u]) in tx;
    }
    forall u | u in m[row.mm := row.info] ensures u in m' {
      assert UserRow(u, m[row.mm := row.info][u]) in tx;
    }
  }

  /** The unique index survives a permitted insert. */
  lemma InsertKeepsIndex(rows: set<UserRow>, row: UserRow)
    requires OneRowPerUser(rows) && UniqueTeams(rows) && Free(ViewOf(rows), row.mm, row.info.teams)
    ensures UniqueTeams(DeleteRows(rows, row.mm) + {row})
  {
    forall r | r in DeleteRows(rows, row.mm) ensures r.info.teams != row.info.teams {
      assert ViewOf(rows)[r.mm] == r.info;
    }
  }

  lemma ViewIsInjective(rows: set<UserRow>)
    requires OneRowPerUser(rows) && UniqueTeams(rows)
    ensures Injective(ViewOf(rows))
  {
    var m := ViewOf(rows);
    forall a, b | a in m && b in m && m[a].teams == m[b].teams
      ensures a == b
    {
      assert UserRow(a, m[a]) in rows && UserRow(b, m[b]) in rows;
    }
  }

  class Table {
    var rows: set<UserRow>

    ghost predicate Valid()
      reads this
    {
      OneRowPerUser(rows) && UniqueTeams(rows)
    }

    ghost function View(): UserMap
      reads this
      requires Valid()
    {
      ViewOf(rows)
    }

    constructor ()
      ensures Valid() && View() == map[]
    {
      rows := {};
    }

    /** SELECT ... WHERE mmUserID = mm, taking the first row. */
    method GetUserConnectStatus(mm: string) returns (status: ConnectStatus)
      requires Valid()
      ensures status == if mm in View() then StatusOf(View()[mm]) else NO_STATUS
      ensures status.connected <==> mm in View() && View()[mm].token != ""
      ensures status.lastConnectAt == if mm in View() && View()[mm].lastConnectAt != 0
                                      then Some(View()[mm].lastConnectAt) else None
      ensures status.lastDisconnectAt == if mm in View() && View()[mm].lastDisconnectAt != 0
                                         then Some(View()[mm].lastDisconnectAt) else None
    {
      if row :| row in rows && row.mm == mm {
        status := StatusOf(row.info);
      } else {
        status := NO_STATUS;
      }
    }

    method TeamsToMattermostUserID(teams: string) returns (mm: Option<string>)
      requires Valid()
      ensures mm == HolderOf(View(), teams)
    {
      if row :| row in rows && row.info.teams == teams {
        mm := Some(row.mm);
        ViewIsInjective(rows);
        assert row.mm in View() && View()[row.mm].teams == teams;
      } else {
        mm := None;
      }
    }

    method MattermostToTeamsUserID(mm: string) returns (teams: Option<string>)
      requires Valid()
      ensures teams == TeamsOf(View(), mm)
    {
      if row :| row in rows && row.mm == mm {
        teams := Some(row.info.teams);
      } else {
        teams := None;
      }
    }

    /** The transaction: read the status, delete the user's rows, insert one row, and commit. Any
        failing step rolls back. */
    method SetUserInfo(mm: string, teams: string, token: Option<Token>, now: nat, fault: TxFault) returns (ok: bool)
      requires Valid()
      modifies this
      ensures Valid()
      ensures ok <==> fault.NoFault? && Free(old(View()), mm, teams)
      ensures View() == if ok then SetInfo(old(View()), mm, teams, token, now) else old(View())
      ensures ok ==> Written(old(View()), View(), mm, teams, token, now)
      ensures View() == After(old(View()), now, Call(mm, teams, token, 0, fault))
    {
      if fault.BeginFails? { return false; }
      var tx := rows;
      var status := GetUserConnectStatus(mm);
      if fault.ReadFails? { return false; }
      var (connectAt, disconnectAt) := ComputeStatusTimes(status, token.Some?, now);
      var row := UserRow(mm, UserInfo(teams, Column(token), connectAt, disconnectAt));
      InsertOutcome(rows, row);
      DeleteThenAdd(rows, row);
      if fault.DeleteFails? { return false; }
      tx := DeleteRows(tx, mm);
      var inserted := Upsert(tx, row);
      if fault.InsertFails? || inserted.None? { return false; }
      tx := inserted.value;
      InsertKeepsIndex(rows, row);
      if fault.CommitFails? { return false; }
      rows := tx;
      return true;
    }
  }
}
