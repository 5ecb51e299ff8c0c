/**
 The subscriptions table. Three kinds of rows share it: one for all chats, one per Teams user, one
 per Teams channel. Its only key is the subscription id; everything else rests on deleting the rows
 that a new one replaces, inside one transaction.
 */
module Subscriptions {
  import opened Common

  const TYPE_USER := "user"
  const TYPE_CHANNEL := "channel"
  const TYPE_ALL_CHATS := "allChats"

  /** A row; a NULL column is None. */
  datatype Row = Row(
    id: string,
    kind: string,
    team: Option<string>,
    channel: Option<string>,
    user: Option<string>,
    secret: string,
    expiresOn: int,
    certificate: string)

  /** What each writer of the table does. */
  datatype Op =
    | SaveGlobal(id: string, kind: string, secret: string, expiresOn: int, certificate: string)
    | SaveChat(id: string, user: string, secret: string, expiresOn: int, certificate: string)
    | SaveChannel(id: string, team: string, channel: string, secret: string, expiresOn: int, certificate: string)
    | UpdateExpiresOn(id: string, expiresOn: int)
    | DeleteById(id: string)

  function NewRow(op: Op): Row
    requires op.SaveGlobal? || op.SaveChat? || op.SaveChannel?
  {
    match op
    case SaveGlobal(id, kind, secret, exp, cert) => Row(id, kind, None, None, None, secret, exp, cert)
    case SaveChat(id, user, secret, exp, cert) => Row(id, TYPE_USER, None, None, Some(user), secret, exp, cert)
    case SaveChannel(id, team, channel, secret, exp, cert) =>
      Row(id, TYPE_CHANNEL, Some(team), Some(channel), None, secret, exp, cert)
  }

  /** The WHERE clause of the delete; comparing a NULL column is never true. */
  predicate Replaced(op: Op, r: Row)
    requires op.SaveGlobal? || op.SaveChat? || op.SaveChannel?
  {
    match op
    case SaveGlobal(_, kind, _, _, _) => r.kind == kind
    case SaveChat(_, user, _, _, _) => r.user == Some(user)
    case SaveChannel(_, team, channel, _, _, _) => r.team == Some(team) && r.channel == Some(channel)
  }

  /** Primary key violation, or the row added. */
  function Insert(rows: set<Row>, row: Row): Option<set<Row>> {
    if exists r :: r in rows && r.id == row.id then None else Some(rows + {row})
  }

  /** The committed table after an operation, or None when it fails on the primary key. */
  function Effect(rows: set<Row>, op: Op): Option<set<Row>> {
    match op
    case UpdateExpiresOn(id, exp) => Some(set r | r in rows :: if r.id == id then r.(expiresOn := exp) else r)
    case DeleteById(id) => Some(set r | r in rows && r.id != id)
    case _ => Insert((set r | r in rows && !Replaced(op, r)), NewRow(op))
  }

  /** The transaction wrapper: any failure leaves the committed table as it was. */
  function Commit(rows: set<Row>, op: Op, fault: TxFault): set<Row> {
    var result := Effect(rows, op);
    if fault.NoFault? && result.Some? then result.value else rows
  }

  /** The primary key. */
  ghost predicate DistinctIds(rows: set<Row>) {
    forall r, q :: r in rows && q in rows && r.id == q.id ==> r == q
  }

  /** Everything the delete-then-insert discipline adds to the primary key. */
  ghost predicate OnePerTarget(rows: set<Row>) {
    && (forall r, q :: r in rows && q in rows && r.kind == TYPE_ALL_CHATS && q.kind == TYPE_ALL_CHATS ==> r == q)
    && (forall r, q :: r in rows && q in rows && r.user.Some? && r.user == q.user ==> r == q)
    && (forall r, q ::
          r in rows && q in rows && r.team.Some? && r.channel.Some? && r.team == q.team && r.channel == q.channel
          ==> r == q)
  }

  /** The two keep each other: an update by id touches one row only because ids are distinct. */
  ghost predicate Wellformed(rows: set<Row>) {
    DistinctIds(rows) && OnePerTarget(rows)
  }

  lemma CommitKeepsWellformed(rows: set<Row>, op: Op, fault: TxFault)
    requires Wellformed(rows)
    ensures Wellformed(Commit(rows, op, fault))
  {
    hide Wellformed, Effect;
    match op {
      case UpdateExpiresOn(id, expiresOn) =>
        assert Effect(rows, op) == Some(set r | r in rows :: if r.id == id then r.(expiresOn := expiresOn) else r) by {
          EffectOfUpdate(rows, id, expiresOn);
        }
        UpdateKeepsWellformed(rows, id, expiresOn);
      case DeleteById(_) => FewerRowsWellformed(rows, op);
      case _ => SaveKeepsWellformed(rows, op);
    }
  }

  lemma EffectOfUpdate(rows: set<Row>, id: string, exp: int)
    ensures Effect(rows, UpdateExpiresOn(id, exp))
            == Some(set r | r in rows :: if r.id == id then r.(expiresOn := exp) else r)
  {
  }

  lemma FewerRowsWellformed(rows: set<Row>, op: Op)
    requires Wellformed(rows) && op.DeleteById?
    ensures Effect(rows, op).Some? && Wellformed(Effect(rows, op).value)
  {
  }

  lemma SaveKeepsWellformed(rows: set<Row>, op: Op)
    requires Wellformed(rows) && (op.SaveGlobal? || op.SaveChat? || op.SaveChannel?)
    ensures Effect(rows, op).Some? ==> Wellformed(Effect(rows, op).value)
  {
  }

  lemma UpdateKeepsWellformed(rows: set<Row>, id: string, exp: int)
    requires Wellformed(rows)
    ensures Wellformed(set r | r in rows :: if r.id == id then r.(expiresOn := exp) else r)
  {
    var rows' := set r | r in rows :: if r.id == id then r.(expiresOn := exp) else r;
    forall r' | r' in rows'
      ensures exists r :: r in rows && r' == if r.id == id then r.(expiresOn := exp) else r
    {
    }
  }

  /** A save either leaves exactly its own row for its target and every other row alone, or fails
      because a row that it does not replace already has its id. */
  lemma SaveOutcome(rows: set<Row>, op: Op)
    requires op.SaveGlobal? || op.SaveChat? || op.SaveChannel?
    requires Wellformed(rows)
    ensures Effect(rows, op).None? <==> exists r :: r in rows && r.id == op.id && !Replaced(op, r)
    ensures Effect(rows, op).Some? ==>
              && (forall r :: r in Effect(rows, op).value && Replaced(op, r) ==> r == NewRow(op))
              && NewRow(op) in Effect(rows, op).value
              && (forall r :: r in rows && !Replaced(op, r) ==> r in Effect(rows, op).value)
              && (forall r :: r in Effect(rows, op).value ==> r in rows || r == NewRow(op))
  {
    var kept := set r | r in rows && !Replaced(op, r);
    if Effect(rows, op).None? {
      var r :| r in kept && r.id == NewRow(op).id;
      assert r.id == op.id;
    } else {
      forall r | r in rows && r.id == op.id ensures Replaced(op, r) {
      }
    }
  }

  /** Every other row stays, and what is new is an old row of this id with the new expiry time. */
  ghost predicate OnlyExpiryChanges(before: set<Row>, after: set<Row>, id: string, expiresOn: int) {
    && (forall r :: r in before && r.id != id ==> r in after)
    && (forall r :: r in before && r.id == id ==> r.(expiresOn := expiresOn) in after)
    && (forall r :: r in after && r.id == id ==> r.expiresOn == expiresOn && CameFrom(before, r))
    && (forall r :: r in after && r.id != id ==> r in before)
  }

  ghost predicate CameFrom(before: set<Row>, r: Row) {
    exists q :: q in before && q.(expiresOn := 0) == r.(expiresOn := 0)
  }

  lemma UpdateTouchesOneRow(rows: set<Row>, id: string, expiresOn: int)
    ensures OnlyExpiryChanges(rows, Commit(rows, UpdateExpiresOn(id, expiresOn), NoFault), id, expiresOn)
  {
    var after := Commit(rows, UpdateExpiresOn(id, expiresOn), NoFault);
    forall r | r in after && r.id == id ensures r.expiresOn == expiresOn && CameFrom(rows, r) {
      var q :| q in rows && r == if q.id == id then q.(expiresOn := expiresOn) else q;
      assert q.(expiresOn := 0) == r.(expiresOn := 0);
    }
    forall r | r in rows ensures (if r.id == id then r.(expiresOn := expiresOn) else r) in after {
    }
  }

  ghost function RunOps(rows: set<Row>, ops: seq<(Op, TxFault)>): set<Row>
    decreases |ops|
  {
    if ops == [] then rows else RunOps(Commit(rows, ops[0].0, ops[0].1), ops[1..])
  }

  /** Over any sequence of saves, updates and deletes, failing or not. */
  lemma {:induction false} RunOpsKeepsWellformed(rows: set<Row>, ops: seq<(Op, TxFault)>)
    requires Wellformed(rows)
    ensures Wellformed(RunOps(rows, ops))
    decreases |ops|
  {
    if ops != [] {
      CommitKeepsWellformed(rows, ops[0].0, ops[0].1);
      RunOpsKeepsWellformed(Commit(rows, ops[0].0, ops[0].1), ops[1..]);
    }
  }

  class Table {
    var rows: set<Row>

    ghost predicate Valid()
      reads this
    {
      Wellformed(rows)
    }

    constructor ()
      ensures Valid() && rows == {}
    {
      rows := {};
    }

    /** Begin, delete, insert, then roll back or commit. */
    method Save(op: Op, fault: TxFault) returns (ok: bool)
      requires op.SaveGlobal? || op.SaveChat? || op.SaveChannel?
      requires Valid()
      modifies this
      ensures Valid()
      ensures ok <==> fault.NoFault? && !exists r :: r in old(rows) && r.id == op.id && !Replaced(op, r)
      ensures rows == Commit(old(rows), op, fault)
      ensures !ok ==> rows == old(rows)
      ensures ok ==>
                match op
                case SaveGlobal(id, kind, secret, expiresOn, certificate) =>
                  rows == (set r | r in old(rows) && r.kind != kind)
                          + {Row(id, kind, None, None, None, secret, expiresOn, certificate)}
                case SaveChat(id, user, secret, expiresOn, certificate) =>
                  rows == (set r | r in old(rows) && r.user != Some(user))
                          + {Row(id, "user", None, None, Some(user), secret, expiresOn, certificate)}
                case SaveChannel(id, team, channel, secret, expiresOn, certificate) =>
                  rows == (set r | r in old(rows) && !(r.team == Some(team) && r.channel == Some(channel)))
                          + {Row(id, "channel", Some(team), Some(channel), None, secret, expiresOn, certificate)}
    {
      if fault.BeginFails? || fault.ReadFails? { return false; }
      var tx := rows;
      if fault.DeleteFails? { return false; }
      tx := set r | r in tx && !Replaced(op, r);
      SaveOutcome(rows, op);
      var inserted := Insert(tx, NewRow(op));
      if fault.InsertFails? || inserted.None? { return false; }
      tx := inserted.value;
      CommitKeepsWellformed(rows, op, fault);
      if fault.CommitFails? { return false; }
      rows := tx;
      return true;
    }

    method UpdateSubscriptionExpiresOn(id: string, expiresOn: int, fails: bool) returns (ok: bool)
      requires Valid()
      modifies this
      ensures Valid()
      ensures ok == !fails
      ensures rows == Commit(old(rows), UpdateExpiresOn(id, expiresOn), if fails then InsertFails else NoFault)
      ensures if ok then OnlyExpiryChanges(old(rows), rows, id, expiresOn) else rows == old(rows)
    {
      if fails { return false; }
      CommitKeepsWellformed(rows, UpdateExpiresOn(id, expiresOn), NoFault);
      UpdateTouchesOneRow(rows, id, expiresOn);
      hide Wellformed, OnlyExpiryChanges;
      rows := set r | r in rows :: if r.id == id then r.(expiresOn := expiresOn) else r;
      return true;
    }

    method DeleteSubscription(id: string, fails: bool) returns (ok: bool)
      requires Valid()
      modifies this
      ensures Valid()
      ensures ok == !fails
      ensures rows == Commit(old(rows), DeleteById(id), if fails then DeleteFails else NoFault)
      ensures rows <= old(rows) && forall r :: r in old(rows) && r.id != id ==> r in rows
      ensures ok ==> forall r :: r in rows ==> r.id != id
    {
      if fails { return false; }
      CommitKeepsWellformed(rows, DeleteById(id), NoFault);
      rows := set r | r in rows && r.id != id;
      return true;
    }

    /** SELECT ... WHERE type = 'allChats': at most one row ever comes back. */
    method ListGlobalSubscriptions() returns (found: set<Row>)
      requires Valid()
      ensures found == set r | r in rows && r.kind == TYPE_ALL_CHATS
      ensures |found| <= 1
    {
      found := set r | r in rows && r.kind == TYPE_ALL_CHATS;
      AtMostOneElement(found);
    }
  }

  lemma AtMostOneElement<T>(s: set<T>)
    requires forall x, y :: x in s && y in s ==> x == y
    ensures |s| <= 1
  {
    if x :| x in s {
      assert s == {x};
    }
  }
}
