/**
 The whitelist table and the batched upload that replaces it.
 */
module Whitelist {
  import opened Common

  function Elements(ids: seq<string>): set<string> {
    set id | id in ids
  }

  function Concat(batches: seq<seq<string>>): seq<string> {
    if batches == [] then [] else Concat(batches[..|batches| - 1]) + batches[|batches| - 1]
  }

  /** The table after an upload: exactly the uploaded ids, or the old table when an id repeats. */
  ghost function Uploaded(table: set<string>, ids: seq<string>): set<string> {
    if Distinct(ids) then Elements(ids) else table
  }

  /** What one multi-row insert into the table returns. */
  ghost predicate Inserted(table: set<string>, ids: seq<string>, result: Option<set<string>>) {
    && (result.Some? <==> Distinct(ids) && Elements(ids) !! table)
    && (result.Some? ==> result.value == table + Elements(ids))
  }

  /** One multi-row INSERT: the whole statement fails when it would repeat a primary key. */
  method StoreUsersInWhitelist(table: set<string>, ids: seq<string>) returns (result: Option<set<string>>)
    ensures Inserted(table, ids, result)
  {
    var added := table;
    for i := 0 to |ids|
      invariant Distinct(ids[..i]) && Elements(ids[..i]) !! table
      invariant added == table + Elements(ids[..i])
    {
      if ids[i] in added {
        if ids[i] in table {
          assert ids[i] in Elements(ids);
        } else {
          assert ids[i] in ids[..i];
        }
        return None;
      }
      assert ids[..i + 1] == ids[..i] + [ids[i]];
      assert Elements(ids[..i + 1]) == Elements(ids[..i]) + {ids[i]};
      added := added + {ids[i]};
    }
    assert ids[..|ids|] == ids;
    return Some(added);
  }

  /** Appending a batch to a distinct prefix keeps it distinct exactly when the batch is distinct and
      disjoint from the prefix. */
  lemma DistinctAppend(a: seq<string>, b: seq<string>)
    ensures Distinct(a + b) <==> Distinct(a) && Distinct(b) && Elements(a) !! Elements(b)
    ensures Elements(a + b) == Elements(a) + Elements(b)
  {
    var c := a + b;
    if Distinct(c) {
      forall i, j | 0 <= i < j < |a| ensures a[i] != a[j] { assert c[i] == a[i] && c[j] == a[j]; }
      forall i, j | 0 <= i < j < |b| ensures b[i] != b[j] { assert c[|a| + i] == b[i] && c[|a| + j] == b[j]; }
      forall x | x in Elements(a) ensures x !in Elements(b) {
        var i :| 0 <= i < |a| && a[i] == x;
        forall j | 0 <= j < |b| ensures b[j] != x { assert c[i] == x && c[|a| + j] == b[j]; }
      }
    }
    if Distinct(a) && Distinct(b) && Elements(a) !! Elements(b) {
      forall i, j | 0 <= i < j < |c| ensures c[i] != c[j] {
        if i < |a| <= j { assert c[i] in Elements(a) && c[j] in Elements(b); }
      }
    }
  }

  /** Every batch is non-empty and at most `size` long, and only the last may be shorter. */
  ghost predicate Cut(batches: seq<seq<string>>, size: int) {
    && (forall i :: 0 <= i < |batches| ==> 0 < |batches[i]| <= size)
    && (forall i :: 0 <= i < |batches| - 1 ==> |batches[i]| == size)
  }

  /** More may follow: the last batch is full as well. */
  ghost predicate AllFull(batches: seq<seq<string>>, size: int) {
    forall i :: 0 <= i < |batches| ==> |batches[i]| == size
  }

  lemma ConcatSnoc(batches: seq<seq<string>>, batch: seq<string>)
    ensures Concat(batches + [batch]) == Concat(batches) + batch
  {
    assert (batches + [batch])[..|batches|] == batches;
  }

  /** Where the loop stands after n ids: `batches` are stored, `current` is still to be stored. */
  ghost predicate Progress(
    ids: seq<string>, n: nat, batches: seq<seq<string>>, current: seq<string>, stored: set<string>, size: int)
  {
    && n <= |ids| && Concat(batches) + current == ids[..n]
    && Cut(batches, size) && |current| < size
    && (if n < |ids| then AllFull(batches, size) else current == [])
    && stored == Elements(Concat(batches)) && Distinct(Concat(batches))
  }

  lemma StartsOut(ids: seq<string>, size: int)
    requires size > 0
    ensures Progress(ids, 0, [], [], {}, size)
  {
  }

  lemma TakeOne(done: seq<string>, current: seq<string>, ids: seq<string>, i: nat)
    requires i < |ids| && done + current == ids[..i]
    ensures done + (current + [ids[i]]) == ids[..i + 1]
  {
    assert done + (current + [ids[i]]) == (done + current) + [ids[i]];
  }

  /** Taking an id that does not fill the batch, and is not the last. */
  lemma TakeKeepsProgress(
    ids: seq<string>, i: nat, batches: seq<seq<string>>, current: seq<string>, stored: set<string>, size: int)
    requires Progress(ids, i, batches, current, stored, size) && i < |ids| - 1 && |current| + 1 < size
    ensures Progress(ids, i + 1, batches, current + [ids[i]], stored, size)
  {
    TakeOne(Concat(batches), current, ids, i);
  }

  lemma CutSnoc(batches: seq<seq<string>>, batch: seq<string>, size: int)
    requires Cut(batches, size) && AllFull(batches, size) && 0 < |batch| <= size
    ensures Cut(batches + [batch], size)
    ensures |batch| == size ==> AllFull(batches + [batch], size)
  {
  }

  /** Taking an id that fills the batch, or is the last, and storing the batch. */
  lemma FlushKeepsProgress(
    ids: seq<string>, i: nat, batches: seq<seq<string>>, current: seq<string>, stored: set<string>, size: int,
    result: Option<set<string>>)
    requires Progress(ids, i, batches, current, stored, size) && i < |ids|
    requires |current| + 1 == size || i == |ids| - 1
    requires Inserted(stored, current + [ids[i]], result)
    ensures FlushedSoFar(ids, batches + [current + [ids[i]]], size)
    ensures result.None? ==> !Distinct(ids)
    ensures result.Some? ==> Progress(ids, i + 1, batches + [current + [ids[i]]], [], result.value, size)
  {
    var done, batch := Concat(batches), current + [ids[i]];
    TakeOne(done, current, ids, i);
    ConcatSnoc(batches, batch);
    CutSnoc(batches, batch, size);
    DistinctAppend(done, batch);
    DistinctAppend(ids[..i + 1], ids[i + 1..]);
    assert ids == ids[..i + 1] + ids[i + 1..];
    hide Distinct, Elements, Concat, Cut, AllFull;
    assert Concat(batches + [batch]) + [] == ids[..i + 1];
  }

  /** The batches are cut from the front of the upload. */
  ghost predicate FlushedSoFar(ids: seq<string>, batches: seq<seq<string>>, size: int) {
    Concat(batches) <= ids && Cut(batches, size)
  }

  lemma ProgressIsFlushed(
    ids: seq<string>, n: nat, batches: seq<seq<string>>, current: seq<string>, stored: set<string>, size: int)
    requires Progress(ids, n, batches, current, stored, size)
    ensures FlushedSoFar(ids, batches, size)
    ensures n == |ids| ==> Distinct(ids) && stored == Elements(ids) && Concat(batches) == ids
  {
    assert ids[..n] <= ids;
    if n == |ids| { assert ids[..n] == ids && Concat(batches) + [] == Concat(batches); }
  }

  /** The emptied table, filled batch by batch; None when an insert fails. */
  method StoreInBatches(ids: seq<string>, batchSize: int, faultyInsert: Option<nat>)
    returns (tx: Option<set<string>>, batches: seq<seq<string>>)
    ensures tx.Some? ==> Distinct(ids) && tx.value == Elements(ids) && Concat(batches) == ids
    ensures tx.Some? ==> faultyInsert.None? || |batches| <= faultyInsert.value
    ensures tx.None? ==> !Distinct(ids) || faultyInsert == Some(|batches| - 1)
    ensures FlushedSoFar(ids, batches, Max(1, batchSize))
  {
    hide Progress, FlushedSoFar, Inserted, Distinct, Elements, Concat;
    ghost var size := Max(1, batchSize);
    batches := [];
    var stored: set<string> := {};
    var currentBatch: seq<string> := [];
    StartsOut(ids, size);
    for i := 0 to |ids|
      invariant |currentBatch| < size
      invariant Progress(ids, i, batches, currentBatch, stored, size)
      invariant faultyInsert.Some? ==> |batches| <= faultyInsert.value
    {
      ProgressIsFlushed(ids, i, batches, currentBatch, stored, size);
      ghost var before, taken := batches, currentBatch;
      currentBatch := currentBatch + [ids[i]];
      if |currentBatch| >= batchSize || i == |ids| - 1 {
        var result := StoreUsersInWhitelist(stored, currentBatch);
        FlushKeepsProgress(ids, i, before, taken, stored, size, result);
        batches := batches + [currentBatch];
        if faultyInsert == Some(|batches| - 1) || result.None? { return None, batches; }
        stored := result.value;
        currentBatch := [];
      } else {
        TakeKeepsProgress(ids, i, before, taken, stored, size);
      }
    }
    ProgressIsFlushed(ids, |ids|, batches, currentBatch, stored, size);
    return Some(stored), batches;
  }

  class Table {
    var rows: set<string>

    constructor ()
      ensures rows == {}
    {
      rows := {};
    }

    method IsUserWhitelisted(user: string) returns (found: bool)
      ensures found <==> user in rows && user != ""
    {
      var result := if user in rows then user else "";
      found := result != "";
    }

    /** The transaction around StoreInBatches. `fault` is any other database error, met at the begin, the
        delete, the given insert, or the commit. */
    method SetWhitelist(ids: seq<string>, batchSize: int, fault: TxFault, faultyInsert: nat)
      returns (ok: bool, batches: seq<seq<string>>)
      modifies this
      ensures ok ==> fault.NoFault? || (fault.InsertFails? && |batches| <= faultyInsert)
      ensures fault.NoFault? ==> (ok <==> Distinct(ids))
      ensures ok ==> Distinct(ids) && rows == Elements(ids)
      ensures !ok ==> rows == old(rows)
      ensures fault.NoFault? ==> rows == Uploaded(old(rows), ids)
      ensures FlushedSoFar(ids, batches, Max(1, batchSize)) && (ok ==> Concat(batches) == ids)
    {
      if fault.BeginFails? || fault.ReadFails? || fault.DeleteFails? { return false, []; }
      var tx;
      tx, batches := StoreInBatches(ids, batchSize, if fault.InsertFails? then Some(faultyInsert) else None);
      if tx.None? || fault.CommitFails? { return false, batches; }
      rows := tx.value;
      return true, batches;
    }
  }
}
