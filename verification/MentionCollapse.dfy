/**
 Collapsing mentions on documents: what merging two tags changes, and how the two loops go through the
 document.
 */
module MentionCollapse {
  import opened Text
  import opened Mentions
  import opened MentionDocs

  /** No two mentions share an id, and no name has a tag in it. */
  ghost predicate Usable(ms: seq<Mention>) {
    && (forall a, b :: 0 <= a < b < |ms| ==> ms[a].id != ms[b].id)
    && (forall k :: 0 <= k < |ms| ==> Lacks(ms[k].text, '<'))
  }

  /** Mentions s and s + 1 belong to one user but are not joined in the document. */
  predicate SettledAt(d: Doc, ms: seq<Mention>, s: nat) {
    s + 1 < |ms| && ms[s].userId == ms[s + 1].userId ==> !HasPair(d, ms[s], ms[s + 1])
  }

  ghost predicate SettledUpTo(d: Doc, ms: seq<Mention>, i: nat) {
    forall s: nat :: s < i ==> SettledAt(d, ms, s)
  }

  // ----- merging two tags -----

  lemma {:induction false} TagHasId(d: Doc, m: Mention)
    requires HasTag(d, m)
    ensures m.id in Ids(d)
  {
    if !IsTag(d, m) { TagHasId(d.rest, m); }
  }

  lemma {:induction false} PairHasTags(d: Doc, a: Mention, b: Mention)
    requires HasPair(d, a, b)
    ensures HasTag(d, a) && HasTag(d, b)
  {
    if !IsPair(d, a, b) { PairHasTags(d.rest, a, b); }
  }

  lemma {:induction false} MergeKeepsGood(d: Doc, a: Mention, b: Mention)
    requires Good(d) && HasPair(d, a, b) && Lacks(a.text, '<') && Lacks(b.text, '<')
    ensures Good(MergePair(d, a, b)) && Ids(MergePair(d, a, b)) == Ids(d) - {b.id}
    ensures MergePair(d, a, b).lit == d.lit
  {
    PairHasTags(d, a, b);
    TagHasId(d, b);
    if IsPair(d, a, b) {
      assert WellFormed(d.rest) && WellFormed(d.rest.rest);
      assert DistinctIds(d.rest) && DistinctIds(d.rest.rest);
      assert Ids(d) == {a.id, b.id} + Ids(d.rest.rest);
    } else {
      MergeKeepsGood(d.rest, a, b);
      PairHasTags(d.rest, a, b);
      TagHasId(d.rest, b);
    }
  }

  /** The first tag of the document after a merge. */
  lemma HeadAfterMerge(d: Doc, a: Mention, b: Mention)
    requires DistinctIds(d) && HasPair(d, a, b)
    ensures var d' := MergePair(d, a, b);
            && d'.Cons? && d'.lit == d.lit && d'.id == d.id
            && (if d.id == a.id then IsPair(d, a, b) && d'.name == Absorb(a, b).text else d'.name == d.name)
  {
    if !IsPair(d, a, b) {
      PairHasTags(d.rest, a, b);
      TagHasId(d.rest, a);
    }
  }

  /** Merging a and b makes nothing adjacent that was not adjacent before. `q` is the second mention
      before the merge, `q'` after it. */
  lemma {:induction false} PairBeforeMerge(d: Doc, a: Mention, b: Mention, p: Mention, q: Mention, q': Mention)
    requires DistinctIds(d) && HasPair(d, a, b) && p.id != a.id
    requires if q.id == a.id then q == a && q' == Absorb(a, b) else q' == q
    requires HasPair(MergePair(d, a, b), p, q')
    ensures HasPair(d, p, q)
  {
    HeadAfterMerge(d, a, b);
    if d.id == a.id {
      var after := d.rest.rest;
      assert Ids(d.rest) == {b.id} + Ids(after);
      assert HasPair(after, p, q');
      PairHasTags(after, p, q');
      TagHasId(after, q');
      assert HasPair(d.rest, p, q);
    } else if IsPair(MergePair(d, a, b), p, q') {
      HeadAfterMerge(d.rest, a, b);
      assert IsPair(d, p, q);
    } else {
      PairBeforeMerge(d.rest, a, b, p, q, q');
    }
  }

  lemma {:induction false} TagAfterMerge(d: Doc, a: Mention, b: Mention, m: Mention)
    requires DistinctIds(d) && HasPair(d, a, b) && m.id != b.id
    requires m.id != a.id || m == a
    ensures HasTag(MergePair(d, a, b), if m == a then Absorb(a, b) else m) <==> HasTag(d, m)
  {
    HeadAfterMerge(d, a, b);
    PairHasTags(d, a, b);
    if d.id == a.id {
      var after := d.rest.rest;
      assert HasTag(d.rest, m) == HasTag(after, m);
    } else {
      TagAfterMerge(d.rest, a, b, m);
    }
  }

  lemma AbsorbKeepsUsable(ms: seq<Mention>, i: nat, j: nat)
    requires Usable(ms) && i < |ms| && j < |ms|
    ensures Usable(ms[i := Absorb(ms[i], ms[j])])
  {
    var ms' := ms[i := Absorb(ms[i], ms[j])];
    forall k | 0 <= k < |ms'| ensures Lacks(ms'[k].text, '<') {
    }
    forall a, b | 0 <= a < b < |ms'| ensures ms'[a].id != ms'[b].id {
      assert ms[a].id != ms[b].id;
    }
  }

  lemma AbsorbKeepsSettled(d: Doc, ms: seq<Mention>, i: nat, j: nat)
    requires Good(d) && Usable(ms) && i < j < |ms| && HasPair(d, ms[i], ms[j])
    requires SettledUpTo(d, ms, i)
    ensures SettledUpTo(MergePair(d, ms[i], ms[j]), ms[i := Absorb(ms[i], ms[j])], i)
  {
    var a, b := ms[i], ms[j];
    var d', ms' := MergePair(d, a, b), ms[i := Absorb(a, b)];
    forall s: nat | s < i
      ensures SettledAt(d', ms', s)
    {
      assert SettledAt(d, ms, s);
      assert ms[s].id != a.id;
      if HasPair(d', ms'[s], ms'[s + 1]) {
        PairBeforeMerge(d, a, b, ms[s], ms[s + 1], ms'[s + 1]);
      }
    }
  }

  // ----- where a collapse started -----

  /** Where a collapse started. */
  datatype Origin = Origin(doc: Doc, mentions: seq<Mention>)

  /** No tag is new, and whoever still has an id in the document has a tag exactly if it had one. */
  ghost predicate Tracks(o: Origin, d: Doc, ms: seq<Mention>) {
    && Ids(d) <= Ids(o.doc)
    && |ms| == |o.mentions|
    && forall k :: 0 <= k < |ms| ==> TracksAt(o, d, ms, k)
  }

  predicate TracksAt(o: Origin, d: Doc, ms: seq<Mention>, k: nat)
    requires k < |ms| == |o.mentions|
  {
    && ms[k].id == o.mentions[k].id
    && (ms[k].id in Ids(d) ==> (HasTag(d, ms[k]) <==> HasTag(o.doc, o.mentions[k])))
  }

  lemma MergeTracks(o: Origin, d: Doc, ms: seq<Mention>, i: nat, j: nat)
    requires Tracks(o, d, ms) && Good(d) && Usable(ms) && i < j < |ms| && HasPair(d, ms[i], ms[j])
    ensures Tracks(o, MergePair(d, ms[i], ms[j]), ms[i := Absorb(ms[i], ms[j])])
  {
    var a, b := ms[i], ms[j];
    var d', ms' := MergePair(d, a, b), ms[i := Absorb(a, b)];
    MergeKeepsGood(d, a, b);
    forall k | 0 <= k < |ms'|
      ensures TracksAt(o, d', ms', k)
    {
      assert TracksAt(o, d, ms, k);
      if k != j { TagAfterMerge(d, a, b, ms[k]); }
    }
  }

  // ----- the loops, on documents -----

  ghost predicate GoneBetween(d: Doc, ms: seq<Mention>, i: nat, j: nat) {
    forall s :: i < s < j && s < |ms| ==> ms[s].id !in Ids(d)
  }

  lemma GoneMeansSettled(d: Doc, ms: seq<Mention>, s: nat)
    requires s < |ms| && (ms[s].id !in Ids(d) || (s + 1 < |ms| && ms[s + 1].id !in Ids(d)))
    ensures SettledAt(d, ms, s)
  {
    if s + 1 < |ms| && HasPair(d, ms[s], ms[s + 1]) {
      PairHasTags(d, ms[s], ms[s + 1]);
      TagHasId(d, ms[s]);
      TagHasId(d, ms[s + 1]);
    }
  }

  lemma AbsorbsOnDoc(d: Doc, ms: seq<Mention>, i: nat, j: nat)
    requires WellFormed(d) && Usable(ms) && i < j && i < |ms|
    ensures Absorbs(Content(Render(d), ms), i, j)
            <==> j < |ms| && ms[j].userId == ms[i].userId && HasPair(d, ms[i], ms[j])
    ensures j < |ms| ==> Absorbed(Content(Render(d), ms), i, j)
                         == Content(Render(MergePair(d, ms[i], ms[j])), ms[i := Absorb(ms[i], ms[j])])
  {
    if j < |ms| { MergePairRenders(d, ms[i], ms[j]); }
  }

  /** What the inner loop relies on at (i, j), and what it leaves behind at (next, next + 1). */
  ghost predicate Ready(c: Content, d: Doc, o: Origin, i: nat, j: nat) {
    c.text == Render(d) && DocReady(d, c.mentions, o, i, j)
  }

  ghost predicate DocReady(d: Doc, ms: seq<Mention>, o: Origin, i: nat, j: nat) {
    && Good(d) && Usable(ms) && Tracks(o, d, ms)
    && SettledUpTo(d, ms, i)
    && GoneBetween(d, ms, i, j)
  }

  lemma GoneAfterMerge(d: Doc, e: Doc, ms: seq<Mention>, ms': seq<Mention>, i: nat, j: nat)
    requires GoneBetween(d, ms, i, j) && i < j < |ms| && Ids(e) == Ids(d) - {ms[j].id}
    requires |ms'| == |ms| && forall s :: i < s < |ms| ==> ms'[s] == ms[s]
    ensures GoneBetween(e, ms', i, j + 1)
  {
  }

  lemma MergeKeepsReady(d: Doc, ms: seq<Mention>, o: Origin, i: nat, j: nat)
    requires DocReady(d, ms, o, i, j) && i < j < |ms| && HasPair(d, ms[i], ms[j])
    ensures DocReady(MergePair(d, ms[i], ms[j]), ms[i := Absorb(ms[i], ms[j])], o, i, j + 1)
  {
    assert Lacks(ms[i].text, '<') && Lacks(ms[j].text, '<');
    hide WellFormed, DistinctIds, Ids, HasPair, MergePair, Usable, Tracks, SettledUpTo, GoneBetween;
    MergeKeepsGood(d, ms[i], ms[j]);
    AbsorbKeepsUsable(ms, i, j);
    AbsorbKeepsSettled(d, ms, i, j);
    MergeTracks(o, d, ms, i, j);
    GoneAfterMerge(d, MergePair(d, ms[i], ms[j]), ms, ms[i := Absorb(ms[i], ms[j])], i, j);
  }

  lemma InnerAbsorbsOnDoc(c: Content, d: Doc, o: Origin, i: nat, j: nat) returns (e: Doc)
    requires Ready(c, d, o, i, j) && i < j && i < |c.mentions| && Absorbs(c, i, j)
    ensures HasPair(d, c.mentions[i], c.mentions[j]) && e == MergePair(d, c.mentions[i], c.mentions[j])
    ensures Ready(Absorbed(c, i, j), e, o, i, j + 1)
  {
    assert WellFormed(d) && Usable(c.mentions);
    hide Contains, ReplaceFirst, Pair, TagOf, Render, HasPair, MergePair, DocReady, WellFormed, Usable;
    AbsorbsOnDoc(d, c.mentions, i, j);
    MergeKeepsReady(d, c.mentions, o, i, j);
    e := MergePair(d, c.mentions[i], c.mentions[j]);
  }

  lemma InnerStopsOnDoc(c: Content, d: Doc, o: Origin, i: nat, j: nat)
    requires Ready(c, d, o, i, j) && i < j && i < |c.mentions| && !Absorbs(c, i, j)
    ensures Inner(c, i, j).0 == c && Ready(c, d, o, Inner(c, i, j).1, Inner(c, i, j).1 + 1)
  {
    hide Contains, ReplaceFirst, HasPair, WellFormed, DistinctIds;
    var next := Inner(c, i, j).1;
    AbsorbsOnDoc(d, c.mentions, i, j);
    forall s: nat | s < next ensures SettledAt(d, c.mentions, s) {
      if s + 1 < |c.mentions| && (i < s < j || i < s + 1 < j) { GoneMeansSettled(d, c.mentions, s); }
    }
  }

  /** Nothing is left to collapse: the collapse changes nothing. */
  lemma {:induction false} SettledStays(d: Doc, ms: seq<Mention>, i: nat)
    requires WellFormed(d) && Usable(ms) && forall s: nat :: SettledAt(d, ms, s)
    ensures Outer(Content(Render(d), ms), i) == Content(Render(d), ms)
    decreases |ms| - i
  {
    if i < |ms| {
      AbsorbsOnDoc(d, ms, i, i + 1);
      assert SettledAt(d, ms, i);
      SettledStays(d, ms, i + 1);
    }
  }

  lemma AbsorbingChanges(c: Content, i: nat)
    requires i < |c.mentions| && Absorbs(c, i, i + 1)
    ensures |Outer(c, i).text| < |c.text|
  {
    hide Contains, ReplaceFirst;
    AbsorbShortens(c.text, c.mentions[i], c.mentions[i + 1]);
    var d := Absorbed(c, i, i + 1);
    InnerShortens(d, i, i + 2);
    var (c', next) := Inner(d, i, i + 2);
    OuterShortens(c', next);
    assert Inner(c, i, i + 1) == (c', next);
  }

  /** A pair of consecutive mentions that can be absorbed is collapsed sooner or later. */
  lemma {:induction false} PairGetsShorter(c: Content, i: nat, s: nat)
    requires i <= s < |c.mentions| && Absorbs(c, s, s + 1)
    ensures |Outer(c, i).text| < |c.text|
    decreases |c.mentions| - i
  {
    hide Contains, ReplaceFirst;
    if Absorbs(c, i, i + 1) {
      AbsorbingChanges(c, i);
    } else {
      assert Inner(c, i, i + 1) == (c, i + 1);
      PairGetsShorter(c, i + 1, s);
    }
  }
}
