/**
 What collapsing comes to: one walk over the document, in which every mention swallows the tags joined
 to it that belong to the mentions listed after it, for as long as they are the same user's.

 The loops of the program walk over the mentions instead, search the text for every pair, and rewrite
 text, mentions and loop index on the way.
 */
module MentionGlue {
  import opened Common
  import opened Text
  import opened Mentions
  import opened MentionDocs
  import opened MentionCollapse

  /** The mention that a tag belongs to. */
  ghost function IndexOf(ms: seq<Mention>, id: int, name: string): Option<nat> {
    if k: nat :| k < |ms| && ms[k].id == id && ms[k].text == name then Some(k) else None
  }

  function TagCount(d: Doc): nat {
    if d.End? then 0 else 1 + TagCount(d.rest)
  }

  /** The next tag is joined on, and it is the tag of mention j of this user. */
  predicate Swallows(d: Doc, ms: seq<Mention>, user: string, j: nat) {
    d.lit == NBSP && j < |ms| && ms[j].userId == user && IsTag(d, ms[j])
  }

  /** Swallows tags from mention j on: the grown name, and the document after the last one. */
  function Chain(d: Doc, ms: seq<Mention>, user: string, name: string, j: nat): (r: (string, Doc))
    ensures TagCount(r.1) <= TagCount(d)
  {
    if Swallows(d, ms, user, j) then Chain(d.rest, ms, user, name + " " + d.name, j + 1) else (name, d)
  }

  /** Mention s swallows from mention s + 1 on, except for mention i, which is already at j. */
  function NextOf(s: nat, i: nat, j: nat): nat {
    if s == i then j else s + 1
  }

  ghost function Glue(d: Doc, ms: seq<Mention>, i: nat, j: nat): Doc
    decreases TagCount(d)
  {
    if d.End? then d
    else
      var s := IndexOf(ms, d.id, d.name);
      if s.None? then d.(rest := Glue(d.rest, ms, i, j))
      else
        var (name, rest) := Chain(d.rest, ms, ms[s.value].userId, d.name, NextOf(s.value, i, j));
        Cons(d.lit, d.id, name, Glue(rest, ms, i, j))
  }

  // ----- what is left after a chain -----

  lemma {:induction false} ChainLeaves(d: Doc, ms: seq<Mention>, user: string, name: string, j: nat)
    requires DistinctIds(d)
    ensures var rest := Chain(d, ms, user, name, j).1;
            && DistinctIds(rest) && Ids(rest) <= Ids(d)
            && forall p, q :: HasPair(rest, p, q) ==> HasPair(d, p, q)
  {
    if Swallows(d, ms, user, j) { ChainLeaves(d.rest, ms, user, name + " " + d.name, j + 1); }
  }

  lemma IndexIsUnique(ms: seq<Mention>, k: nat)
    requires Usable(ms) && k < |ms|
    ensures IndexOf(ms, ms[k].id, ms[k].text) == Some(k)
  {
  }

  /** A settled mention swallows nothing. */
  lemma SettledSwallowsNothing(d: Doc, ms: seq<Mention>, s: nat)
    requires d.Cons? && s < |ms| && IsTag(d, ms[s]) && SettledAt(d, ms, s)
    ensures !Swallows(d.rest, ms, ms[s].userId, s + 1)
  {
  }

  lemma SettledInside(d: Doc, e: Doc, ms: seq<Mention>, i: nat)
    requires SettledUpTo(d, ms, i)
    requires forall p, q :: HasPair(e, p, q) ==> HasPair(d, p, q)
    ensures SettledUpTo(e, ms, i)
  {
    forall s: nat | s < i ensures SettledAt(e, ms, s) { assert SettledAt(d, ms, s); }
  }

  // ----- nothing left to swallow -----

  lemma {:induction false} SettledGlue(d: Doc, ms: seq<Mention>, n: nat)
    requires DistinctIds(d) && |ms| <= n && SettledUpTo(d, ms, n)
    ensures Glue(d, ms, n, n + 1) == d
    decreases TagCount(d)
  {
    if d.Cons? {
      SettledInside(d, d.rest, ms, n);
      SettledGlue(d.rest, ms, n);
      var s := IndexOf(ms, d.id, d.name);
      if s.Some? {
        assert SettledAt(d, ms, s.value);
        SettledSwallowsNothing(d, ms, s.value);
      }
    }
  }

  // ----- the loops keep the glued document: mention i finds nothing to absorb at j -----

  /** Mention i swallows nothing, whether it goes on from j or from i + 1. */
  ghost predicate Stuck(d: Doc, ms: seq<Mention>, i: nat, j: nat) {
    && i < |ms|
    && (j < |ms| && ms[j].userId == ms[i].userId ==> !HasPair(d, ms[i], ms[j]))
    && (i + 1 < |ms| && ms[i + 1].userId == ms[i].userId ==> !HasPair(d, ms[i], ms[i + 1]))
  }

  lemma {:induction false} StuckGlue(d: Doc, ms: seq<Mention>, i: nat, j: nat, n: nat)
    requires DistinctIds(d) && Stuck(d, ms, i, j)
    ensures Glue(d, ms, i, j) == Glue(d, ms, n, n + 1)
    decreases TagCount(d)
  {
    if d.Cons? {
      var s := IndexOf(ms, d.id, d.name);
      if s.None? || s.value == i {
        if s.Some? {
          assert !Swallows(d.rest, ms, ms[i].userId, j);
          assert !Swallows(d.rest, ms, ms[i].userId, i + 1);
        }
        StuckGlue(d.rest, ms, i, j, n);
      } else {
        var user := ms[s.value].userId;
        ChainLeaves(d.rest, ms, user, d.name, s.value + 1);
        StuckGlue(Chain(d.rest, ms, user, d.name, s.value + 1).1, ms, i, j, n);
      }
    }
  }

  // ----- the loops keep the glued document: mention i absorbs mention j -----

  /** Past mention i, the swallowed tags do not depend on it. */
  lemma {:induction false} ChainPast(d: Doc, ms: seq<Mention>, m: Mention, i: nat, user: string, name: string, k: nat)
    requires i < |ms| && m.userId == ms[i].userId && m.id == ms[i].id
    requires i < k || ms[i].id !in Ids(d)
    ensures Chain(d, ms[i := m], user, name, k) == Chain(d, ms, user, name, k)
  {
    if k != i && Swallows(d, ms, user, k) { ChainPast(d.rest, ms, m, i, user, name + " " + d.name, k + 1); }
  }

  lemma IndexAfterUpdate(ms: seq<Mention>, i: nat, m: Mention, id: int, name: string)
    requires Usable(ms) && i < |ms| && m.id == ms[i].id && id != m.id
    ensures IndexOf(ms[i := m], id, name) == IndexOf(ms, id, name)
  {
    var ms' := ms[i := m];
    var s, s' := IndexOf(ms, id, name), IndexOf(ms', id, name);
    if s.Some? { assert ms'[s.value].id == id; }
    if s'.Some? { assert ms[s'.value].id == id; }
  }

  /** Where mention i has no tag, neither its name nor its position in the list matters. */
  lemma {:induction false} GlueWithout(d: Doc, ms: seq<Mention>, i: nat, m: Mention, j: nat, k: nat)
    requires Usable(ms) && DistinctIds(d) && i < |ms| && m.id == ms[i].id && m.userId == ms[i].userId
    requires m.id !in Ids(d)
    ensures Glue(d, ms[i := m], i, k) == Glue(d, ms, i, j)
    decreases TagCount(d)
  {
    if d.Cons? {
      IndexAfterUpdate(ms, i, m, d.id, d.name);
      var s := IndexOf(ms, d.id, d.name);
      if s.None? {
        GlueWithout(d.rest, ms, i, m, j, k);
      } else {
        var user := ms[s.value].userId;
        assert s.value != i;
        ChainPast(d.rest, ms, m, i, user, d.name, s.value + 1);
        ChainLeaves(d.rest, ms, user, d.name, s.value + 1);
        GlueWithout(Chain(d.rest, ms, user, d.name, s.value + 1).1, ms, i, m, j, k);
      }
    }
  }

  /** A chain of later mentions runs the same before and after the merge, and leaves the pair alone. */
  lemma {:induction false} ChainAroundMerge(d: Doc, ms: seq<Mention>, i: nat, j: nat, user: string, name: string,
      k: nat)
    requires Usable(ms) && DistinctIds(d) && i < j < |ms| && i < k && HasPair(d, ms[i], ms[j])
    ensures var a, b := ms[i], ms[j];
            var (n, rest) := Chain(d, ms, user, name, k);
            && HasPair(rest, a, b)
            && Chain(MergePair(d, a, b), ms[i := Absorb(a, b)], user, name, k) == (n, MergePair(rest, a, b))
  {
    var a, b := ms[i], ms[j];
    HeadAfterMerge(d, a, b);
    if Swallows(d, ms, user, k) {
      assert d.id != a.id;
      ChainAroundMerge(d.rest, ms, i, j, user, name + " " + d.name, k + 1);
    } else {
      assert !Swallows(MergePair(d, a, b), ms[i := Absorb(a, b)], user, k);
    }
  }

  /** Everything the merge of mentions i and j relies on. */
  ghost predicate Mergeable(d: Doc, ms: seq<Mention>, i: nat, j: nat) {
    && Usable(ms) && DistinctIds(d)
    && i < j < |ms| && ms[j].userId == ms[i].userId && HasPair(d, ms[i], ms[j])
    && SettledUpTo(d, ms, i)
    && SettledUpTo(MergePair(d, ms[i], ms[j]), ms[i := Absorb(ms[i], ms[j])], i)
  }

  lemma MergeGlueHere(d: Doc, ms: seq<Mention>, i: nat, j: nat)
    requires Mergeable(d, ms, i, j) && d.id == ms[i].id
    ensures Glue(MergePair(d, ms[i], ms[j]), ms[i := Absorb(ms[i], ms[j])], i, j + 1) == Glue(d, ms, i, j)
  {
    var a, b := ms[i], ms[j];
    var m := Absorb(a, b);
    var ms' := ms[i := m];
    HeadAfterMerge(d, a, b);
    assert IsPair(d, a, b);
    var after := d.rest.rest;
    assert DistinctIds(d.rest) && DistinctIds(after) && Ids(after) <= Ids(d.rest);
    IndexIsUnique(ms, i);
    AbsorbKeepsUsable(ms, i, j);
    IndexIsUnique(ms', i);
    assert Swallows(d.rest, ms, a.userId, j);
    assert Chain(d.rest, ms, a.userId, a.text, j) == Chain(after, ms, a.userId, m.text, j + 1);
    ChainPast(after, ms, m, i, a.userId, m.text, j + 1);
    ChainLeaves(after, ms, a.userId, m.text, j + 1);
    GlueWithout(Chain(after, ms, a.userId, m.text, j + 1).1, ms, i, m, j, j + 1);
  }

  /** Merging mentions i and j ahead of the walk is what the walk would have done. */
  lemma {:induction false} MergeGlue(d: Doc, ms: seq<Mention>, i: nat, j: nat)
    requires Mergeable(d, ms, i, j)
    ensures Glue(MergePair(d, ms[i], ms[j]), ms[i := Absorb(ms[i], ms[j])], i, j + 1) == Glue(d, ms, i, j)
    decreases TagCount(d)
  {
    var a, b := ms[i], ms[j];
    var m := Absorb(a, b);
    var ms' := ms[i := m];
    var d' := MergePair(d, a, b);
    HeadAfterMerge(d, a, b);
    if d.id == a.id {
      MergeGlueHere(d, ms, i, j);
    } else {
      IndexAfterUpdate(ms, i, m, d.id, d.name);
      var s := IndexOf(ms, d.id, d.name);
      if s.None? {
        MergeableInside(d, d.rest, ms, i, j);
        MergeGlue(d.rest, ms, i, j);
      } else if s.value < i {
        assert SettledAt(d, ms, s.value) && SettledAt(d', ms', s.value);
        SettledSwallowsNothing(d, ms, s.value);
        SettledSwallowsNothing(d', ms', s.value);
        MergeableInside(d, d.rest, ms, i, j);
        MergeGlue(d.rest, ms, i, j);
      } else {
        var user := ms[s.value].userId;
        ChainAroundMerge(d.rest, ms, i, j, user, d.name, s.value + 1);
        ChainLeaves(d.rest, ms, user, d.name, s.value + 1);
        var rest := Chain(d.rest, ms, user, d.name, s.value + 1).1;
        MergeableInside(d, rest, ms, i, j);
        MergeGlue(rest, ms, i, j);
      }
    }
  }

  lemma MergeableInside(d: Doc, e: Doc, ms: seq<Mention>, i: nat, j: nat)
    requires Mergeable(d, ms, i, j)
    requires DistinctIds(e) && HasPair(e, ms[i], ms[j])
    requires forall p, q :: HasPair(e, p, q) ==> HasPair(d, p, q)
    ensures Mergeable(e, ms, i, j)
  {
    SettledInside(d, e, ms, i);
    var a, b := ms[i], ms[j];
    var e', ms' := MergePair(e, a, b), ms[i := Absorb(a, b)];
    forall s: nat | s < i ensures SettledAt(e', ms', s) {
      assert SettledAt(e, ms, s);
      assert ms[s].id != a.id;
      if s + 1 < |ms| && HasPair(e', ms'[s], ms'[s + 1]) { PairBeforeMerge(e, a, b, ms[s], ms[s + 1], ms'[s + 1]); }
    }
  }

  // ----- the loops -----

  /** Going on from (i, j) still leads to the glued document `g`. */
  ghost predicate OnCourse(c: Content, d: Doc, o: Origin, i: nat, j: nat, g: Doc) {
    Ready(c, d, o, i, j) && Glue(d, c.mentions, i, j) == g
  }

  lemma AbsorbGlues(c: Content, d: Doc, o: Origin, i: nat, j: nat, g: Doc) returns (e: Doc)
    requires OnCourse(c, d, o, i, j, g) && i < j && i < |c.mentions| && Absorbs(c, i, j)
    ensures OnCourse(Absorbed(c, i, j), e, o, i, j + 1, g)
  {
    e := InnerAbsorbsOnDoc(c, d, o, i, j);
    MergeGlue(d, c.mentions, i, j);
  }

  lemma StopGlues(c: Content, d: Doc, o: Origin, i: nat, j: nat, g: Doc) returns (next: nat)
    requires OnCourse(c, d, o, i, j, g) && i < j && i < |c.mentions| && !Absorbs(c, i, j)
    ensures Inner(c, i, j) == (c, next) && OnCourse(c, d, o, next, next + 1, g)
  {
    next := Inner(c, i, j).1;
    InnerStopsOnDoc(c, d, o, i, j);
    AbsorbsOnDoc(d, c.mentions, i, j);
    assert SettledAt(d, c.mentions, i);
    StuckGlue(d, c.mentions, i, j, next);
  }

  lemma {:induction false} InnerAbsorbGlues(c: Content, d: Doc, o: Origin, i: nat, j: nat, g: Doc)
    returns (c': Content, next: nat, e: Doc)
    requires OnCourse(c, d, o, i, j, g) && i < j && i < |c.mentions| && Absorbs(c, i, j)
    ensures (c', next) == Inner(c, i, j) && OnCourse(c', e, o, next, next + 1, g)
    decreases |c.mentions| - j, 0
  {
    hide OnCourse, Contains, ReplaceFirst;
    var d' := AbsorbGlues(c, d, o, i, j, g);
    c', next, e := InnerGlues(Absorbed(c, i, j), d', o, i, j + 1, g);
  }

  lemma {:induction false} InnerGlues(c: Content, d: Doc, o: Origin, i: nat, j: nat, g: Doc)
    returns (c': Content, next: nat, e: Doc)
    requires OnCourse(c, d, o, i, j, g) && i < j && i < |c.mentions|
    ensures (c', next) == Inner(c, i, j) && OnCourse(c', e, o, next, next + 1, g)
    decreases |c.mentions| - j, 1
  {
    hide OnCourse, Contains, ReplaceFirst;
    if Absorbs(c, i, j) {
      c', next, e := InnerAbsorbGlues(c, d, o, i, j, g);
    } else {
      next := StopGlues(c, d, o, i, j, g);
      c', e := c, d;
    }
  }

  /** Where the loops end: at the glued document `g`. */
  ghost predicate Glued(c: Content, g: Doc, o: Origin) {
    && c.text == Render(g) && Good(g)
    && Usable(c.mentions) && Tracks(o, g, c.mentions)
    && forall s: nat :: SettledAt(g, c.mentions, s)
  }

  lemma EndIsGlued(c: Content, d: Doc, o: Origin, i: nat, g: Doc)
    requires OnCourse(c, d, o, i, i + 1, g) && |c.mentions| <= i
    ensures Glued(c, g, o)
  {
    SettledGlue(d, c.mentions, i);
    forall s: nat ensures SettledAt(g, c.mentions, s) {
    }
  }

  lemma {:induction false} OuterGlues(c: Content, d: Doc, o: Origin, i: nat, g: Doc)
    requires OnCourse(c, d, o, i, i + 1, g)
    ensures Glued(Outer(c, i), g, o)
    decreases |c.mentions| - i
  {
    hide OnCourse, Glued, Contains, ReplaceFirst;
    if i >= |c.mentions| {
      EndIsGlued(c, d, o, i, g);
    } else {
      var c', next, d' := InnerGlues(c, d, o, i, i + 1, g);
      OuterGlues(c', d', o, next, g);
    }
  }

  /** THE LOOPS COMPUTE THE WALK. For every message with well-formed, distinct tags and mentions with
      distinct ids and tag-free names, the collapsed text is the glued document. No two consecutive
      mentions of one user are left joined in it, and a tag of it belongs to a mention exactly if that
      mention had a tag to begin with. */
  lemma CollapseIsGlue(d: Doc, ms: seq<Mention>)
    requires Good(d) && Usable(ms)
    ensures Glued(Collapse(Content(Render(d), ms)), Glue(d, ms, 0, 1), Origin(d, ms))
  {
    OuterGlues(Content(Render(d), ms), d, Origin(d, ms), 0, Glue(d, ms, 0, 1));
  }

  // ----- runs -----

  /** The tags of mentions k up to n, each joined to what comes before it. */
  function Joined(ms: seq<Mention>, k: nat, n: nat, after: Doc): Doc
    requires k <= n <= |ms|
    decreases n - k
  {
    if k == n then after else Cons(NBSP, ms[k].id, ms[k].text, Joined(ms, k + 1, n, after))
  }

  function SpaceJoined(name: string, ms: seq<Mention>, k: nat, n: nat): string
    requires k <= n <= |ms|
    decreases n - k
  {
    if k == n then name else SpaceJoined(name + " " + ms[k].text, ms, k + 1, n)
  }

  /** ONE ROUND, FOR ANY TEXT. The i-th mention absorbs the ones after it, up to n, as long as they are of the
      same user and their tags are found joined. The next round starts at n if only the joined tags were
      missing there, and otherwise at i + 1; no other mention has changed. */
  lemma {:induction false} InnerAbsorbsRun(c: Content, i: nat, j: nat) returns (n: nat)
    requires i < j <= |c.mentions|
    ensures j <= n <= |c.mentions| && forall t :: j <= t < n ==> c.mentions[t].userId == c.mentions[i].userId
    ensures var (c', next) := Inner(c, i, j);
            var grown := c.mentions[i].(text := SpaceJoined(c.mentions[i].text, c.mentions, j, n));
            var missing := n < |c.mentions| && c.mentions[n].userId == c.mentions[i].userId;
            && c'.mentions == c.mentions[i := grown]
            && (missing ==> next == n && !Contains(c'.text, Pair(grown, c.mentions[n])))
            && (!missing ==> next == i + 1)
    decreases |c.mentions| - j
  {
    hide Contains, ReplaceFirst, Tag;
    n := j;
    if Absorbs(c, i, j) {
      var d := Absorbed(c, i, j);
      n := InnerAbsorbsRun(d, i, j + 1);
      SpaceJoinedElsewhere(d.mentions[i].text, c.mentions, d.mentions, j + 1, n);
    } else {
      assert c.mentions[i := c.mentions[i].(text := c.mentions[i].text)] == c.mentions;
    }
  }

  lemma {:induction false} SpaceJoinedElsewhere(name: string, ms: seq<Mention>, ms': seq<Mention>, k: nat, n: nat)
    requires k <= n <= |ms| == |ms'| && forall t :: k <= t < n ==> ms'[t] == ms[t]
    ensures SpaceJoined(name, ms', k, n) == SpaceJoined(name, ms, k, n)
    decreases n - k
  {
    if k < n { SpaceJoinedElsewhere(name + " " + ms[k].text, ms, ms', k + 1, n); }
  }

  lemma {:induction false} ChainTakesRun(ms: seq<Mention>, name: string, user: string, k: nat, n: nat, after: Doc)
    requires k <= n <= |ms| && forall t :: k <= t < n ==> ms[t].userId == user
    requires !Swallows(after, ms, user, n)
    ensures Chain(Joined(ms, k, n, after), ms, user, name, k) == (SpaceJoined(name, ms, k, n), after)
    decreases n - k
  {
    if k < n { ChainTakesRun(ms, name + " " + ms[k].text, user, k + 1, n, after); }
  }

  /** The tags and texts of p, and then d. */
  function Before(p: Doc, d: Doc): Doc {
    if p.End? then Prepend(p.lit, d) else p.(rest := Before(p.rest, d))
  }

  function LastLit(p: Doc): string {
    if p.End? then p.lit else LastLit(p.rest)
  }

  /** The last tag of p, if it is a mention's, does not swallow the first tag of d. */
  ghost predicate Detached(p: Doc, d: Doc, ms: seq<Mention>) {
    p.Cons? ==>
      if p.rest.End? then
        forall s: nat :: s < |ms| && IsTag(p, ms[s]) ==> !Swallows(Prepend(p.rest.lit, d), ms, ms[s].userId, s + 1)
      else Detached(p.rest, d, ms)
  }

  /** Anything but exactly a join in between keeps them apart. */
  lemma {:induction false} OtherTextDetaches(p: Doc, d: Doc, ms: seq<Mention>)
    requires LastLit(p) + d.lit != NBSP
    ensures Detached(p, d, ms)
  {
    if p.Cons? { OtherTextDetaches(p.rest, d, ms); }
  }

  lemma {:induction false} ChainBefore(p: Doc, d: Doc, ms: seq<Mention>, user: string, name: string, j: nat)
    requires if p.End? then !Swallows(Prepend(p.lit, d), ms, user, j) else Detached(p, d, ms)
    ensures var (grown, rest) := Chain(p, ms, user, name, j);
            && Chain(Before(p, d), ms, user, name, j) == (grown, Before(rest, d))
            && Detached(rest, d, ms)
  {
    if Swallows(p, ms, user, j) { ChainBefore(p.rest, d, ms, user, name + " " + p.name, j + 1); }
  }

  /** What comes before is glued independently of what follows. */
  lemma {:induction false} GlueBefore(p: Doc, d: Doc, ms: seq<Mention>)
    requires Detached(p, d, ms)
    ensures Glue(Before(p, d), ms, 0, 1) == Before(Glue(p, ms, 0, 1), Glue(d, ms, 0, 1))
    decreases TagCount(p)
  {
    if p.Cons? {
      var s := IndexOf(ms, p.id, p.name);
      if s.None? {
        GlueBefore(p.rest, d, ms);
      } else {
        var user := ms[s.value].userId;
        ChainBefore(p.rest, d, ms, user, p.name, s.value + 1);
        GlueBefore(Chain(p.rest, ms, user, p.name, s.value + 1).1, d, ms);
      }
    }
  }

  /** The tags of mentions i up to n, joined, with text before and a document after them. */
  function RunOf(lit: string, ms: seq<Mention>, i: nat, n: nat, after: Doc): Doc
    requires i < n <= |ms|
  {
    Cons(lit, ms[i].id, ms[i].text, Joined(ms, i + 1, n, after))
  }

  /** ONE TAG PER RUN. Anywhere in a message, the tags of mentions i up to n, all of one user, in list
      order and joined, become one tag: the first one's id with all the names, separated by spaces. What
      comes before and what follows is glued independently of it, unless it belongs to the run itself. */
  lemma RunBecomesOneTag(p: Doc, lit: string, ms: seq<Mention>, i: nat, n: nat, after: Doc)
    requires Usable(ms) && i < n <= |ms| && forall t :: i <= t < n ==> ms[t].userId == ms[i].userId
    requires !Swallows(after, ms, ms[i].userId, n)
    requires Good(Before(p, RunOf(lit, ms, i, n, after))) && Detached(p, RunOf(lit, ms, i, n, after), ms)
    ensures var oneTag := Cons(lit, ms[i].id, SpaceJoined(ms[i].text, ms, i + 1, n), Glue(after, ms, 0, 1));
            Collapse(Content(Render(Before(p, RunOf(lit, ms, i, n, after))), ms)).text
            == Render(Before(Glue(p, ms, 0, 1), oneTag))
  {
    var run := RunOf(lit, ms, i, n, after);
    CollapseIsGlue(Before(p, run), ms);
    GlueBefore(p, run, ms);
    IndexIsUnique(ms, i);
    ChainTakesRun(ms, ms[i].text, ms[i].userId, i + 1, n, after);
  }

  /** The run with which a message begins. */
  lemma LeadingRunBecomesOneTag(lit: string, ms: seq<Mention>, i: nat, n: nat, after: Doc)
    requires Usable(ms) && i < n <= |ms| && forall t :: i <= t < n ==> ms[t].userId == ms[i].userId
    requires !Swallows(after, ms, ms[i].userId, n)
    requires Good(RunOf(lit, ms, i, n, after))
    ensures Collapse(Content(lit + TagOf(ms[i]) + Render(Joined(ms, i + 1, n, after)), ms)).text
            == lit + Tag(ms[i].id, SpaceJoined(ms[i].text, ms, i + 1, n)) + Render(Glue(after, ms, 0, 1))
  {
    var run, start := RunOf(lit, ms, i, n, after), End("");
    var oneTag := Cons(lit, ms[i].id, SpaceJoined(ms[i].text, ms, i + 1, n), Glue(after, ms, 0, 1));
    assert "" + lit == lit;
    assert Before(start, run) == run && Before(Glue(start, ms, 0, 1), oneTag) == oneTag;
    RunBecomesOneTag(start, lit, ms, i, n, after);
  }
}
