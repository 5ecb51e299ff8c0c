/**
 Converting the same message again, as the loop over the chat members does: when does the second
 conversion leave the message as it is?
 */
module MentionStability {
  import opened Common
  import opened Text
  import opened Mentions
  import opened MentionDocs
  import opened MentionCollapse
  import opened MentionSubstitution
  import opened MentionGlue
  import opened MentionWalk

  /** A second conversion leaves the text as the first one made it. */
  predicate StableOn(d: Doc, ms: seq<Mention>, x: Context) {
    var once := Convert(Content(Render(d), ms), x);
    Convert(once, x).text == once.text
  }

  // ----- the condition, read off the message -----

  /** Two consecutive mentions of one user whose lookup fails keep their tags. */
  predicate KeptTwice(ms: seq<Mention>, x: Context, s: nat) {
    s + 1 < |ms| && ms[s].userId == ms[s + 1].userId && Replacement(ms[s], x).None?
  }

  /** The mention that a tag with this id belongs to: its tag stands in the message as it came. */
  ghost function Owner(d: Doc, ms: seq<Mention>, id: int): Option<nat> {
    if k: nat :| k < |ms| && ms[k].id == id && HasTag(d, ms[k]) then Some(k) else None
  }

  /** What stands in place of the first tag of `g`, a part of the glued message; None if it stays. */
  ghost function Stead(d: Doc, ms: seq<Mention>, x: Context, g: Doc): Option<string>
    requires g.Cons?
  {
    var k := Owner(d, ms, g.id);
    if k.Some? then Replacement(ms[k.value].(text := g.name), x) else None
  }

  /** From here on `g` reads as the rest of a join, up to the tag of mention b: the stretches of text and
      the replacements between them, with no tag that stays. `read` is what has been read before. */
  ghost predicate JoinsUpTo(d: Doc, ms: seq<Mention>, x: Context, g: Doc, b: nat, read: string) {
    && g.Cons?
    && if Owner(d, ms, g.id) == Some(b) then read + g.lit == NBSP
       else
         var r := Stead(d, ms, x, g);
         r.Some? && JoinsUpTo(d, ms, x, g.rest, b, read + (g.lit + r.value))
  }

  /** Somewhere in `g` the tag of mention s is followed by exactly a join and the tag of mention s + 1. */
  ghost predicate JoinedIn(d: Doc, ms: seq<Mention>, x: Context, g: Doc, s: nat) {
    && g.Cons?
    && ((Owner(d, ms, g.id) == Some(s) && JoinsUpTo(d, ms, x, g.rest, s + 1, ""))
        || JoinedIn(d, ms, x, g.rest, s))
  }

  /** In the glued message, two consecutive mentions of one user keep their tags, and what is between
      them reads as a join once the other tags are replaced. */
  ghost predicate Rejoins(d: Doc, ms: seq<Mention>, x: Context, s: nat) {
    KeptTwice(ms, x, s) && JoinedIn(d, ms, x, Glue(d, ms, 0, 1), s)
  }

  // ----- the second conversion -----

  ghost predicate AllSettled(d: Doc, ms: seq<Mention>) {
    forall s: nat :: SettledAt(d, ms, s)
  }

  /** No tag is left that a mention would replace. */
  ghost predicate NoneToReplace(d: Doc, ms: seq<Mention>, x: Context) {
    forall t :: 0 <= t < |ms| && Replacement(ms[t], x).Some? ==> !HasTag(d, ms[t])
  }

  lemma NothingHappens(f: Doc, ms: seq<Mention>, x: Context)
    requires Good(f) && Usable(ms) && TagFreeNames(x) && NoneToReplace(f, ms, x)
    ensures Substitute(Content(Render(f), ms), x, 0) == Render(f)
  {
    SubstitutedStays(f, ms, x, 0);
    SubstituteOnDoc(f, ms, x, 0);
  }

  /** A collapse leaves no new tag to replace. */
  lemma CollapseKeepsNoneToReplace(f: Doc, ms: seq<Mention>, x: Context)
    requires Good(f) && Usable(ms) && NoneToReplace(f, ms, x)
    ensures NoneToReplace(Glue(f, ms, 0, 1), Collapse(Content(Render(f), ms)).mentions, x)
  {
    var c := Content(Render(f), ms);
    CollapseIsGlue(f, ms);
    OuterShortens(c, 0);
    var g, ms' := Glue(f, ms, 0, 1), Collapse(c).mentions;
    hide Collapse, Glue, Good, Usable;
    forall t | 0 <= t < |ms'| && Replacement(ms'[t], x).Some?
      ensures !HasTag(g, ms'[t])
    {
      assert ms'[t].(text := "") == ms[t].(text := "");
      assert TracksAt(Origin(f, ms), g, ms', t);
      if ms'[t].id !in Ids(g) { AbsentId(g, ms'[t]); }
    }
  }

  lemma AbsentId(d: Doc, m: Mention)
    requires m.id !in Ids(d)
    ensures !HasTag(d, m)
  {
    if HasTag(d, m) { TagHasId(d, m); }
  }

  /** With no tag left to replace, converting changes nothing if no two mentions can be collapsed, and
      shortens the text otherwise. */
  lemma SecondConversion(f: Doc, ms: seq<Mention>, x: Context)
    requires Good(f) && Usable(ms) && TagFreeNames(x) && NoneToReplace(f, ms, x)
    ensures var c := Content(Render(f), ms);
            if AllSettled(f, ms) then Convert(c, x) == c else |Convert(c, x).text| < |c.text|
  {
    var c := Content(Render(f), ms);
    if AllSettled(f, ms) {
      SettledStays(f, ms, 0);
      NothingHappens(f, ms, x);
    } else {
      var s: nat :| !SettledAt(f, ms, s);
      AbsorbsOnDoc(f, ms, s, s + 1);
      PairGetsShorter(c, 0, s);
      CollapseIsGlue(f, ms);
      CollapseKeepsNoneToReplace(f, ms, x);
      NothingHappens(Glue(f, ms, 0, 1), Collapse(c).mentions, x);
    }
  }

  // ----- the condition, after the first conversion -----

  /** `ms'` are the mentions after a collapse that started with `ms` in d, and g is a part of what it made
      of d. */
  ghost predicate After(d: Doc, ms: seq<Mention>, g: Doc, ms': seq<Mention>) {
    NamesGrow(ms, ms') && Usable(ms) && Usable(ms') && DistinctIds(g) && Tracks(Origin(d, ms), g, ms')
  }

  lemma AfterInside(d: Doc, ms: seq<Mention>, g: Doc, ms': seq<Mention>)
    requires After(d, ms, g, ms') && g.Cons?
    ensures After(d, ms, g.rest, ms')
  {
    forall k | 0 <= k < |ms'| ensures TracksAt(Origin(d, ms), g.rest, ms', k) {
      assert TracksAt(Origin(d, ms), g, ms', k);
    }
  }

  /** Its owner before the collapse is the mention that has the tag now. */
  lemma OwnerIs(d: Doc, ms: seq<Mention>, g: Doc, ms': seq<Mention>, k: nat)
    requires After(d, ms, g, ms') && g.Cons? && k < |ms|
    ensures Owner(d, ms, g.id) == Some(k) <==> IsTag(g, ms'[k])
    ensures IsTag(g, ms'[k]) ==> ms[k].(text := g.name) == ms'[k]
  {
    assert TracksAt(Origin(d, ms), g, ms', k);
    assert ms'[k].(text := "") == ms[k].(text := "");
    if ms'[k].id == g.id { AbsentId(g.rest, ms'[k]); }
  }

  lemma SteadIs(d: Doc, ms: seq<Mention>, x: Context, g: Doc, ms': seq<Mention>)
    requires After(d, ms, g, ms') && g.Cons?
    ensures Stead(d, ms, x, g) == InPlaceOf(g, ms', x, 0)
  {
    var k, s := Owner(d, ms, g.id), IndexOf(ms', g.id, g.name);
    if k.Some? {
      OwnerIs(d, ms, g, ms', k.value);
      IndexIsUnique(ms', k.value);
    } else if s.Some? {
      OwnerIs(d, ms, g, ms', s.value);
    }
  }

  lemma {:induction false} JoinsUpToIs(d: Doc, ms: seq<Mention>, x: Context, g: Doc, ms': seq<Mention>, b: nat,
      read: string)
    requires After(d, ms, g, ms') && b < |ms| && Replacement(ms'[b], x).None?
    ensures JoinsUpTo(d, ms, x, g, b, read)
            <==> read + Shown(g, ms', x, 0).lit == NBSP && IsTag(Shown(g, ms', x, 0), ms'[b])
  {
    if g.Cons? {
      OwnerIs(d, ms, g, ms', b);
      SteadIs(d, ms, x, g, ms');
      var r := InPlaceOf(g, ms', x, 0);
      if IsTag(g, ms'[b]) { IndexIsUnique(ms', b); }
      if r.Some? {
        AfterInside(d, ms, g, ms');
        JoinsUpToIs(d, ms, x, g.rest, ms', b, read + (g.lit + r.value));
        var rest := Shown(g.rest, ms', x, 0);
        assert read + (g.lit + r.value) + rest.lit == read + (g.lit + r.value + rest.lit);
      }
    }
  }

  lemma {:induction false} JoinedInIs(d: Doc, ms: seq<Mention>, x: Context, g: Doc, ms': seq<Mention>, s: nat)
    requires After(d, ms, g, ms') && KeptTwice(ms', x, s)
    ensures JoinedIn(d, ms, x, g, s) <==> HasPair(Shown(g, ms', x, 0), ms'[s], ms'[s + 1])
  {
    if g.Cons? {
      AfterInside(d, ms, g, ms');
      JoinedInIs(d, ms, x, g.rest, ms', s);
      OwnerIs(d, ms, g, ms', s);
      JoinsUpToIs(d, ms, x, g.rest, ms', s + 1, "");
      var rest := Shown(g.rest, ms', x, 0);
      assert "" + rest.lit == rest.lit;
      if IsTag(g, ms'[s]) { IndexIsUnique(ms', s); }
    }
  }

  lemma KeptTwiceIs(ms: seq<Mention>, ms': seq<Mention>, x: Context, s: nat)
    requires NamesGrow(ms, ms')
    ensures KeptTwice(ms, x, s) <==> KeptTwice(ms', x, s)
  {
    if s + 1 < |ms| {
      assert ms'[s].(text := "") == ms[s].(text := "") && ms'[s + 1].(text := "") == ms[s + 1].(text := "");
    }
  }

  /** What the first conversion leaves: a document without a tag to replace, in which exactly the rejoined
      mentions are unsettled. */
  lemma FirstConversion(d: Doc, ms: seq<Mention>, x: Context) returns (f: Doc, ms': seq<Mention>)
    requires Good(d) && Usable(ms) && TagFreeNames(x)
    ensures Convert(Content(Render(d), ms), x) == Content(Render(f), ms')
    ensures Good(f) && Usable(ms') && NoneToReplace(f, ms', x)
    ensures forall s: nat :: SettledAt(f, ms', s) <==> !Rejoins(d, ms, x, s)
  {
    var c := Content(Render(d), ms);
    var g := Glue(d, ms, 0, 1);
    ms' := Collapse(c).mentions;
    f := Shown(g, ms', x, 0);
    CollapseIsGlue(d, ms);
    OuterShortens(c, 0);
    ConvertIsWalk(d, ms, x);
    SubstituteOnDoc(g, ms', x, 0);
    SubstituteIsWalk(g, ms', x, 0);
    hide Convert, Collapse, Glue;
    forall s: nat ensures SettledAt(f, ms', s) <==> !Rejoins(d, ms, x, s) {
      UnsettledIsRejoined(d, ms, x, g, ms', s);
    }
  }

  lemma UnsettledIsRejoined(d: Doc, ms: seq<Mention>, x: Context, g: Doc, ms': seq<Mention>, s: nat)
    requires After(d, ms, g, ms') && NoneToReplace(Shown(g, ms', x, 0), ms', x)
    ensures SettledAt(Shown(g, ms', x, 0), ms', s) <==> !(KeptTwice(ms, x, s) && JoinedIn(d, ms, x, g, s))
  {
    var f := Shown(g, ms', x, 0);
    KeptTwiceIs(ms, ms', x, s);
    if KeptTwice(ms', x, s) {
      JoinedInIs(d, ms, x, g, ms', s);
    } else if s + 1 < |ms'| && HasPair(f, ms'[s], ms'[s + 1]) {
      PairHasTags(f, ms'[s], ms'[s + 1]);
    }
  }

  /** CONVERTED FOR GOOD. For every message with well-formed, distinct tags, distinct mention ids, tag-free
      names and fixed lookups: a second conversion leaves it alone, text and mentions, exactly when the
      first one does not rejoin two mentions, and otherwise shortens the text. */
  lemma ReconversionStableIff(d: Doc, ms: seq<Mention>, x: Context)
    requires Good(d) && Usable(ms) && TagFreeNames(x)
    ensures StableOn(d, ms, x) <==> !exists s: nat :: Rejoins(d, ms, x, s)
    ensures StableOn(d, ms, x) ==>
              var once := Convert(Content(Render(d), ms), x);
              Convert(once, x) == once
  {
    var f, ms' := FirstConversion(d, ms, x);
    SecondConversion(f, ms', x);
    hide Convert, Rejoins, SettledAt;
    if !AllSettled(f, ms') {
      var s: nat :| !SettledAt(f, ms', s);
      assert Rejoins(d, ms, x, s);
    } else {
      assert forall s: nat :: SettledAt(f, ms', s);
    }
  }

  // ----- which mentions are safe in every message -----

  /** Mention k is replaced by a part of the join, such as the empty text. */
  ghost predicate Crumbles(m: Mention, x: Context) {
    Replacement(m, x).Some? && Contains(NBSP, Replacement(m, x).value)
  }

  /** A list of mentions that can be rejoined in some message. */
  ghost predicate Hazard(ms: seq<Mention>, x: Context) {
    (exists s: nat :: KeptTwice(ms, x, s)) && (exists k :: 0 <= k < |ms| && Crumbles(ms[k], x))
  }

  /** A part of the join starts with one of its characters, and its beginnings are parts as well. */
  lemma PartsOfJoin(r: string, p: string)
    requires Contains(NBSP, r) && p <= r
    ensures Contains(NBSP, p)
    ensures r != "" ==> r[0] in NBSP
  {
    var at := Index(NBSP, r).value;
    PrefixOccurs(NBSP, r, p, at);
    hide Index, OccursAt;
    OccursMeansContains(NBSP, p, at);
  }

  /** The fragments are short: what an absorbing mention is replaced by is never one of them. */
  lemma GrownDoesNotCrumble(m: Mention, m': Mention, x: Context)
    requires m'.(text := "") == m.(text := "") && m.text <= m'.text
    requires Crumbles(m', x)
    ensures Crumbles(m, x)
  {
    var r := Replacement(m', x).value;
    PartsOfJoin(r, r);
    hide Contains;
    assert 'E' !in NBSP && '@' !in NBSP;
    if m.userId == "" {
      assert r == m'.text;
      PartsOfJoin(r, m.text);
      assert m.text != "" ==> m.text[0] == r[0];
    }
  }

  /** What has been read is a beginning of the join. */
  lemma {:induction false} ReadIsPrefix(d: Doc, ms: seq<Mention>, x: Context, g: Doc, b: nat, read: string)
    requires JoinsUpTo(d, ms, x, g, b, read)
    ensures read <= NBSP
  {
    if Owner(d, ms, g.id) != Some(b) {
      ReadIsPrefix(d, ms, x, g.rest, b, read + (g.lit + Stead(d, ms, x, g).value));
    }
  }

  lemma PartOfJoin(before: string, r: string)
    requires before + r <= NBSP
    ensures Contains(NBSP, r)
  {
    assert NBSP[|before|..|before| + |r|] == (before + r)[|before|..];
    OccursMeansContains(NBSP, r, |before|);
  }

  /** Mentions are rejoined only across a replacement that is itself a part of the join: side by side they
      would have been collapsed. */
  lemma {:induction false} RejoinNeedsFragment(d: Doc, ms: seq<Mention>, x: Context, g: Doc, ms': seq<Mention>, s: nat)
    requires After(d, ms, g, ms') && KeptTwice(ms, x, s) && JoinedIn(d, ms, x, g, s) && SettledAt(g, ms', s)
    ensures exists k :: 0 <= k < |ms| && Crumbles(ms[k], x)
  {
    AfterInside(d, ms, g, ms');
    if JoinedIn(d, ms, x, g.rest, s) {
      RejoinNeedsFragment(d, ms, x, g.rest, ms', s);
    } else {
      var h := g.rest;
      KeptTwiceIs(ms, ms', x, s);
      OwnerIs(d, ms, g, ms', s);
      OwnerIs(d, ms, h, ms', s + 1);
      assert "" + h.lit == h.lit;
      assert !IsPair(g, ms'[s], ms'[s + 1]);
      FirstReplacedCrumbles(d, ms, x, h, ms', s + 1);
    }
  }

  lemma FirstReplacedCrumbles(d: Doc, ms: seq<Mention>, x: Context, h: Doc, ms': seq<Mention>, b: nat)
    requires After(d, ms, h, ms') && JoinsUpTo(d, ms, x, h, b, "") && Owner(d, ms, h.id) != Some(b)
    ensures exists k :: 0 <= k < |ms| && Crumbles(ms[k], x)
  {
    var k, r := Owner(d, ms, h.id).value, Stead(d, ms, x, h).value;
    ReadIsPrefix(d, ms, x, h.rest, b, "" + (h.lit + r));
    assert "" + (h.lit + r) == h.lit + r;
    PartOfJoin(h.lit, r);
    OwnerIs(d, ms, h, ms', k);
    assert ms'[k].(text := "") == ms[k].(text := "");
    GrownDoesNotCrumble(ms[k], ms'[k], x);
  }

  /** Without the hazard no message is rejoined. */
  lemma NoHazardNoRejoin(d: Doc, ms: seq<Mention>, x: Context, s: nat)
    requires Good(d) && Usable(ms) && Rejoins(d, ms, x, s)
    ensures Hazard(ms, x)
  {
    var c := Content(Render(d), ms);
    CollapseIsGlue(d, ms);
    OuterShortens(c, 0);
    RejoinNeedsFragment(d, ms, x, Glue(d, ms, 0, 1), Collapse(c).mentions, s);
  }

  // ----- the hazard breaks some message -----

  lemma ConsIsGood(lit: string, id: int, name: string, rest: Doc)
    requires Clean(lit) && Lacks(name, '<') && Good(rest) && id !in Ids(rest)
    ensures Good(Cons(lit, id, name, rest)) && Ids(Cons(lit, id, name, rest)) == {id} + Ids(rest)
  {
  }

  /** Tag s, then tag k, then tag s + 1: what is left of a join around tag k. */
  function Trap(ms: seq<Mention>, s: nat, k: nat, before: string, after: string): Doc
    requires s + 1 < |ms| && k < |ms|
  {
    Cons("", ms[s].id, ms[s].text,
      Cons(before, ms[k].id, ms[k].text, Cons(after, ms[s + 1].id, ms[s + 1].text, End(""))))
  }

  /** Tag s joined to tag s + 1. */
  function Sprung(ms: seq<Mention>, s: nat): Doc
    requires s + 1 < |ms|
  {
    Cons("", ms[s].id, ms[s].text, Cons(NBSP, ms[s + 1].id, ms[s + 1].text, End("")))
  }

  lemma TrapIsSettled(ms: seq<Mention>, s: nat, k: nat, before: string, after: string)
    requires Usable(ms) && s + 1 < |ms| && k < |ms| && k != s && k != s + 1
    requires Lacks(before, '<') && Lacks(after, '<')
    ensures Good(Trap(ms, s, k, before, after))
    ensures forall t: nat :: SettledAt(Trap(ms, s, k, before, after), ms, t)
  {
    var d := Trap(ms, s, k, before, after);
    PlainIsClean("");
    PlainIsClean(before);
    PlainIsClean(after);
    var last, middle := d.rest.rest, d.rest;
    ConsIsGood(after, ms[s + 1].id, ms[s + 1].text, End(""));
    ConsIsGood(before, ms[k].id, ms[k].text, last);
    ConsIsGood("", ms[s].id, ms[s].text, middle);
    forall t: nat ensures SettledAt(d, ms, t) {
      if t + 1 < |ms| {
        var a, b := ms[t], ms[t + 1];
        assert HasPair(last, a, b) == IsPair(last, a, b) == false;
        assert HasPair(d.rest, a, b) == IsPair(d.rest, a, b);
        assert HasPair(d, a, b) == (IsPair(d, a, b) || IsPair(d.rest, a, b));
      }
    }
  }

  /** The first conversion only replaces tag k, and so joins the other two. */
  lemma TrapSprings(ms: seq<Mention>, x: Context, s: nat, k: nat, before: string, after: string)
    requires Usable(ms) && TagFreeNames(x) && KeptTwice(ms, x, s) && k < |ms| && Replacement(ms[k], x).Some?
    requires before + Replacement(ms[k], x).value + after == NBSP
    ensures k != s && k != s + 1
    ensures SubstituteDoc(Trap(ms, s, k, before, after), ms, x, 0) == Sprung(ms, s)
  {
    var d := Trap(ms, s, k, before, after);
    var r := Replacement(ms[k], x).value;
    assert k != s && k != s + 1;
    forall t: nat | t < |ms| && t != k && Replacement(ms[t], x).Some?
      ensures !HasTag(d, ms[t]) && !HasTag(Sprung(ms, s), ms[t])
    {
      OnlyThree(ms, s, k, before, after, t);
    }
    SubstituteOnly(d, ms, x, 0, k);
    assert !IsTag(d, ms[k]) && IsTag(d.rest, ms[k]);
    assert ReplaceTag(d.rest, ms[k], r) == Sprung(ms, s).rest;
    SubstitutedStays(Sprung(ms, s), ms, x, k + 1);
  }

  lemma OnlyThree(ms: seq<Mention>, s: nat, k: nat, before: string, after: string, t: nat)
    requires Usable(ms) && s + 1 < |ms| && k < |ms| && t < |ms|
    ensures HasTag(Trap(ms, s, k, before, after), ms[t]) ==> t in {s, k, s + 1}
    ensures HasTag(Sprung(ms, s), ms[t]) ==> t in {s, s + 1}
  {
    var d := Trap(ms, s, k, before, after);
    var m, last := ms[t], d.rest.rest;
    assert HasTag(last, m) == IsTag(last, m);
    assert HasTag(d.rest, m) == (IsTag(d.rest, m) || IsTag(last, m));
    var e := Sprung(ms, s);
    assert HasTag(e.rest, m) == IsTag(e.rest, m);
  }

  /** Once joined, the two are collapsed by the second conversion. */
  lemma SprungIsNotStable(ms: seq<Mention>, x: Context, s: nat)
    requires Usable(ms) && TagFreeNames(x) && KeptTwice(ms, x, s)
    ensures |Convert(Content(Render(Sprung(ms, s)), ms), x).text| < |Render(Sprung(ms, s))|
  {
    var d := Sprung(ms, s);
    PlainIsClean("");
    PlainIsClean(NBSP);
    ConsIsGood(NBSP, ms[s + 1].id, ms[s + 1].text, End(""));
    ConsIsGood("", ms[s].id, ms[s].text, d.rest);
    assert IsPair(d, ms[s], ms[s + 1]);
    assert !SettledAt(d, ms, s);
    forall t: nat | t < |ms| && HasTag(d, ms[t]) ensures Replacement(ms[t], x).None? {
      OnlyThree(ms, s, s, "", "", t);
    }
    SecondConversion(d, ms, x);
  }

  lemma TrapConverts(ms: seq<Mention>, x: Context, s: nat, k: nat, before: string, after: string)
    requires Usable(ms) && TagFreeNames(x) && KeptTwice(ms, x, s) && k < |ms| && Replacement(ms[k], x).Some?
    requires before + Replacement(ms[k], x).value + after == NBSP && Lacks(before, '<') && Lacks(after, '<')
    ensures Good(Trap(ms, s, k, before, after))
    ensures Convert(Content(Render(Trap(ms, s, k, before, after)), ms), x) == Content(Render(Sprung(ms, s)), ms)
  {
    var d := Trap(ms, s, k, before, after);
    TrapSprings(ms, x, s, k, before, after);
    TrapIsSettled(ms, s, k, before, after);
    SettledStays(d, ms, 0);
    SubstituteOnDoc(d, ms, x, 0);
  }

  lemma HazardBreaks(ms: seq<Mention>, x: Context) returns (d: Doc)
    requires Usable(ms) && TagFreeNames(x) && Hazard(ms, x)
    ensures Good(d) && !StableOn(d, ms, x)
  {
    hide Convert, Render;
    var s: nat :| KeptTwice(ms, x, s);
    var k :| 0 <= k < |ms| && Crumbles(ms[k], x);
    var r := Replacement(ms[k], x).value;
    var at := Index(NBSP, r).value;
    OccurrenceSplits(NBSP, r, at);
    var before, after := NBSP[..at], NBSP[at + |r|..];
    assert Lacks(NBSP, '<') && Lacks(before, '<') && Lacks(after, '<');
    d := Trap(ms, s, k, before, after);
    TrapConverts(ms, x, s, k, before, after);
    SprungIsNotStable(ms, x, s);
  }

  /** Without the hazard a second conversion changes neither text nor mentions. */
  lemma ReconversionStays(d: Doc, ms: seq<Mention>, x: Context)
    requires Good(d) && Usable(ms) && TagFreeNames(x) && !Hazard(ms, x)
    ensures StableOn(d, ms, x)
    ensures var once := Convert(Content(Render(d), ms), x);
            Convert(once, x) == once
  {
    ReconversionStableIff(d, ms, x);
    hide StableOn, Convert, Rejoins, Hazard;
    forall s: nat ensures !Rejoins(d, ms, x, s) {
      if Rejoins(d, ms, x, s) { NoHazardNoRejoin(d, ms, x, s); }
    }
  }

  /** WHICH MENTIONS ARE SAFE. With distinct mention ids, tag-free names and fixed lookups, all messages
      with well-formed, distinct tags convert the same way again exactly when the mentions carry no
      hazard: no replacement is a part of the join, or no two consecutive mentions of one user are kept. */
  lemma SafeMentionsIff(ms: seq<Mention>, x: Context)
    requires Usable(ms) && TagFreeNames(x)
    ensures (forall d :: Good(d) ==> StableOn(d, ms, x)) <==> !Hazard(ms, x)
  {
    hide StableOn, Convert;
    if Hazard(ms, x) {
      var d := HazardBreaks(ms, x);
    } else {
      forall d | Good(d) ensures StableOn(d, ms, x) {
        ReconversionStays(d, ms, x);
      }
    }
  }

  /** There are hazardous mentions: two words of a user that is not known here, and an empty name. */
  lemma HazardExists() returns (ms: seq<Mention>, x: Context)
    ensures Usable(ms) && TagFreeNames(x) && Hazard(ms, x)
    ensures StableOn(End(""), ms, x)
  {
    ms := [Mention(0, "u", "Ada", ""), Mention(1, "u", "Lovelace", ""), Mention(2, "", "", "chat")];
    x := Context("chat", "", u => None);
    assert KeptTwice(ms, x, 0);
    assert NBSP[0..0] == "";
    OccursMeansContains(NBSP, "", 0);
    assert Replacement(ms[2], x) == Some("");
    assert Crumbles(ms[2], x);
    PlainIsClean("");
    ReconversionStableIff(End(""), ms, x);
    assert Glue(End(""), ms, 0, 1) == End("");
  }
}
