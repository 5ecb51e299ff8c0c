/**
 What the whole conversion comes to: glue the document, then go through it once, putting in place of
 every tag of a mention that mention's replacement and leaving every other tag as it stands.

 The program instead searches the text from the start for every mention in turn.
 */
module MentionWalk {
  import opened Common
  import opened Text
  import opened Mentions
  import opened MentionDocs
  import opened MentionCollapse
  import opened MentionSubstitution
  import opened MentionGlue

  /** What stands in place of the first tag of the document, when mentions from k on are replaced. */
  ghost function InPlaceOf(d: Doc, ms: seq<Mention>, x: Context, k: nat): Option<string>
    requires d.Cons?
  {
    var s := IndexOf(ms, d.id, d.name);
    if s.Some? && k <= s.value then Replacement(ms[s.value], x) else None
  }

  ghost function Shown(d: Doc, ms: seq<Mention>, x: Context, k: nat): Doc {
    if d.End? then d
    else
      var r, rest := InPlaceOf(d, ms, x, k), Shown(d.rest, ms, x, k);
      if r.Some? then Prepend(d.lit + r.value, rest) else d.(rest := rest)
  }

  lemma PrependTwice(a: string, b: string, d: Doc)
    ensures Prepend(a, Prepend(b, d)) == Prepend(a + b, d)
  {
    assert a + (b + d.lit) == a + b + d.lit;
  }

  lemma ShownPrepend(lit: string, d: Doc, ms: seq<Mention>, x: Context, k: nat)
    ensures Shown(Prepend(lit, d), ms, x, k) == Prepend(lit, Shown(d, ms, x, k))
  {
    if d.Cons? {
      var r, rest := InPlaceOf(d, ms, x, k), Shown(d.rest, ms, x, k);
      assert InPlaceOf(Prepend(lit, d), ms, x, k) == r;
      if r.Some? {
        PrependTwice(lit, d.lit + r.value, rest);
        assert lit + d.lit + r.value == lit + (d.lit + r.value);
      }
    }
  }

  /** Only the tag of mention k is treated differently by k and by k + 1. */
  lemma InPlaceNext(d: Doc, ms: seq<Mention>, x: Context, k: nat)
    requires Usable(ms) && d.Cons? && k < |ms|
    ensures InPlaceOf(d, ms, x, k) == if IsTag(d, ms[k]) then Replacement(ms[k], x) else InPlaceOf(d, ms, x, k + 1)
    ensures IsTag(d, ms[k]) ==> InPlaceOf(d, ms, x, k + 1) == None
  {
    if IsTag(d, ms[k]) { IndexIsUnique(ms, k); }
  }

  lemma {:induction false} ShownWithout(d: Doc, ms: seq<Mention>, x: Context, k: nat)
    requires Usable(ms) && k < |ms| && (!HasTag(d, ms[k]) || Replacement(ms[k], x).None?)
    ensures Shown(d, ms, x, k + 1) == Shown(d, ms, x, k)
  {
    if d.Cons? {
      InPlaceNext(d, ms, x, k);
      ShownWithout(d.rest, ms, x, k);
    }
  }

  lemma {:induction false} ShownReplaced(d: Doc, ms: seq<Mention>, x: Context, k: nat)
    requires Usable(ms) && DistinctIds(d) && k < |ms| && Replacement(ms[k], x).Some?
    ensures Shown(ReplaceTag(d, ms[k], Replacement(ms[k], x).value), ms, x, k + 1) == Shown(d, ms, x, k)
  {
    if d.Cons? {
      var r := Replacement(ms[k], x).value;
      InPlaceNext(d, ms, x, k);
      if IsTag(d, ms[k]) {
        TagOnlyHere(d, ms[k]);
        ShownWithout(d.rest, ms, x, k);
        ShownPrepend(d.lit + r, d.rest, ms, x, k + 1);
      } else {
        ShownReplaced(d.rest, ms, x, k);
        assert InPlaceOf(ReplaceTag(d, ms[k], r), ms, x, k + 1) == InPlaceOf(d, ms, x, k + 1);
      }
    }
  }

  lemma TagOnlyHere(d: Doc, m: Mention)
    requires DistinctIds(d) && IsTag(d, m)
    ensures !HasTag(d.rest, m)
  {
    if HasTag(d.rest, m) { TagHasId(d.rest, m); }
  }

  lemma {:induction false} ShownNothing(d: Doc, ms: seq<Mention>, x: Context)
    ensures Shown(d, ms, x, |ms|) == d
  {
    if d.Cons? { ShownNothing(d.rest, ms, x); }
  }

  /** Replacing the mentions one after the other is going through the document once. */
  lemma {:induction false} SubstituteIsWalk(d: Doc, ms: seq<Mention>, x: Context, k: nat)
    requires Good(d) && Usable(ms) && TagFreeNames(x) && k <= |ms|
    ensures SubstituteDoc(d, ms, x, k) == Shown(d, ms, x, k)
    ensures Substitute(Content(Render(d), ms), x, k) == Render(Shown(d, ms, x, k))
    decreases |ms| - k
  {
    SubstituteOnDoc(d, ms, x, k);
    if k == |ms| {
      ShownNothing(d, ms, x);
    } else {
      SubstituteOneOnDoc(d, ms[k], x);
      SubstituteIsWalk(SubstituteDocOne(d, ms[k], x), ms, x, k + 1);
      if Replacement(ms[k], x).Some? { ShownReplaced(d, ms, x, k); } else { ShownWithout(d, ms, x, k); }
    }
  }

  /** THE WHOLE CONVERSION. For every message with well-formed, distinct tags and mentions with distinct
      ids and tag-free names, the converted text is the glued document with the tags of its mentions
      replaced in one walk. */
  lemma ConvertIsWalk(d: Doc, ms: seq<Mention>, x: Context)
    requires Good(d) && Usable(ms) && TagFreeNames(x)
    ensures var collapsed := Collapse(Content(Render(d), ms)).mentions;
            Convert(Content(Render(d), ms), x)
            == Content(Render(Shown(Glue(d, ms, 0, 1), collapsed, x, 0)), collapsed)
  {
    CollapseIsGlue(d, ms);
    SubstituteIsWalk(Glue(d, ms, 0, 1), Collapse(Content(Render(d), ms)).mentions, x, 0);
  }

  // ----- what a tag becomes -----

  lemma {:induction false} ShownBefore(p: Doc, d: Doc, ms: seq<Mention>, x: Context, k: nat)
    ensures Render(Shown(Before(p, d), ms, x, k)) == Render(Shown(p, ms, x, k)) + Render(Shown(d, ms, x, k))
  {
    if p.End? {
      ShownPrepend(p.lit, d, ms, x, k);
      RenderPrepend(p.lit, Shown(d, ms, x, k));
    } else {
      ShownBefore(p.rest, d, ms, x, k);
      var whole, r := Before(p, d), InPlaceOf(p, ms, x, k);
      assert whole == p.(rest := Before(p.rest, d)) && InPlaceOf(whole, ms, x, k) == r;
      ShownCons(p, ms, x, k);
      ShownCons(whole, ms, x, k);
      hide Shown, Render, InPlaceOf, Before;
      Regroup(p.lit, if r.Some? then r.value else Tag(p.id, p.name), Render(Shown(p.rest, ms, x, k)),
              Render(Shown(d, ms, x, k)));
    }
  }

  lemma Regroup(a: string, b: string, c: string, d: string)
    ensures a + (b + (c + d)) == a + (b + c) + d
  {
  }

  lemma ShownCons(d: Doc, ms: seq<Mention>, x: Context, k: nat)
    requires d.Cons?
    ensures var r := InPlaceOf(d, ms, x, k);
            Render(Shown(d, ms, x, k))
            == d.lit + ((if r.Some? then r.value else Tag(d.id, d.name)) + Render(Shown(d.rest, ms, x, k)))
  {
    var r := InPlaceOf(d, ms, x, k);
    if r.Some? { RenderPrepend(d.lit + r.value, Shown(d.rest, ms, x, k)); }
  }

  /** What the tag of a mention is to read as: a known user by the user name, an unknown one as it stands, the
      whole chat, the channel, and anything else by its plain name. */
  predicate ReadsAs(m: Mention, x: Context, shown: string) {
    && (m.userId != "" && x.userName(m.userId).Some? ==> shown == "@" + x.userName(m.userId).value)
    && (m.userId != "" && x.userName(m.userId).None? ==> shown == TagOf(m))
    && (m.userId == "" && m.text == "Everyone" && m.conversationId == x.chatId ==> shown == "@all")
    && (m.userId == "" && m.conversationId == x.channelId && !(m.text == "Everyone" && m.conversationId == x.chatId)
        ==> shown == "@channel")
    && (m.userId == "" && m.conversationId != x.channelId && !(m.text == "Everyone" && m.conversationId == x.chatId)
        ==> shown == m.text)
  }

  lemma TagReadsAs(tag: Doc, ms: seq<Mention>, x: Context) returns (shown: string)
    requires Usable(ms) && tag.Cons?
    ensures Render(Shown(tag, ms, x, 0)) == tag.lit + (shown + Render(Shown(tag.rest, ms, x, 0)))
    ensures forall m :: m in ms && IsTag(tag, m) ==> ReadsAs(m, x, shown)
    ensures (forall m :: m in ms ==> !IsTag(tag, m)) ==> shown == Tag(tag.id, tag.name)
  {
    ShownCons(tag, ms, x, 0);
    var r := InPlaceOf(tag, ms, x, 0);
    shown := if r.Some? then r.value else Tag(tag.id, tag.name);
    var s := IndexOf(ms, tag.id, tag.name);
    if s.Some? { assert ms[s.value] in ms && IsTag(tag, ms[s.value]); }
    forall m | m in ms && IsTag(tag, m) ensures ReadsAs(m, x, shown) {
      var k :| 0 <= k < |ms| && ms[k] == m;
      IndexIsUnique(ms, k);
    }
  }

  /** EVERY TAG. A tag of the glued document stands in the converted text as its mention is to be read, or
      unchanged if it belongs to none; what stands before and after it is converted independently of it. */
  lemma EveryTagReadsAs(d: Doc, ms: seq<Mention>, x: Context, p: Doc, tag: Doc) returns (shown: string)
    requires Good(d) && Usable(ms) && TagFreeNames(x)
    requires tag.Cons? && Glue(d, ms, 0, 1) == Before(p, tag)
    ensures var converted := Convert(Content(Render(d), ms), x);
            && converted.text == Render(Shown(p, converted.mentions, x, 0)) + tag.lit + shown
                                 + Render(Shown(tag.rest, converted.mentions, x, 0))
            && (forall m :: m in converted.mentions && IsTag(tag, m) ==> ReadsAs(m, x, shown))
            && ((forall m :: m in converted.mentions ==> !IsTag(tag, m)) ==> shown == Tag(tag.id, tag.name))
  {
    hide Convert, Collapse, Shown, Render, Glue, Before, Good, TagFreeNames, ReadsAs, Usable;
    var cs := Collapse(Content(Render(d), ms)).mentions;
    assert Usable(cs) by { CollapseIsGlue(d, ms); }
    ConvertIsWalk(d, ms, x);
    ShownBefore(p, tag, cs, x, 0);
    shown := TagReadsAs(tag, cs, x);
    var left, right := Render(Shown(p, cs, x, 0)), Render(Shown(tag.rest, cs, x, 0));
    assert left + (tag.lit + (shown + right)) == left + tag.lit + shown + right;
  }

  /** ONE TAG. In a message with a single tag, of any of the mentions, the text around it stays and the tag
      becomes what it is to be read as. */
  lemma OneTagReadsAs(before: string, after: string, ms: seq<Mention>, k: nat, x: Context) returns (shown: string)
    requires Clean(before) && Clean(after) && Usable(ms) && k < |ms| && TagFreeNames(x)
    ensures ReadsAs(ms[k], x, shown)
    ensures Convert(Content(before + TagOf(ms[k]) + after, ms), x).text == before + shown + after
  {
    var d := Cons(before, ms[k].id, ms[k].text, End(after));
    assert Render(d) == before + TagOf(ms[k]) + after by { assert Render(d.rest) == after; }
    assert Good(d) by {
      assert Lacks(ms[k].text, '<') && WellFormed(d.rest);
      assert Ids(d.rest) == {} && DistinctIds(d.rest);
    }
    IndexIsUnique(ms, k);
    CollapseOfOne(d, ms);
    ConvertIsWalk(d, ms, x);
    shown := TagReadsAs(d, ms, x);
    assert ms[k] in ms && IsTag(d, ms[k]);
    hide Convert, Collapse, Clean, ReadsAs, Glue;
    assert Render(Shown(End(after), ms, x, 0)) == after;
    assert before + (shown + after) == before + shown + after;
  }

  /** A single tag has nothing to swallow. */
  lemma GlueOfOne(d: Doc, ms: seq<Mention>)
    requires d.Cons? && d.rest.End?
    ensures Glue(d, ms, 0, 1) == d
  {
    assert Glue(d.rest, ms, 0, 1) == d.rest;
    var s := IndexOf(ms, d.id, d.name);
    if s.Some? {
      assert Chain(d.rest, ms, ms[s.value].userId, d.name, NextOf(s.value, 0, 1)) == (d.name, d.rest);
    }
  }

  lemma CollapseOfOne(d: Doc, ms: seq<Mention>)
    requires Good(d) && Usable(ms) && d.Cons? && d.rest.End?
    ensures Glue(d, ms, 0, 1) == d
    ensures Collapse(Content(Render(d), ms)) == Content(Render(d), ms)
  {
    GlueOfOne(d, ms);
    CollapseIsGlue(d, ms);
    hide Render, Glue, Outer;
    OuterShortens(Content(Render(d), ms), 0);
  }
}
