/**
 What a reader sees of a text: mention tags are not shown, a non-breaking space is a space. Collapsing
 mentions never changes it, whatever the text.
 */
module MentionVisible {
  import opened Text
  import opened Mentions

  const CLOSE := "</at>"
  const OPEN := "<at id=\""
  const OPEN_END := "\">"

  /** The length of the numeral at the start of a text. */
  function NumeralLength(text: string): (n: nat)
    ensures n <= |text| && IsNumeral(text[..n])
  {
    if text != "" && IsNumeral([text[0]]) then
      var n := NumeralLength(text[1..]);
      assert text[..n + 1] == [text[0]] + text[1..][..n];
      n + 1
    else 0
  }

  /** The length of the opening tag at the start of a text, or 0. */
  function OpenLength(text: string): (n: nat)
    ensures n <= |text|
  {
    if !(OPEN <= text) then 0
    else
      var n := |OPEN| + NumeralLength(text[|OPEN|..]);
      if OPEN_END <= text[n..] then n + |OPEN_END| else 0
  }

  /** The length of the tag or entity at the start of a text, or 0, ... */
  function TokenLength(text: string): (n: nat)
    ensures n <= |text|
  {
    if CLOSE <= text then |CLOSE| else if NBSP <= text then |NBSP| else OpenLength(text)
  }

  /** What is read at once from the start of a text: a tag, an entity or a character, ... */
  function StepLength(text: string): (n: nat)
    requires text != ""
    ensures 0 < n <= |text|
  {
    if TokenLength(text) > 0 then TokenLength(text) else 1
  }

  /** ... and what is shown for it. */
  function Shown(text: string): string
    requires text != ""
  {
    if NBSP <= text then " " else if TokenLength(text) > 0 then "" else [text[0]]
  }

  function Visible(text: string): string
    decreases |text|
  {
    if text == "" then "" else Shown(text) + Visible(text[StepLength(text)..])
  }

  /** Whatever starts in `a` ends there when `b` follows. */
  predicate Apart(a: string, b: string) {
    b == "" || b[0] == '<' || (b[0] == ' ' && Lacks(a, '<'))
  }

  /** A literal that starts in `a` lies in `a`. */
  lemma LiteralStays(a: string, b: string, literal: string)
    requires a != "" && literal != ""
    requires b == "" || b[0] !in literal[1..]
    ensures literal <= a + b <==> literal <= a
  {
    var text := a + b;
    if |literal| <= |a| {
      assert text[..|literal|] == a[..|literal|];
    } else if b != "" {
      assert text[|a|] == b[0];
      assert literal[|a|] == literal[1..][|a| - 1] && literal[1..][|a| - 1] in literal[1..];
      assert literal[|a|] != text[|a|];
    }
  }

  lemma {:induction false} NumeralStays(a: string, b: string)
    requires b == "" || !IsNumeral([b[0]])
    ensures NumeralLength(a + b) == NumeralLength(a)
  {
    if a == "" {
      assert a + b == b;
    } else {
      assert (a + b)[1..] == a[1..] + b;
      NumeralStays(a[1..], b);
    }
  }

  lemma NotNumeral(c: char)
    ensures IsNumeral([c]) <==> c == '-' || '0' <= c <= '9'
  {
    assert c in [c];
  }

  lemma OpenStays(a: string, b: string)
    requires a != "" && Apart(a, b)
    ensures OpenLength(a + b) == OpenLength(a)
  {
    hide NumeralLength;
    if a[0] != '<' {
      assert (a + b)[0] == a[0];
    } else {
      assert a[0] in a;
      LiteralStays(a, b, OPEN);
      if OPEN <= a {
        var after := a[|OPEN|..];
        assert (a + b)[|OPEN|..] == after + b;
        if b != "" { NotNumeral(b[0]); }
        NumeralStays(after, b);
        var n := |OPEN| + NumeralLength(after);
        assert (a + b)[n..] == a[n..] + b;
        if a[n..] != "" {
          LiteralStays(a[n..], b, OPEN_END);
        } else {
          assert a[n..] + b == b;
        }
      }
    }
  }

  lemma TokenStays(a: string, b: string)
    requires a != "" && Apart(a, b)
    ensures StepLength(a + b) == StepLength(a) && Shown(a + b) == Shown(a)
  {
    LiteralStays(a, b, CLOSE);
    LiteralStays(a, b, NBSP);
    OpenStays(a, b);
  }

  /** Where nothing can straddle the seam, the two sides are shown one after the other. */
  lemma {:induction false} VisibleAppend(a: string, b: string)
    requires Apart(a, b)
    ensures Visible(a + b) == Visible(a) + Visible(b)
    decreases |a|
  {
    hide Apart, StepLength, Shown;
    if a == "" {
      assert a + b == b;
    } else {
      TokenStays(a, b);
      var n := StepLength(a);
      assert (a + b)[n..] == a[n..] + b;
      ApartLater(a, b, n);
      VisibleAppend(a[n..], b);
      assert Shown(a) + (Visible(a[n..]) + Visible(b)) == Shown(a) + Visible(a[n..]) + Visible(b);
    }
  }

  lemma ApartLater(a: string, b: string, n: nat)
    requires Apart(a, b) && n <= |a|
    ensures Apart(a[n..], b)
  {
    forall c | c in a[n..] ensures c in a {}
  }

  lemma {:induction false} NumeralIsLong(n: string, after: string)
    requires IsNumeral(n) && after != "" && !IsNumeral([after[0]])
    ensures NumeralLength(n + after) == |n|
  {
    if n == "" {
      assert n + after == after;
    } else {
      assert (n + after)[1..] == n[1..] + after;
      assert n[0] in n;
      NotNumeral(n[0]);
      forall c | c in n[1..] ensures c in n {}
      NumeralIsLong(n[1..], after);
    }
  }

  /** An opening tag is not shown. */
  lemma OpenIsHidden(id: int, after: string)
    ensures Visible(OPEN + (Decimal(id) + (OPEN_END + after))) == Visible(after)
  {
    DecimalSign(id);
    var n := Decimal(id);
    var text := OPEN + (n + (OPEN_END + after));
    assert text[|OPEN|..] == n + (OPEN_END + after);
    NotNumeral('"');
    NumeralIsLong(n, OPEN_END + after);
    assert text[|OPEN| + |n|..] == OPEN_END + after;
    assert text[0] == '<' && text[1] == 'a';
    assert TokenLength(text) == |OPEN| + |n| + 2;
    assert text[|OPEN| + |n| + 2..] == after;
    assert Visible(text) == "" + Visible(after);
  }

  lemma CloseIsHidden(after: string)
    ensures Visible(CLOSE + after) == Visible(after)
  {
    var text := CLOSE + after;
    assert text[0] == '<';
    assert TokenLength(text) == 5 && text[5..] == after;
    assert Visible(text) == "" + Visible(after);
  }

  lemma JoinIsSpace(after: string)
    ensures Visible(NBSP + after) == " " + Visible(after) == Visible(" " + after)
  {
    var text := NBSP + after;
    assert text[0] == '&';
    assert TokenLength(text) == 6 && text[6..] == after;
    var spaced := " " + after;
    assert spaced[0] == ' ' && spaced[1..] == after;
    assert TokenLength(spaced) == 0;
  }

  /** A tag shows its name. */
  lemma TagShowsName(m: Mention, after: string)
    requires Lacks(m.text, '<')
    ensures Visible(TagOf(m) + after) == Visible(m.text) + Visible(after)
  {
    var rest := CLOSE + after;
    assert TagOf(m) + after == OPEN + (Decimal(m.id) + (OPEN_END + (m.text + rest)));
    OpenIsHidden(m.id, m.text + rest);
    VisibleAppend(m.text, rest);
    CloseIsHidden(after);
  }

  lemma JoinedNamesShow(a: string, b: string)
    requires Lacks(a, '<')
    ensures Visible(a + " " + b) == Visible(a) + (" " + Visible(b))
  {
    assert a + " " + b == a + (" " + b);
    VisibleAppend(a, " " + b);
    JoinIsSpace(b);
  }

  lemma PairIsNested(a: Mention, b: Mention, after: string)
    ensures Pair(a, b) + after == TagOf(a) + (NBSP + (TagOf(b) + after))
  {
  }

  lemma PairShows(a: Mention, b: Mention, after: string)
    requires Lacks(a.text, '<') && Lacks(b.text, '<')
    ensures Visible(Pair(a, b) + after) == Visible(TagOf(Absorb(a, b)) + after)
  {
    PairIsNested(a, b, after);
    TagShowsName(a, NBSP + (TagOf(b) + after));
    JoinIsSpace(TagOf(b) + after);
    TagShowsName(b, after);
    TagShowsName(Absorb(a, b), after);
    JoinedNamesShow(a.text, b.text);
    Regroup(Visible(a.text), Visible(b.text), Visible(after));
  }

  lemma Regroup(a: string, b: string, c: string)
    ensures a + (" " + (b + c)) == (a + (" " + b)) + c
  {
  }

  lemma AbsorbedShowsSame(c: Content, i: nat, j: nat)
    requires i < j < |c.mentions| && Absorbs(c, i, j)
    requires Lacks(c.mentions[i].text, '<') && Lacks(c.mentions[j].text, '<')
    ensures Visible(Absorbed(c, i, j).text) == Visible(c.text)
  {
    hide Contains, ReplaceFirst, Visible, Pair, TagOf;
    var a, b := c.mentions[i], c.mentions[j];
    var before, after := ReplaceSplits(c.text, Pair(a, b), TagOf(Absorb(a, b)));
    assert c.text == before + (Pair(a, b) + after);
    assert Absorbed(c, i, j).text == before + (TagOf(Absorb(a, b)) + after);
    StartsWithBracket(a, b, after);
    VisibleAppend(before, Pair(a, b) + after);
    VisibleAppend(before, TagOf(Absorb(a, b)) + after);
    PairShows(a, b, after);
  }

  lemma StartsWithBracket(a: Mention, b: Mention, after: string)
    ensures (Pair(a, b) + after)[0] == '<' && (TagOf(Absorb(a, b)) + after)[0] == '<'
  {
    assert TagOf(a)[0] == '<' && TagOf(Absorb(a, b))[0] == '<';
  }

  ghost predicate TagFree(ms: seq<Mention>) {
    forall k :: 0 <= k < |ms| ==> Lacks(ms[k].text, '<')
  }

  lemma AbsorbKeepsTagFree(ms: seq<Mention>, i: nat, j: nat)
    requires TagFree(ms) && i < |ms| && j < |ms|
    ensures TagFree(ms[i := Absorb(ms[i], ms[j])])
  {
  }

  lemma {:induction false} InnerShowsSame(c: Content, i: nat, j: nat)
    requires TagFree(c.mentions) && i < j && i < |c.mentions|
    ensures Visible(Inner(c, i, j).0.text) == Visible(c.text) && TagFree(Inner(c, i, j).0.mentions)
    decreases |c.mentions| - j
  {
    hide Contains, ReplaceFirst, Visible;
    if Absorbs(c, i, j) {
      AbsorbedShowsSame(c, i, j);
      AbsorbKeepsTagFree(c.mentions, i, j);
      InnerShowsSame(Absorbed(c, i, j), i, j + 1);
    }
  }

  /** THE READER SEES THE SAME. Collapsing any text, with any mentions whose names hold no tag, keeps
      what is shown of it. */
  lemma {:induction false} OuterShowsSame(c: Content, i: nat)
    requires TagFree(c.mentions)
    ensures Visible(Outer(c, i).text) == Visible(c.text)
    decreases |c.mentions| - i
  {
    if i < |c.mentions| {
      var (c', next) := Inner(c, i, i + 1);
      InnerShowsSame(c, i, i + 1);
      OuterShowsSame(c', next);
    }
  }
}
