/**
 Message texts as documents: stretches of text with mention tags between them. On documents, finding
 and replacing a tag, or two tags joined by a non-breaking space, is what the string operations of the
 conversion do on the text.
 */
module MentionDocs {
  import opened Text
  import opened Mentions

  const TAG_START := "<at "

  datatype Doc = End(lit: string) | Cons(lit: string, id: int, name: string, rest: Doc)

  function Render(d: Doc): string {
    match d
    case End(lit) => lit
    case Cons(lit, id, name, rest) => lit + Tag(id, name) + Render(rest)
  }

  /** Text without a tag in it, and which does not end in the beginning of one. */
  ghost predicate Clean(lit: string) {
    forall k :: 0 <= k < |lit| ==> !(TAG_START <= lit[k..]) && !(lit[k..] <= TAG_START)
  }

  ghost predicate WellFormed(d: Doc) {
    Clean(d.lit) && (d.Cons? ==> Lacks(d.name, '<') && WellFormed(d.rest))
  }

  function Ids(d: Doc): set<int> {
    if d.End? then {} else {d.id} + Ids(d.rest)
  }

  predicate DistinctIds(d: Doc) {
    d.Cons? ==> d.id !in Ids(d.rest) && DistinctIds(d.rest)
  }

  ghost predicate Good(d: Doc) {
    WellFormed(d) && DistinctIds(d)
  }

  function Prepend(lit: string, d: Doc): Doc {
    d.(lit := lit + d.lit)
  }

  predicate IsTag(d: Doc, m: Mention) {
    d.Cons? && d.id == m.id && d.name == m.text
  }

  predicate HasTag(d: Doc, m: Mention) {
    d.Cons? && (IsTag(d, m) || HasTag(d.rest, m))
  }

  function ReplaceTag(d: Doc, m: Mention, r: string): Doc {
    if d.End? then d
    else if IsTag(d, m) then Prepend(d.lit + r, d.rest)
    else d.(rest := ReplaceTag(d.rest, m, r))
  }

  predicate IsPair(d: Doc, a: Mention, b: Mention) {
    IsTag(d, a) && d.rest.lit == NBSP && IsTag(d.rest, b)
  }

  predicate HasPair(d: Doc, a: Mention, b: Mention) {
    d.Cons? && (IsPair(d, a, b) || HasPair(d.rest, a, b))
  }

  function MergePair(d: Doc, a: Mention, b: Mention): Doc {
    if d.End? then d
    else if IsPair(d, a, b) then Cons(d.lit, a.id, Absorb(a, b).text, d.rest.rest)
    else d.(rest := MergePair(d.rest, a, b))
  }

  // ----- clean text -----

  lemma PlainIsClean(lit: string)
    requires Lacks(lit, '<')
    ensures Clean(lit)
  {
    forall k | 0 <= k < |lit| ensures !(TAG_START <= lit[k..]) && !(lit[k..] <= TAG_START) {
      assert lit[k..][0] == lit[k] && lit[k] in lit;
    }
  }

  lemma CleanAppend(a: string, b: string)
    requires Clean(a) && Clean(b)
    ensures Clean(a + b)
  {
    var c := a + b;
    forall k | 0 <= k < |c| ensures !(TAG_START <= c[k..]) && !(c[k..] <= TAG_START) {
      if k < |a| {
        assert c[k..] == a[k..] + b;
      } else {
        assert c[k..] == b[k - |a|..];
      }
    }
  }

  lemma CleanTail(tail: string, after: string)
    requires !(TAG_START <= tail) && !(tail <= TAG_START)
    ensures !(TAG_START <= tail + after)
  {
    if |tail| >= |TAG_START| {
      assert tail[..|TAG_START|] == (tail + after)[..|TAG_START|];
    } else {
      assert tail == (tail + after)[..|tail|];
    }
  }

  lemma OccursMeansPrefix(text: string, pattern: string, k: nat)
    requires k <= |text|
    ensures OccursAt(text, pattern, k) <==> pattern <= text[k..]
  {
    if k + |pattern| <= |text| {
      assert text[k..k + |pattern|] == text[k..][..|pattern|];
    }
  }

  /** No tag starts inside clean text, whatever follows it. */
  lemma CleanSkips(lit: string, after: string, pattern: string, k: nat)
    requires Clean(lit) && TAG_START <= pattern
    ensures OccursAt(lit + after, pattern, k) ==> |lit| <= k
  {
    var text := lit + after;
    if k < |lit| {
      assert text[k..] == lit[k..] + after;
      CleanTail(lit[k..], after);
      OccursMeansPrefix(text, pattern, k);
    }
  }

  // ----- tags as prefixes -----

  const TAG_OPEN := "<at id=\""

  lemma TagShape(id: int, name: string)
    ensures Tag(id, name) == TAG_OPEN + (Decimal(id) + ("\">" + (name + "</at>")))
  {
  }

  lemma SeparatorBound(a: string, b: string, sep: char, x: string, y: string)
    requires Lacks(b, sep) && x != "" && x[0] == sep
    requires a + x <= b + y || b + y <= a + x
    ensures |b| <= |a|
  {
    var s, t := a + x, b + y;
    assert s[|a|] == sep;
    forall k | 0 <= k < |b| ensures t[k] != sep { assert t[k] in b; }
    assert forall k :: 0 <= k < |s| && k < |t| ==> s[k] == t[k];
  }

  /** Two texts without the separator in them, each followed by it: equal prefixes mean equal texts. */
  lemma UntilSeparator(a: string, b: string, sep: char, x: string, y: string)
    requires Lacks(a, sep) && Lacks(b, sep)
    requires x != "" && y != "" && x[0] == sep && y[0] == sep
    requires a + x <= b + y || b + y <= a + x
    ensures a == b
  {
    SeparatorBound(a, b, sep, x, y);
    SeparatorBound(b, a, sep, y, x);
    forall k | 0 <= k < |a| ensures a[k] == b[k] { assert (a + x)[k] == (b + y)[k]; }
  }

  lemma PrefixDrop(p: string, a: string, b: string)
    ensures p + a <= p + b <==> a <= b
  {
    assert (p + a)[|p|..] == a && (p + b)[|p|..] == b;
    if a <= b { assert p + b == p + a + b[|a|..]; }
  }

  lemma NumeralLacksQuote(n: int)
    ensures Lacks(Decimal(n), '"')
  {
    DecimalSign(n);
  }

  /** One tag starts where another tag stands only if they are the same tag. */
  lemma TagPrefix(id: int, name: string, id': int, name': string, after: string)
    requires Lacks(name, '<') && Lacks(name', '<')
    ensures Tag(id, name) <= Tag(id', name') + after <==> id == id' && name == name'
  {
    TagShape(id, name);
    TagShape(id', name');
    var n, n' := Decimal(id), Decimal(id');
    var x, y := "\">" + (name + "</at>"), "\">" + (name' + "</at>");
    assert Tag(id', name') + after == TAG_OPEN + (n' + (y + after));
    PrefixDrop(TAG_OPEN, n + x, n' + (y + after));
    if Tag(id, name) <= Tag(id', name') + after {
      NumeralLacksQuote(id);
      NumeralLacksQuote(id');
      UntilSeparator(n, n', '"', x, y + after);
      DecimalInjective(id, id');
      PrefixDrop(n, x, y + after);
      assert y + after == "\">" + (name' + ("</at>" + after));
      PrefixDrop("\">", name + "</at>", name' + ("</at>" + after));
      UntilSeparator(name, name', '<', "</at>", "</at>" + after);
    }
  }

  /** Inside a tag, '<' only stands where the closing tag starts. */
  lemma InsideTag(n: string, name: string, k: nat)
    requires IsNumeral(n) && Lacks(name, '<')
    requires 0 < k < |TAG_OPEN + (n + ("\">" + (name + "</at>")))|
    ensures var tag := TAG_OPEN + (n + ("\">" + (name + "</at>")));
            tag[k] == '<' ==> k + 1 < |tag| && tag[k + 1] == '/'
  {
    var tag := TAG_OPEN + (n + ("\">" + (name + "</at>")));
    var a := |TAG_OPEN|;
    var b := a + |n|;
    var e := b + 2 + |name|;
    if k < a {
      assert tag[k] == TAG_OPEN[k];
    } else if k < b {
      assert tag[k] == n[k - a] && n[k - a] in n;
    } else if k < b + 2 {
      assert tag[k] == "\">"[k - b];
    } else if k < e {
      assert tag[k] == name[k - b - 2] && name[k - b - 2] in name;
    } else {
      assert tag[k] == "</at>"[k - e];
      assert k == e ==> tag[k + 1] == "</at>"[1];
    }
  }

  /** No tag starts inside a tag. */
  lemma TagSkips(id: int, name: string, after: string, pattern: string, k: nat)
    requires Lacks(name, '<') && TAG_START <= pattern && 0 < k < |Tag(id, name)|
    ensures !OccursAt(Tag(id, name) + after, pattern, k)
  {
    var tag := Tag(id, name);
    var text := tag + after;
    TagShape(id, name);
    DecimalSign(id);
    InsideTag(Decimal(id), name, k);
    assert text[k] == tag[k];
    assert k + 1 < |tag| ==> text[k + 1] == tag[k + 1];
    OccursMeansPrefix(text, pattern, k);
    var tail := text[k..];
    assert pattern[0] == '<' && pattern[1] == 'a';
    assert tail[0] == text[k] && (|tail| > 1 ==> tail[1] == text[k + 1]);
  }

  // ----- documents simulate texts -----

  /** A pattern that starts like a tag but does not match the first one can only be found after it. */
  lemma SkipTag(d: Doc, pattern: string, replacement: string)
    requires WellFormed(d) && d.Cons? && TAG_START <= pattern
    requires !(pattern <= Tag(d.id, d.name) + Render(d.rest))
    ensures Contains(Render(d), pattern) <==> Contains(Render(d.rest), pattern)
    ensures ReplaceFirst(Render(d), pattern, replacement)
            == d.lit + Tag(d.id, d.name) + ReplaceFirst(Render(d.rest), pattern, replacement)
  {
    hide Contains, ReplaceFirst, Tag;
    var tag, after := Tag(d.id, d.name), Render(d.rest);
    var prefix := d.lit + tag;
    forall k | 0 <= k < |prefix| ensures !OccursAt(prefix + after, pattern, k) {
      assert prefix + after == d.lit + (tag + after);
      if k < |d.lit| {
        CleanSkips(d.lit, tag + after, pattern, k);
      } else {
        OccursInSuffix(d.lit, tag + after, pattern, k - |d.lit|);
        if k > |d.lit| { TagSkips(d.id, d.name, after, pattern, k - |d.lit|); }
      }
    }
    SkipPrefix(prefix, after, pattern, replacement);
  }

  /** A pattern that matches the first tag is found there. */
  lemma FindAtTag(d: Doc, pattern: string, after: string, replacement: string)
    requires WellFormed(d) && d.Cons? && TAG_START <= pattern
    requires pattern + after == Tag(d.id, d.name) + Render(d.rest)
    ensures Contains(Render(d), pattern)
    ensures ReplaceFirst(Render(d), pattern, replacement) == d.lit + replacement + after
  {
    assert Render(d) == d.lit + (Tag(d.id, d.name) + Render(d.rest)) == d.lit + pattern + after;
    forall k | 0 <= k < |d.lit| ensures !OccursAt(d.lit + pattern + after, pattern, k) {
      assert d.lit + pattern + after == d.lit + (pattern + after);
      CleanSkips(d.lit, pattern + after, pattern, k);
    }
    ReplaceAt(d.lit, pattern, after, replacement);
  }

  lemma NothingInEnd(lit: string, pattern: string, replacement: string)
    requires Clean(lit) && TAG_START <= pattern
    ensures !Contains(lit, pattern) && ReplaceFirst(lit, pattern, replacement) == lit
  {
    forall k | 0 <= k <= |lit| ensures !OccursAt(lit, pattern, k) {
      if k < |lit| {
        assert lit + "" == lit;
        CleanSkips(lit, "", pattern, k);
      }
    }
    IndexIs(lit, pattern, 0);
  }

  lemma StartsLikeTag(m: Mention)
    ensures TAG_START <= TagOf(m)
  {
    TagShape(m.id, m.text);
  }

  lemma RenderPrepend(lit: string, d: Doc)
    ensures Render(Prepend(lit, d)) == lit + Render(d)
  {
    if d.Cons? {
      assert lit + d.lit + Tag(d.id, d.name) + Render(d.rest) == lit + (d.lit + Tag(d.id, d.name) + Render(d.rest));
    }
  }

  /** Replacing a tag of the document replaces it in the text. */
  lemma {:induction false} ReplaceTagRenders(d: Doc, m: Mention, r: string)
    requires WellFormed(d) && Lacks(m.text, '<')
    ensures Contains(Render(d), TagOf(m)) <==> HasTag(d, m)
    ensures ReplaceFirst(Render(d), TagOf(m), r) == Render(ReplaceTag(d, m, r))
  {
    StartsLikeTag(m);
    if d.End? {
      NothingInEnd(d.lit, TagOf(m), r);
    } else {
      TagPrefix(m.id, m.text, d.id, d.name, Render(d.rest));
      if IsTag(d, m) {
        FindAtTag(d, TagOf(m), Render(d.rest), r);
        RenderPrepend(d.lit + r, d.rest);
      } else {
        SkipTag(d, TagOf(m), r);
        ReplaceTagRenders(d.rest, m, r);
      }
    }
  }

  /** If a joined tag follows, the next stretch of text is exactly the join. */
  lemma JoinIsLiteral(lit: string, after: string, tag: string)
    requires Clean(lit) && TAG_START <= tag && (after == "" || after[0] == '<')
    requires NBSP + tag <= lit + after
    ensures lit == NBSP
  {
    var text := lit + after;
    assert text[6..6 + |tag|] == tag;
    CleanSkips(lit, after, tag, 6);
    assert NBSP == text[..6];
    forall k | 0 <= k < 6 ensures text[k] == NBSP[k] && text[k] != '<' {}
    assert |lit| < |text|;
    assert text[|lit|] == after[0];
    assert lit == text[..|lit|];
  }

  /** A joined tag follows exactly when the next stretch of text is the join. */
  lemma JoinedPrefix(d: Doc, b: Mention)
    requires WellFormed(d) && Lacks(b.text, '<')
    ensures NBSP + TagOf(b) <= Render(d) <==> d.lit == NBSP && IsTag(d, b)
  {
    StartsLikeTag(b);
    var tail := if d.End? then "" else Tag(d.id, d.name) + Render(d.rest);
    assert Render(d) == d.lit + tail && (tail == "" || tail[0] == '<');
    hide Tag, Render, Clean;
    if NBSP + TagOf(b) <= d.lit + tail { JoinIsLiteral(d.lit, tail, TagOf(b)); }
    if d.lit == NBSP {
      PrefixDrop(NBSP, TagOf(b), tail);
      if d.Cons? { TagPrefix(b.id, b.text, d.id, d.name, Render(d.rest)); }
    }
  }

  lemma PairPrefix(d: Doc, a: Mention, b: Mention)
    requires WellFormed(d) && d.Cons? && Lacks(a.text, '<') && Lacks(b.text, '<')
    ensures Pair(a, b) <= Tag(d.id, d.name) + Render(d.rest) <==> IsPair(d, a, b)
  {
    var text := Tag(d.id, d.name) + Render(d.rest);
    assert Pair(a, b) == TagOf(a) + (NBSP + TagOf(b));
    TagPrefix(a.id, a.text, d.id, d.name, Render(d.rest));
    if Pair(a, b) <= text { assert TagOf(a) <= text; }
    if IsTag(d, a) {
      PrefixDrop(TagOf(a), NBSP + TagOf(b), Render(d.rest));
      JoinedPrefix(d.rest, b);
    }
  }

  /** Merging two joined tags of the document merges them in the text. */
  lemma {:induction false} MergePairRenders(d: Doc, a: Mention, b: Mention)
    requires WellFormed(d) && Lacks(a.text, '<') && Lacks(b.text, '<')
    ensures Contains(Render(d), Pair(a, b)) <==> HasPair(d, a, b)
    ensures ReplaceFirst(Render(d), Pair(a, b), TagOf(Absorb(a, b))) == Render(MergePair(d, a, b))
  {
    hide Contains, ReplaceFirst;
    StartsLikeTag(a);
    assert TagOf(a) <= Pair(a, b);
    if d.End? {
      NothingInEnd(d.lit, Pair(a, b), TagOf(Absorb(a, b)));
    } else {
      PairPrefix(d, a, b);
      if IsPair(d, a, b) {
        var after := Render(d.rest.rest);
        assert Render(d.rest) == NBSP + TagOf(b) + after;
        assert Pair(a, b) + after == Tag(d.id, d.name) + Render(d.rest);
        FindAtTag(d, Pair(a, b), after, TagOf(Absorb(a, b)));
      } else {
        SkipTag(d, Pair(a, b), TagOf(Absorb(a, b)));
        MergePairRenders(d.rest, a, b);
      }
    }
  }
}
