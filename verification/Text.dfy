/**
 The string operations the program uses: substring search, replacing the first occurrence, and
 splitting at a separator.
 */
module Text {
  import opened Common

  /** `pattern` occurs in `text` at position i. */
  predicate OccursAt(text: string, pattern: string, i: int) {
    0 <= i && i + |pattern| <= |text| && text[i..i + |pattern|] == pattern
  }

  /** The first occurrence, as strings.Index; None stands for -1. */
  function Index(text: string, pattern: string): (r: Option<nat>)
    ensures r.Some? ==> OccursAt(text, pattern, r.value)
  {
    IndexFrom(text, pattern, 0)
  }

  function IndexFrom(text: string, pattern: string, from: nat): (r: Option<nat>)
    requires from <= |text|
    ensures r.Some? ==> OccursAt(text, pattern, r.value)
    decreases |text| - from
  {
    if OccursAt(text, pattern, from) then Some(from)
    else if from == |text| then None
    else IndexFrom(text, pattern, from + 1)
  }

  /** strings.Contains. */
  predicate Contains(text: string, pattern: string) {
    Index(text, pattern).Some?
  }

  /** strings.Replace with n == 1. */
  function ReplaceFirst(text: string, pattern: string, replacement: string): string {
    Spliced(text, Index(text, pattern), |pattern|, replacement)
  }

  /** The text with `length` characters at an index, if there is one, replaced. */
  function Spliced(text: string, at: Option<nat>, length: nat, replacement: string): string
    requires at.Some? ==> at.value + length <= |text|
  {
    if at.None? then text else text[..at.value] + replacement + text[at.value + length..]
  }

  /** The first place at or after `from` where the pattern occurs. */
  ghost predicate FirstFrom(text: string, pattern: string, from: nat, i: nat) {
    from <= i && OccursAt(text, pattern, i) && forall k :: from <= k < i ==> !OccursAt(text, pattern, k)
  }

  ghost predicate NowhereFrom(text: string, pattern: string, from: nat) {
    forall k :: from <= k <= |text| ==> !OccursAt(text, pattern, k)
  }

  lemma {:induction false} IndexFromIs(text: string, pattern: string, from: nat)
    requires from <= |text|
    ensures var r := IndexFrom(text, pattern, from);
            if r.Some? then FirstFrom(text, pattern, from, r.value) else NowhereFrom(text, pattern, from)
    decreases |text| - from
  {
    if from < |text| && !OccursAt(text, pattern, from) { IndexFromIs(text, pattern, from + 1); }
  }

  /** The index is the first occurrence, and there is none exactly when the pattern occurs nowhere. */
  lemma IndexIs(text: string, pattern: string, i: nat)
    ensures Index(text, pattern) == Some(i) <==> FirstFrom(text, pattern, 0, i)
    ensures Index(text, pattern).None? <==> NowhereFrom(text, pattern, 0)
  {
    IndexFromIs(text, pattern, 0);
  }

  lemma OccursMeansContains(text: string, pattern: string, i: nat)
    requires OccursAt(text, pattern, i)
    ensures Contains(text, pattern)
  {
    IndexIs(text, pattern, i);
  }

  /** What occurs somewhere, its beginnings occur there as well. */
  lemma PrefixOccurs(text: string, pattern: string, prefix: string, i: nat)
    requires OccursAt(text, pattern, i) && prefix <= pattern
    ensures OccursAt(text, prefix, i)
    ensures pattern != "" ==> i < |text| && pattern[0] == text[i]
  {
    var found := text[i..i + |pattern|];
    assert text[i..i + |prefix|] == found[..|prefix|];
    assert pattern != "" ==> found[0] == text[i];
  }

  /** An occurrence splits the text around it. */
  lemma OccurrenceSplits(text: string, pattern: string, i: nat)
    requires OccursAt(text, pattern, i)
    ensures text == text[..i] + pattern + text[i + |pattern|..]
  {
  }

  /** Replacing splits the text at the pattern. */
  lemma ReplaceSplits(text: string, pattern: string, replacement: string) returns (before: string, after: string)
    requires Contains(text, pattern)
    ensures text == before + pattern + after
    ensures ReplaceFirst(text, pattern, replacement) == before + replacement + after
  {
    var i := Index(text, pattern).value;
    IndexIs(text, pattern, i);
    OccurrenceSplits(text, pattern, i);
    before, after := text[..i], text[i + |pattern|..];
  }

  /** A first occurrence pins down what is replaced. */
  lemma ReplaceAt(before: string, pattern: string, after: string, replacement: string)
    requires forall i :: 0 <= i < |before| ==> !OccursAt(before + pattern + after, pattern, i)
    ensures ReplaceFirst(before + pattern + after, pattern, replacement) == before + replacement + after
    ensures Contains(before + pattern + after, pattern)
  {
    var text := before + pattern + after;
    assert text[|before|..|before| + |pattern|] == pattern;
    assert OccursAt(text, pattern, |before|);
    IndexIs(text, pattern, |before|);
    assert text[..|before|] == before;
    assert text[|before| + |pattern|..] == after;
  }

  lemma OccursInSuffix(prefix: string, rest: string, pattern: string, k: nat)
    ensures OccursAt(prefix + rest, pattern, |prefix| + k) <==> OccursAt(rest, pattern, k)
  {
    if k + |pattern| <= |rest| {
      assert (prefix + rest)[|prefix| + k..|prefix| + k + |pattern|] == rest[k..k + |pattern|];
    }
  }

  /** A prefix in which the pattern does not start only moves the index. */
  lemma IndexAfterPrefix(prefix: string, rest: string, pattern: string)
    requires forall i :: 0 <= i < |prefix| ==> !OccursAt(prefix + rest, pattern, i)
    ensures Index(prefix + rest, pattern)
            == if Index(rest, pattern).Some? then Some(|prefix| + Index(rest, pattern).value) else None
  {
    var text := prefix + rest;
    forall i | |prefix| <= i <= |text|
      ensures OccursAt(text, pattern, i) <==> OccursAt(rest, pattern, i - |prefix|)
    {
      OccursInSuffix(prefix, rest, pattern, i - |prefix|);
    }
    var r := Index(rest, pattern);
    IndexIs(rest, pattern, if r.Some? then r.value else 0);
    IndexIs(text, pattern, if r.Some? then |prefix| + r.value else 0);
  }

  lemma SplicedAfterPrefix(prefix: string, rest: string, at: Option<nat>, length: nat, replacement: string)
    requires at.Some? ==> at.value + length <= |rest|
    ensures Spliced(prefix + rest, if at.Some? then Some(|prefix| + at.value) else None, length, replacement)
            == prefix + Spliced(rest, at, length, replacement)
  {
    if at.Some? {
      var k := at.value;
      assert (prefix + rest)[..|prefix| + k] == prefix + rest[..k];
      assert (prefix + rest)[|prefix| + k + length..] == rest[k + length..];
    }
  }

  /** A prefix in which the pattern does not start can be skipped. */
  lemma SkipPrefix(prefix: string, rest: string, pattern: string, replacement: string)
    requires forall i :: 0 <= i < |prefix| ==> !OccursAt(prefix + rest, pattern, i)
    ensures Contains(prefix + rest, pattern) <==> Contains(rest, pattern)
    ensures ReplaceFirst(prefix + rest, pattern, replacement) == prefix + ReplaceFirst(rest, pattern, replacement)
  {
    IndexAfterPrefix(prefix, rest, pattern);
    SplicedAfterPrefix(prefix, rest, Index(rest, pattern), |pattern|, replacement);
  }

  // ----- decimal numbers -----

  function DigitChar(d: nat): char
    requires d < 10
  {
    ('0' as int + d) as char
  }

  function Digits(n: nat): string {
    if n < 10 then [DigitChar(n)] else Digits(n / 10) + [DigitChar(n % 10)]
  }

  /** fmt.Sprint of an integer. */
  function Decimal(n: int): string {
    if n < 0 then "-" + Digits(-n) else Digits(n)
  }

  function DigitsValue(s: string): int {
    if s == "" then 0 else DigitsValue(s[..|s| - 1]) * 10 + (s[|s| - 1] as int - '0' as int)
  }

  predicate IsNumeral(s: string) {
    forall c :: c in s ==> c == '-' || '0' <= c <= '9'
  }

  lemma {:induction false} DigitsInvert(n: nat)
    ensures DigitsValue(Digits(n)) == n
    ensures Digits(n) != "" && forall c :: c in Digits(n) ==> '0' <= c <= '9'
    ensures Digits(n)[0] == '0' <==> n == 0
  {
    if n >= 10 {
      DigitsInvert(n / 10);
      assert Digits(n)[..|Digits(n)| - 1] == Digits(n / 10);
    } else {
      assert Digits(n)[..0] == "";
    }
  }

  /** The sign can be read off the first character. */
  lemma DecimalSign(n: int)
    ensures IsNumeral(Decimal(n)) && Decimal(n) != ""
    ensures Decimal(n)[0] == '-' <==> n < 0
  {
    DigitsInvert(if n < 0 then -n else n);
    if n >= 0 { assert Decimal(n)[0] in Digits(n); }
  }

  /** Different numbers print differently. */
  lemma DecimalInjective(a: int, b: int)
    requires Decimal(a) == Decimal(b)
    ensures a == b
  {
    DecimalSign(a);
    DecimalSign(b);
    DigitsInvert(if a < 0 then -a else a);
    DigitsInvert(if b < 0 then -b else b);
    if a < 0 {
      assert Decimal(a)[1..] == Digits(-a) && Decimal(b)[1..] == Digits(-b);
    }
  }

  // ----- splitting -----

  /** strings.Split at a one-character separator. */
  function Split(text: string, sep: char): (parts: seq<string>)
    ensures |parts| > 0
  {
    if text == "" then [""]
    else
      var rest := Split(text[1..], sep);
      if text[0] == sep then [""] + rest else [[text[0]] + rest[0]] + rest[1..]
  }

  function Join(parts: seq<string>, sep: char): string
    requires |parts| > 0
  {
    if |parts| == 1 then parts[0] else parts[0] + [sep] + Join(parts[1..], sep)
  }

  predicate Lacks(text: string, c: char) {
    c !in text
  }

  /** Joining what was split gives the text back. */
  lemma {:induction false} SplitJoin(text: string, sep: char)
    ensures Join(Split(text, sep), sep) == text
  {
    if text != "" {
      SplitJoin(text[1..], sep);
      var rest := Split(text[1..], sep);
      var parts := Split(text, sep);
      if text[0] == sep {
        assert parts[1..] == rest;
        assert text == [sep] + text[1..];
      } else {
        assert parts[1..] == rest[1..];
        assert text == [text[0]] + text[1..];
      }
    }
  }

  /** Splitting what was joined gives the parts back, if none of them holds the separator. */
  lemma {:induction false} JoinSplit(parts: seq<string>, sep: char)
    requires |parts| > 0 && forall i :: 0 <= i < |parts| ==> Lacks(parts[i], sep)
    ensures Split(Join(parts, sep), sep) == parts
    decreases |parts|, |parts[0]|
  {
    var text := Join(parts, sep);
    if parts[0] == "" {
      if |parts| > 1 {
        assert text == [sep] + Join(parts[1..], sep);
        assert text[1..] == Join(parts[1..], sep);
        JoinSplit(parts[1..], sep);
      }
    } else {
      var shorter := parts[0 := parts[0][1..]];
      assert shorter[1..] == parts[1..];
      assert text[1..] == Join(shorter, sep);
      assert text[0] == parts[0][0] && parts[0][0] in parts[0];
      JoinSplit(shorter, sep);
      assert [parts[0][0]] + parts[0][1..] == parts[0] && [parts[0]] + parts[1..] == parts;
    }
  }

  lemma JoinThree(parts: seq<string>, sep: char)
    requires |parts| == 3
    ensures Join(parts, sep) == parts[0] + [sep] + parts[1] + [sep] + parts[2]
  {
    var last := parts[1..][1..];
    assert last == [parts[2]];
    assert Join(parts[1..], sep) == parts[1] + [sep] + Join(last, sep);
    assert parts[0] + [sep] + (parts[1] + [sep] + parts[2]) == parts[0] + [sep] + parts[1] + [sep] + parts[2];
  }

  /** Every separator in the text adds a part. */
  function CountOf(text: string, c: char): nat {
    if text == "" then 0 else (if text[0] == c then 1 else 0) + CountOf(text[1..], c)
  }

  lemma {:induction false} SplitCount(text: string, sep: char)
    ensures |Split(text, sep)| == CountOf(text, sep) + 1
  {
    if text != "" { SplitCount(text[1..], sep); }
  }

  lemma {:induction false} CountAppend(a: string, b: string, c: char)
    ensures CountOf(a + b, c) == CountOf(a, c) + CountOf(b, c)
  {
    if a == "" {
      assert a + b == b;
    } else {
      assert (a + b)[1..] == a[1..] + b;
      CountAppend(a[1..], b, c);
    }
  }

  lemma {:induction false} CountZero(text: string, c: char)
    ensures CountOf(text, c) == 0 <==> Lacks(text, c)
  {
    if text != "" {
      CountZero(text[1..], c);
      assert text == [text[0]] + text[1..];
    }
  }
}
