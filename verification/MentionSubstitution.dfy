/**
 Substituting mentions on documents: a replaced tag becomes part of the text around it.
 */
module MentionSubstitution {
  import opened Text
  import opened Mentions
  import opened MentionDocs
  import opened MentionCollapse

  ghost predicate TagFreeNames(x: Context) {
    forall u :: x.userName(u).Some? ==> Lacks(x.userName(u).value, '<')
  }

  // ----- replacing a tag -----

  lemma {:induction false} PrependKeepsGood(lit: string, d: Doc)
    requires Good(d) && Clean(lit)
    ensures Good(Prepend(lit, d)) && Ids(Prepend(lit, d)) == Ids(d)
    ensures forall m :: HasTag(Prepend(lit, d), m) == HasTag(d, m)
    ensures forall a, b :: HasPair(Prepend(lit, d), a, b) == HasPair(d, a, b)
  {
    CleanAppend(lit, d.lit);
  }

  lemma {:induction false} ReplaceKeepsGood(d: Doc, m: Mention, r: string)
    requires Good(d) && Lacks(r, '<')
    ensures Good(ReplaceTag(d, m, r)) && Ids(ReplaceTag(d, m, r)) <= Ids(d)
    ensures !HasTag(ReplaceTag(d, m, r), m)
    ensures forall t :: HasTag(ReplaceTag(d, m, r), t) ==> HasTag(d, t)
    ensures forall t: Mention :: t.id != m.id ==> HasTag(ReplaceTag(d, m, r), t) == HasTag(d, t)
  {
    if d.Cons? {
      if IsTag(d, m) {
        PlainIsClean(r);
        CleanAppend(d.lit, r);
        PrependKeepsGood(d.lit + r, d.rest);
        if HasTag(d.rest, m) { TagHasId(d.rest, m); }
      } else {
        ReplaceKeepsGood(d.rest, m, r);
      }
    }
  }

  lemma {:induction false} AbsentTagStays(d: Doc, m: Mention, r: string)
    requires !HasTag(d, m)
    ensures ReplaceTag(d, m, r) == d
  {
    if d.Cons? { AbsentTagStays(d.rest, m, r); }
  }

  // ----- the substitution -----

  lemma ReplacementIsTagFree(m: Mention, x: Context)
    requires Lacks(m.text, '<') && TagFreeNames(x)
    ensures Replacement(m, x).Some? ==> Lacks(Replacement(m, x).value, '<')
  {
  }

  function SubstituteDocOne(d: Doc, m: Mention, x: Context): Doc {
    var r := Replacement(m, x);
    if r.Some? then ReplaceTag(d, m, r.value) else d
  }

  function SubstituteDoc(d: Doc, ms: seq<Mention>, x: Context, k: nat): Doc
    requires k <= |ms|
    decreases |ms| - k
  {
    if k == |ms| then d else SubstituteDoc(SubstituteDocOne(d, ms[k], x), ms, x, k + 1)
  }

  lemma SubstituteOneOnDoc(d: Doc, m: Mention, x: Context)
    requires Good(d) && Lacks(m.text, '<') && TagFreeNames(x)
    ensures SubstituteOne(Render(d), m, x) == Render(SubstituteDocOne(d, m, x))
    ensures Good(SubstituteDocOne(d, m, x))
    ensures Replacement(m, x).Some? ==> !HasTag(SubstituteDocOne(d, m, x), m)
    ensures forall t :: HasTag(SubstituteDocOne(d, m, x), t) ==> HasTag(d, t)
  {
    ReplacementIsTagFree(m, x);
    var r := Replacement(m, x);
    if r.Some? {
      ReplaceTagRenders(d, m, r.value);
      ReplaceKeepsGood(d, m, r.value);
    }
  }

  lemma {:induction false} SubstituteOnDoc(d: Doc, ms: seq<Mention>, x: Context, k: nat)
    requires Good(d) && Usable(ms) && TagFreeNames(x) && k <= |ms|
    ensures Substitute(Content(Render(d), ms), x, k) == Render(SubstituteDoc(d, ms, x, k))
    ensures Good(SubstituteDoc(d, ms, x, k))
    ensures forall t :: HasTag(SubstituteDoc(d, ms, x, k), t) ==> HasTag(d, t)
    ensures forall s :: k <= s < |ms| && Replacement(ms[s], x).Some? ==> !HasTag(SubstituteDoc(d, ms, x, k), ms[s])
    decreases |ms| - k
  {
    hide Render, SubstituteOne, SubstituteDocOne, HasTag;
    if k < |ms| {
      SubstituteOneOnDoc(d, ms[k], x);
      SubstituteOnDoc(SubstituteDocOne(d, ms[k], x), ms, x, k + 1);
    }
  }

  /** No tag is left that a mention would replace: the substitution changes nothing. */
  lemma {:induction false} SubstitutedStays(d: Doc, ms: seq<Mention>, x: Context, k: nat)
    requires k <= |ms| && forall s :: k <= s < |ms| && Replacement(ms[s], x).Some? ==> !HasTag(d, ms[s])
    ensures SubstituteDoc(d, ms, x, k) == d
    decreases |ms| - k
  {
    if k < |ms| {
      var r := Replacement(ms[k], x);
      if r.Some? { AbsentTagStays(d, ms[k], r.value); }
      SubstitutedStays(d, ms, x, k + 1);
    }
  }

  lemma {:induction false} SubstituteOnly(d: Doc, ms: seq<Mention>, x: Context, from: nat, k: nat)
    requires from <= k < |ms|
    requires forall t :: from <= t < k && Replacement(ms[t], x).Some? ==> !HasTag(d, ms[t])
    ensures SubstituteDoc(d, ms, x, from) == SubstituteDoc(SubstituteDocOne(d, ms[k], x), ms, x, k + 1)
    decreases k - from
  {
    if from < k {
      var r := Replacement(ms[from], x);
      if r.Some? { AbsentTagStays(d, ms[from], r.value); }
      SubstituteOnly(d, ms, x, from + 1, k);
    }
  }
}
