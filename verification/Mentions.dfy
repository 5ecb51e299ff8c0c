/**
 Converting the mentions of a Teams message: mentions that Teams has split into one tag per word are
 first collapsed back into one, in place, then every tag is replaced by what Mattermost shows.
 */
module Mentions {
  import opened Common
  import opened Text

  const NBSP := "&nbsp;"

  datatype Mention = Mention(id: int, userId: string, text: string, conversationId: string)

  /** The part of a message that the conversion rewrites. */
  datatype Content = Content(text: string, mentions: seq<Mention>)

  /** What does not change between two conversions: the chat, the channel, and for every Teams user the
      Mattermost user name, or None where a lookup fails. */
  datatype Context = Context(chatId: string, channelId: string, userName: string -> Option<string>)

  function Tag(id: int, text: string): string {
    "<at id=\"" + Decimal(id) + "\">" + text + "</at>"
  }

  function TagOf(m: Mention): string {
    Tag(m.id, m.text)
  }

  /** Two tags joined the way Teams joins the words of one name. */
  function Pair(a: Mention, b: Mention): string {
    TagOf(a) + NBSP + TagOf(b)
  }

  /** The first mention after it has absorbed the second. */
  function Absorb(a: Mention, b: Mention): Mention {
    a.(text := a.text + " " + b.text)
  }

  // ----- collapsing: what the two nested loops compute -----

  /** The j-th mention is absorbed by the i-th: same user, and their tags are joined in the text. */
  predicate Absorbs(c: Content, i: nat, j: nat)
    requires i < j && i < |c.mentions|
  {
    && j < |c.mentions|
    && c.mentions[j].userId == c.mentions[i].userId
    && Contains(c.text, Pair(c.mentions[i], c.mentions[j]))
  }

  function Absorbed(c: Content, i: nat, j: nat): Content
    requires i < j < |c.mentions|
  {
    var merged := Absorb(c.mentions[i], c.mentions[j]);
    Content(ReplaceFirst(c.text, Pair(c.mentions[i], c.mentions[j]), TagOf(merged)), c.mentions[i := merged])
  }

  /** The inner loop at index j, for the outer index i: the content after it, and the outer index of the
      next round. Not finding the pair makes the outer loop go on from j. */
  function Inner(c: Content, i: nat, j: nat): (r: (Content, nat))
    requires i < j && i < |c.mentions|
    ensures |r.0.mentions| == |c.mentions| && i < r.1 <= |c.mentions|
    decreases |c.mentions| - j
  {
    if Absorbs(c, i, j) then Inner(Absorbed(c, i, j), i, j + 1)
    else if j < |c.mentions| && c.mentions[j].userId == c.mentions[i].userId then (c, j)
    else (c, i + 1)
  }

  function Outer(c: Content, i: nat): (r: Content)
    ensures |r.mentions| == |c.mentions|
    decreases |c.mentions| - i
  {
    if i >= |c.mentions| then c
    else
      var (c', next) := Inner(c, i, i + 1);
      Outer(c', next)
  }

  function Collapse(c: Content): Content {
    Outer(c, 0)
  }

  // ----- substituting -----

  /** What a tag is replaced by; None leaves it alone. */
  function Replacement(m: Mention, x: Context): Option<string> {
    if m.userId != "" then
      var name := x.userName(m.userId);
      if name.Some? then Some("@" + name.value) else None
    else if m.text == "Everyone" && m.conversationId == x.chatId then Some("@all")
    else if m.conversationId == x.channelId then Some("@channel")
    else Some(m.text)
  }

  function SubstituteOne(text: string, m: Mention, x: Context): string {
    var r := Replacement(m, x);
    if r.Some? then ReplaceFirst(text, TagOf(m), r.value) else text
  }

  function Substitute(c: Content, x: Context, k: nat): string
    requires k <= |c.mentions|
    decreases |c.mentions| - k
  {
    if k == |c.mentions| then c.text
    else Substitute(c.(text := SubstituteOne(c.text, c.mentions[k], x)), x, k + 1)
  }

  function Convert(c: Content, x: Context): Content {
    var collapsed := Collapse(c);
    collapsed.(text := Substitute(collapsed, x, 0))
  }

  // ----- the loops -----

  class Message {
    var text: string
    var mentions: seq<Mention>

    constructor (text: string, mentions: seq<Mention>)
      ensures this.text == text && this.mentions == mentions
    {
      this.text, this.mentions := text, mentions;
    }

    /** The inner loop, for the outer index i: it rewrites the i-th mention and the text in place, and
        says from which index the outer loop goes on. */
    method CollapseFrom(i: nat) returns (next: nat)
      requires i < |mentions|
      modifies this
      ensures i < next <= |mentions| == |old(mentions)|
      ensures (Content(text, mentions), next) == Inner(old(Content(text, mentions)), i, i + 1)
    {
      hide Contains, ReplaceFirst;
      ghost var before := Content(text, mentions);
      var mention := mentions[i];
      var j := i + 1;
      while j < |mentions|
        invariant i < j <= |mentions| == |before.mentions|
        invariant mention == mentions[i]
        invariant Inner(Content(text, mentions), i, j) == Inner(before, i, i + 1)
        decreases |mentions| - j
      {
        var nextMention := mentions[j];
        if nextMention.userId != mention.userId { return i + 1; }
        var multiWordMention := Pair(mention, nextMention);
        if !Contains(text, multiWordMention) { return j; }
        mention := Absorb(mention, nextMention);
        mentions := mentions[i := mention];
        text := ReplaceFirst(text, multiWordMention, TagOf(mention));
        j := j + 1;
      }
      return i + 1;
    }

    /** The outer loop, whose index the inner one moves. */
    method CollapseMentions()
      modifies this
      ensures Content(text, mentions) == Collapse(old(Content(text, mentions)))
    {
      ghost var start := Content(text, mentions);
      var i := 0;
      while i < |mentions|
        invariant 0 <= i <= |mentions| == |start.mentions|
        invariant Outer(Content(text, mentions), i) == Collapse(start)
        decreases |mentions| - i
      {
        i := CollapseFrom(i);
      }
    }

    /** handleMentions. */
    method HandleMentions(x: Context) returns (converted: string)
      modifies this
      ensures Content(text, mentions) == Convert(old(Content(text, mentions)), x)
      ensures converted == text
    {
      CollapseMentions();
      ghost var collapsed := Content(text, mentions);
      for k := 0 to |mentions|
        invariant mentions == collapsed.mentions
        invariant Substitute(Content(text, mentions), x, k) == Substitute(collapsed, x, 0)
      {
        var r := Replacement(mentions[k], x);
        if r.None? { continue; }
        text := ReplaceFirst(text, TagOf(mentions[k]), r.value);
      }
      return text;
    }
  }

  // ----- every replacement shortens the text -----

  lemma AbsorbShortens(text: string, a: Mention, b: Mention)
    requires Contains(text, Pair(a, b))
    ensures |ReplaceFirst(text, Pair(a, b), TagOf(Absorb(a, b)))| < |text|
  {
    MergedIsShorter(a, b);
    var before, after := ReplaceSplits(text, Pair(a, b), TagOf(Absorb(a, b)));
  }

  lemma MergedIsShorter(a: Mention, b: Mention)
    ensures |TagOf(Absorb(a, b))| < |Pair(a, b)|
  {
  }

  /** The same mentions, but for names that may have grown at the end. */
  ghost predicate NamesGrow(a: seq<Mention>, b: seq<Mention>) {
    |a| == |b| && forall k :: 0 <= k < |a| ==> b[k].(text := "") == a[k].(text := "") && a[k].text <= b[k].text
  }

  lemma GrowthComposes(a: seq<Mention>, b: seq<Mention>, c: seq<Mention>)
    requires NamesGrow(a, b) && NamesGrow(b, c)
    ensures NamesGrow(a, c)
  {
  }

  ghost predicate Shrinks(c: Content, c': Content) {
    (c' == c || |c'.text| < |c.text|) && NamesGrow(c.mentions, c'.mentions)
  }

  lemma {:induction false} InnerShortens(c: Content, i: nat, j: nat)
    requires i < j && i < |c.mentions|
    ensures Shrinks(c, Inner(c, i, j).0)
    decreases |c.mentions| - j
  {
    hide Contains, ReplaceFirst;
    if Absorbs(c, i, j) {
      AbsorbShortens(c.text, c.mentions[i], c.mentions[j]);
      var d := Absorbed(c, i, j);
      InnerShortens(d, i, j + 1);
      GrowthComposes(c.mentions, d.mentions, Inner(d, i, j + 1).0.mentions);
    }
  }

  /** SHORTER OR UNTOUCHED. Collapsing any text with any mentions either changes nothing at all or
      shortens the text; ids, users and conversations stay, and names only grow at the end. */
  lemma {:induction false} OuterShortens(c: Content, i: nat)
    ensures Shrinks(c, Outer(c, i))
    decreases |c.mentions| - i
  {
    if i < |c.mentions| {
      var (d, next) := Inner(c, i, i + 1);
      InnerShortens(c, i, i + 1);
      OuterShortens(d, next);
      GrowthComposes(c.mentions, d.mentions, Outer(d, next).mentions);
    }
  }
}
