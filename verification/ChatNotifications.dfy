/**
 The loop that relays one Teams message to every chat member. It converts the same message object again
 for each of them, so what the second member reads depends on what the first conversion left behind.
 */
module ChatNotifications {
  import opened Common
  import opened Mentions
  import opened MentionDocs
  import opened MentionCollapse
  import opened MentionSubstitution
  import opened MentionStability

  /** A chat member, with what the calls made for it answer. */
  datatype Member = Member(
    userId: string,
    mattermostUser: Option<string>,  // None: no such user, or the lookup fails
    wantsNotifications: bool,
    activeInTeams: bool,
    directChannel: Option<string>)   // None: the bot's channel with the user cannot be had

  /** The message converted for one member: the index of the member, who is told, through which channel,
      and the text. */
  datatype Relayed = Relayed(member: nat, user: string, channel: string, text: string)

  /** The message is converted for this member. */
  predicate Reached(m: Member, sender: string) {
    m.userId != sender && m.mattermostUser.Some? && m.wantsNotifications && !m.activeInTeams && m.directChannel.Some?
  }

  /** The members reached among the first n, each once and in order. */
  ghost predicate ReachesFirst(relayed: seq<Relayed>, members: seq<Member>, sender: string, n: nat)
    requires n <= |members|
  {
    && (forall k :: 0 <= k < |relayed| ==>
          && relayed[k].member < n
          && var m := members[relayed[k].member];
             Reached(m, sender) && m.mattermostUser == Some(relayed[k].user)
             && m.directChannel == Some(relayed[k].channel))
    && (forall k, l :: 0 <= k < l < |relayed| ==> relayed[k].member < relayed[l].member)
    && (forall j :: 0 <= j < n && Reached(members[j], sender) ==>
          exists k :: 0 <= k < |relayed| && relayed[k].member == j)
  }

  lemma ReachesOneMore(relayed: seq<Relayed>, r: Relayed, members: seq<Member>, sender: string, n: nat)
    requires n < |members| && ReachesFirst(relayed, members, sender, n)
    requires Reached(members[n], sender)
    requires r.member == n && members[n].mattermostUser == Some(r.user) && members[n].directChannel == Some(r.channel)
    ensures ReachesFirst(relayed + [r], members, sender, n + 1)
  {
    var more := relayed + [r];
    forall j | 0 <= j < n + 1 && Reached(members[j], sender)
      ensures exists k :: 0 <= k < |more| && more[k].member == j
    {
      if j < n {
        var k :| 0 <= k < |relayed| && relayed[k].member == j;
        assert more[k].member == j;
      } else {
        assert more[|relayed|].member == j;
      }
    }
  }

  lemma ReachesNoMore(relayed: seq<Relayed>, members: seq<Member>, sender: string, n: nat)
    requires n < |members| && ReachesFirst(relayed, members, sender, n)
    ensures !Reached(members[n], sender) ==> ReachesFirst(relayed, members, sender, n + 1)
  {
  }

  /** The message after n conversions. */
  function Converted(c: Content, x: Context, n: nat): Content {
    if n == 0 then c else Convert(Converted(c, x, n - 1), x)
  }

  /** The k-th member that is reached gets the text after k conversions. */
  ghost predicate Texts(relayed: seq<Relayed>, c: Content, x: Context) {
    forall k :: 0 <= k < |relayed| ==> relayed[k].text == Converted(c, x, k + 1).text
  }

  lemma OneMoreText(relayed: seq<Relayed>, r: Relayed, c: Content, x: Context)
    requires Texts(relayed, c, x)
    ensures Converted(c, x, |relayed| + 1) == Convert(Converted(c, x, |relayed|), x)
    ensures r.text == Converted(c, x, |relayed| + 1).text ==> Texts(relayed + [r], c, x)
  {
    hide Convert;
  }

  /** Converts the message for every member that is to be told, and says who gets which text. */
  method RelayToMembers(msg: Message, sender: string, members: seq<Member>, x: Context)
    returns (relayed: seq<Relayed>)
    modifies msg
    ensures ReachesFirst(relayed, members, sender, |members|)
    ensures Texts(relayed, old(Content(msg.text, msg.mentions)), x)
    ensures Content(msg.text, msg.mentions) == Converted(old(Content(msg.text, msg.mentions)), x, |relayed|)
  {
    ghost var start := Content(msg.text, msg.mentions);
    relayed := [];
    assert Converted(start, x, 0) == start && ReachesFirst(relayed, members, sender, 0);
    hide Convert, Converted, ReachesFirst, Texts;
    for i := 0 to |members|
      invariant ReachesFirst(relayed, members, sender, i)
      invariant Texts(relayed, start, x)
      invariant Content(msg.text, msg.mentions) == Converted(start, x, |relayed|)
    {
      var member := members[i];
      ReachesNoMore(relayed, members, sender, i);
      if member.userId == sender { continue; }
      if member.mattermostUser.None? { continue; }
      if !member.wantsNotifications { continue; }
      if member.activeInTeams { continue; }
      if member.directChannel.None? { continue; }
      var text := msg.HandleMentions(x);
      var told := Relayed(i, member.mattermostUser.value, member.directChannel.value, text);
      OneMoreText(relayed, told, start, x);
      ReachesOneMore(relayed, told, members, sender, i);
      relayed := relayed + [told];
    }
  }

  lemma {:induction false} ConvertedStays(c: Content, x: Context, n: nat)
    requires Convert(Convert(c, x), x) == Convert(c, x) && n > 0
    ensures Converted(c, x, n) == Convert(c, x)
  {
    hide Convert;
    if n > 1 {
      ConvertedStays(c, x, n - 1);
    } else {
      assert Converted(c, x, 0) == c;
    }
  }

  /** The text does not depend on how many members were reached before. */
  ghost predicate SameForAll(d: Doc, ms: seq<Mention>, x: Context) {
    forall n: nat, k: nat :: 0 < n && 0 < k ==>
      Converted(Content(Render(d), ms), x, n).text == Converted(Content(Render(d), ms), x, k).text
  }

  lemma SameMeansStable(d: Doc, ms: seq<Mention>, x: Context)
    requires Good(d) && Usable(ms) && TagFreeNames(x)
    ensures SameForAll(d, ms, x) <==> StableOn(d, ms, x)
  {
    var c := Content(Render(d), ms);
    ReconversionStableIff(d, ms, x);
    assert StableOn(d, ms, x) <==> Convert(Convert(c, x), x).text == Convert(c, x).text;
    hide Convert, StableOn, Rejoins;
    assert Converted(c, x, 1) == Convert(Converted(c, x, 0), x) == Convert(c, x);
    assert Converted(c, x, 2) == Convert(Converted(c, x, 1), x);
    if StableOn(d, ms, x) {
      forall n: nat, k: nat | 0 < n && 0 < k ensures Converted(c, x, n).text == Converted(c, x, k).text {
        ConvertedStays(c, x, n);
        ConvertedStays(c, x, k);
      }
    }
  }

  /** EVERYONE READS THE SAME text of a message with well-formed, distinct tags, whatever the number of
      members, exactly when its first conversion does not rejoin two mentions. */
  lemma EveryoneReadsTheSameIff(d: Doc, ms: seq<Mention>, x: Context)
    requires Good(d) && Usable(ms) && TagFreeNames(x)
    ensures SameForAll(d, ms, x) <==> !exists s: nat :: Rejoins(d, ms, x, s)
  {
    SameMeansStable(d, ms, x);
    ReconversionStableIff(d, ms, x);
  }

  /** Everyone reads the same text of all such messages exactly when the mentions carry no hazard. */
  lemma SafeForEveryoneIff(ms: seq<Mention>, x: Context)
    requires Usable(ms) && TagFreeNames(x)
    ensures (forall d :: Good(d) ==> SameForAll(d, ms, x)) <==> !Hazard(ms, x)
  {
    SafeMentionsIff(ms, x);
    hide StableOn, SameForAll, Hazard;
    forall d | Good(d) ensures SameForAll(d, ms, x) <==> StableOn(d, ms, x) {
      SameMeansStable(d, ms, x);
    }
  }
}
