/**
 Matching an existing group chat: does it have exactly the requested members?
 */
module GroupChat {
  import opened Common

  /** A member of a chat as Microsoft Graph returns it; either field may be missing. */
  datatype GraphMember = GraphMember(userId: Option<string>, email: Option<string>)

  datatype GraphChat = GraphChat(id: Option<string>, members: Option<seq<GraphMember>>)

  datatype ChatMember = ChatMember(email: string, userId: string)

  datatype Chat = Chat(id: string, members: seq<ChatMember>)

  /** The member ids, None for a member without one. */
  function IdsOf(members: seq<GraphMember>): seq<Option<string>> {
    if members == [] then [] else IdsOf(members[..|members| - 1]) + [members[|members| - 1].userId]
  }

  function Wanted(ids: seq<string>): seq<Option<string>> {
    if ids == [] then [] else Wanted(ids[..|ids| - 1]) + [Some(ids[|ids| - 1])]
  }

  /** The requested ids that some member has. */
  function Matched(members: seq<GraphMember>, ids: seq<string>): set<string> {
    set u | u in ids && Some(u) in IdsOf(members)
  }

  /** The members that are reported: requested, and with an email address. */
  function Reported(members: seq<GraphMember>, ids: seq<string>): seq<ChatMember> {
    if members == [] then []
    else
      var m := members[|members| - 1];
      Reported(members[..|members| - 1], ids)
      + (if m.userId.Some? && m.userId.value in ids && m.email.Some?
         then [ChatMember(m.email.value, m.userId.value)] else [])
  }

  /** The requested ids are distinct, and the members' ids are a permutation of them. */
  ghost predicate SameMembers(members: seq<GraphMember>, ids: seq<string>) {
    Distinct(ids) && multiset(IdsOf(members)) == multiset(Wanted(ids))
  }

  lemma {:induction false} IdsAt(members: seq<GraphMember>)
    ensures |IdsOf(members)| == |members|
    ensures forall k :: 0 <= k < |members| ==> IdsOf(members)[k] == members[k].userId
  {
    if members != [] { IdsAt(members[..|members| - 1]); }
  }

  lemma {:induction false} WantedAt(ids: seq<string>)
    ensures |Wanted(ids)| == |ids|
    ensures forall k :: 0 <= k < |ids| ==> Wanted(ids)[k] == Some(ids[k])
  {
    if ids != [] { WantedAt(ids[..|ids| - 1]); }
  }

  /** A sequence has as many values as places exactly when no value repeats. */
  lemma {:induction false} ValuesOfSeq<T>(s: seq<T>)
    ensures |set x | x in s| <= |s|
    ensures |set x | x in s| == |s| <==> forall i, j :: 0 <= i < j < |s| ==> s[i] != s[j]
  {
    if s != [] {
      var front, last := s[..|s| - 1], s[|s| - 1];
      ValuesOfSeq(front);
      assert (set x | x in s) == (set x | x in front) + {last};
      if last in front {
        assert (set x | x in s) == (set x | x in front);
        var i :| 0 <= i < |front| && front[i] == last;
        assert s[i] == s[|s| - 1];
      }
    }
  }

  /** Two sequences without repetition and with the same values have the same multiset. */
  lemma SameValues<T>(a: seq<T>, b: seq<T>)
    requires forall i, j :: 0 <= i < j < |a| ==> a[i] != a[j]
    requires forall i, j :: 0 <= i < j < |b| ==> b[i] != b[j]
    requires (set x | x in a) == (set x | x in b)
    ensures multiset(a) == multiset(b)
  {
    var valuesOfA, valuesOfB := set x | x in a, set x | x in b;
    forall x | x in multiset(a) || x in multiset(b) ensures multiset(a)[x] == multiset(b)[x] {
      AtMostOnce(a, x);
      AtMostOnce(b, x);
      assert x in a <==> x in valuesOfA;
      assert x in b <==> x in valuesOfB;
    }
  }

  lemma {:induction false} AtMostOnce<T>(s: seq<T>, x: T)
    requires forall i, j :: 0 <= i < j < |s| ==> s[i] != s[j]
    ensures multiset(s)[x] == if x in s then 1 else 0
  {
    if s != [] {
      var front, last := s[..|s| - 1], s[|s| - 1];
      assert s == front + [last];
      AtMostOnce(front, x);
      assert forall i :: 0 <= i < |front| ==> front[i] == s[i];
    }
  }

  lemma Subset<T>(a: set<T>, b: set<T>)
    requires a <= b
    ensures |a| <= |b|
    ensures |a| == |b| ==> a == b
  {
    assert b == a + (b - a);
  }

  lemma {:induction false} InjectiveImage(s: set<string>)
    ensures |set u | u in s :: Some(u)| == |s|
    decreases s
  {
    if x :| x in s {
      InjectiveImage(s - {x});
      assert (set u | u in s :: Some(u)) == (set u | u in s - {x} :: Some(u)) + {Some(x)};
    } else {
      assert (set u | u in s :: Some(u)) == {};
    }
  }

  function Values<T(==)>(s: seq<T>): set<T> {
    set x | x in s
  }

  /** The wanted values are the requested ids. */
  lemma WantedValues(ids: seq<string>)
    ensures Values(Wanted(ids)) == set u | u in Values(ids) :: Some(u)
  {
    WantedAt(ids);
    var want := Wanted(ids);
    forall x | x in want ensures x in set u | u in Values(ids) :: Some(u) {
      var k :| 0 <= k < |want| && want[k] == x;
      assert ids[k] in Values(ids);
    }
    forall u | u in ids ensures Some(u) in want {
      var k :| 0 <= k < |ids| && ids[k] == u;
      assert want[k] == Some(u);
    }
  }

  /** If as many ids are matched as requested, no id repeats and the members have exactly these ids. */
  lemma AllMatchedValues(members: seq<GraphMember>, ids: seq<string>)
    requires |members| == |ids| == |Matched(members, ids)|
    ensures Distinct(ids)
    ensures Values(IdsOf(members)) == Values(Wanted(ids)) && |Values(IdsOf(members))| == |members|
  {
    var have, matched := IdsOf(members), Matched(members, ids);
    IdsAt(members);
    ValuesOfSeq(ids);
    ValuesOfSeq(have);
    Subset(matched, Values(ids));
    InjectiveImage(matched);
    WantedValues(ids);
    Subset(Values(Wanted(ids)), Values(have));
  }

  lemma AllMatchedIsPermutation(members: seq<GraphMember>, ids: seq<string>)
    requires |members| == |ids| == |Matched(members, ids)|
    ensures SameMembers(members, ids)
  {
    AllMatchedValues(members, ids);
    IdsAt(members);
    WantedAt(ids);
    ValuesOfSeq(IdsOf(members));
    forall i, j | 0 <= i < j < |ids| ensures Wanted(ids)[i] != Wanted(ids)[j] {
    }
    hide IdsOf, Wanted, Matched;
    SameValues(IdsOf(members), Wanted(ids));
  }

  lemma PermutationMatchesAll(members: seq<GraphMember>, ids: seq<string>)
    requires SameMembers(members, ids)
    ensures |Matched(members, ids)| == |ids|
  {
    WantedAt(ids);
    ValuesOfSeq(ids);
    hide IdsOf, Wanted;
    forall u | u in ids ensures Some(u) in IdsOf(members) {
      var k :| 0 <= k < |ids| && ids[k] == u;
      assert Wanted(ids)[k] == Some(u);
      assert Some(u) in multiset(Wanted(ids));
      assert Some(u) in multiset(IdsOf(members));
    }
    assert Matched(members, ids) == Values(ids);
  }

  /** PIGEONHOLE. With as many members as requested ids, the number of matched ids reaches that number
      exactly when the requested ids are distinct and the members are a permutation of them. */
  lemma MatchedAllIff(members: seq<GraphMember>, ids: seq<string>)
    requires |members| == |ids|
    ensures |Matched(members, ids)| == |ids| <==> SameMembers(members, ids)
  {
    hide SameMembers, Matched;
    if |Matched(members, ids)| == |ids| { AllMatchedIsPermutation(members, ids); }
    if SameMembers(members, ids) { PermutationMatchesAll(members, ids); }
  }

  /** checkGroupChat. */
  method CheckGroupChat(c: GraphChat, userIDs: seq<string>) returns (chat: Option<Chat>)
    ensures chat.Some? <==>
            && c.id.Some? && c.members.Some?
            && |c.members.value| == |userIDs| && SameMembers(c.members.value, userIDs)
    ensures chat.Some? ==> chat.value == Chat(c.id.value, Reported(c.members.value, userIDs))
  {
    if c.id.None? { return None; }
    if c.members.Some? && |c.members.value| == |userIDs| {
      var all := c.members.value;
      var matches: set<string> := {};
      var members: seq<ChatMember> := [];
      for i := 0 to |all|
        invariant matches == Matched(all[..i], userIDs)
        invariant members == Reported(all[..i], userIDs)
      {
        var m := all[i];
        assert all[..i + 1][..i] == all[..i];
        assert IdsOf(all[..i + 1]) == IdsOf(all[..i]) + [m.userId];
        ghost var before := matches;
        for j := 0 to |userIDs|
          invariant m.userId.None? || m.userId.value !in userIDs[..j]
          invariant matches == Matched(all[..i], userIDs)
          invariant members == Reported(all[..i], userIDs)
        {
          var u := userIDs[j];
          if m.userId == Some(u) {
            matches := matches + {u};
            if m.email.Some? {
              members := members + [ChatMember(m.email.value, u)];
            }
            break;
          }
        }
        assert userIDs[..|userIDs|] == userIDs;
        assert matches == Matched(all[..i + 1], userIDs);
      }
      assert all[..|all|] == all;
      MatchedAllIff(all, userIDs);
      if |matches| == |userIDs| {
        return Some(Chat(c.id.value, members));
      }
    }
    return None;
  }

  /** With an email address for everyone, an accepted chat reports every member, in order. */
  lemma {:induction false} EveryoneReported(members: seq<GraphMember>, ids: seq<string>)
    requires forall m :: m in members ==> m.userId.Some? && m.userId.value in ids && m.email.Some?
    ensures |Reported(members, ids)| == |members|
    ensures forall k :: 0 <= k < |members| ==>
              Reported(members, ids)[k] == ChatMember(members[k].email.value, members[k].userId.value)
  {
    if members != [] { EveryoneReported(members[..|members| - 1], ids); }
  }

  predicate Reportable(m: GraphMember, ids: seq<string>) {
    m.userId.Some? && m.userId.value in ids && m.email.Some?
  }

  /** The k-th entry is the member at from[k]; all that can be reported are, in order and once. */
  ghost predicate ComesFrom(reported: seq<ChatMember>, from: seq<nat>, members: seq<GraphMember>, ids: seq<string>) {
    && |from| == |reported|
    && (forall k :: 0 <= k < |from| ==>
          && from[k] < |members| && Reportable(members[from[k]], ids)
          && members[from[k]].email == Some(reported[k].email)
          && members[from[k]].userId == Some(reported[k].userId))
    && (forall k, l :: 0 <= k < l < |from| ==> from[k] < from[l])
    && (forall i :: 0 <= i < |members| && Reportable(members[i], ids) ==> i in from)
  }

  lemma OneMoreReported(reported: seq<ChatMember>, from: seq<nat>, members: seq<GraphMember>, ids: seq<string>,
      m: GraphMember)
    requires ComesFrom(reported, from, members, ids)
    ensures if Reportable(m, ids)
            then ComesFrom(reported + [ChatMember(m.email.value, m.userId.value)], from + [|members|], members + [m],
                           ids)
            else ComesFrom(reported, from, members + [m], ids)
  {
    var more := members + [m];
    assert more[|members|] == m && forall i :: 0 <= i < |members| ==> more[i] == members[i];
    if !Reportable(m, ids) { return; }
    var from' := from + [|members|];
    forall i | 0 <= i < |more| && Reportable(more[i], ids) ensures i in from' {
      if i == |members| { assert from'[|from|] == i; }
    }
  }

  /** Reported is who was requested and has an email address: every such member, in order, once. */
  lemma {:induction false} ReportedMembers(members: seq<GraphMember>, ids: seq<string>) returns (from: seq<nat>)
    ensures ComesFrom(Reported(members, ids), from, members, ids)
  {
    from := [];
    if members != [] {
      var front, m := members[..|members| - 1], members[|members| - 1];
      var before := ReportedMembers(front, ids);
      OneMoreReported(Reported(front, ids), before, front, ids, m);
      assert members == front + [m];
      if Reportable(m, ids) {
        from := before + [|front|];
        assert ComesFrom(Reported(front, ids) + [ChatMember(m.email.value, m.userId.value)], from, front + [m], ids);
        assert Reported(members, ids) == Reported(front, ids) + [ChatMember(m.email.value, m.userId.value)];
      } else {
        from := before;
        assert ComesFrom(Reported(front, ids), from, front + [m], ids);
        assert Reported(members, ids) == Reported(front, ids);
      }
    }
  }
}
