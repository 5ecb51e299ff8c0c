/**
 The OAuth state: how it is printed when a connection starts, parsed when Microsoft redirects back, and
 checked against what was stored.
 */
module OAuthState {
  import opened Common
  import opened Text

  datatype Origin =
    | FromPreferences(argument: string)
    | FromBotMessage(channel: string, post: string)

  datatype Parsed = Parsed(stateId: string, user: string, origin: Origin)

  function PrintOrigin(o: Origin): string {
    match o
    case FromPreferences(argument) => "fromPreferences:" + argument
    case FromBotMessage(channel, post) => "fromBotMessage:" + channel + "|" + post
  }

  function Print(p: Parsed): string {
    p.stateId + "_" + p.user + "_" + PrintOrigin(p.origin)
  }

  /** The part after the colon. */
  function ParseOrigin(origin: string, argument: string): Option<Origin> {
    if origin == "fromPreferences" then Some(FromPreferences(argument))
    else if origin == "fromBotMessage" then
      var args := Split(argument, '|');
      if |args| != 2 then None else Some(FromBotMessage(args[0], args[1]))
    else None
  }

  /** The parsing at the head of oauthRedirectHandler. */
  function Parse(state: string): Option<Parsed> {
    var stateArr := Split(state, '_');
    if |stateArr| != 3 then None
    else
      var originInfo := Split(stateArr[2], ':');
      if |originInfo| != 2 then None
      else
        var origin := ParseOrigin(originInfo[0], originInfo[1]);
        if origin.None? then None else Some(Parsed(stateArr[0], stateArr[1], origin.value))
  }

  /** No separator where one would be misread. */
  predicate Unambiguous(p: Parsed) {
    && Lacks(p.stateId, '_') && Lacks(p.user, '_')
    && match p.origin
       case FromPreferences(argument) => Lacks(argument, '_') && Lacks(argument, ':')
       case FromBotMessage(channel, post) =>
         && Lacks(channel, '_') && Lacks(channel, ':') && Lacks(channel, '|')
         && Lacks(post, '_') && Lacks(post, ':') && Lacks(post, '|')
  }

  lemma SplitTwo(a: string, b: string, sep: char)
    ensures |Split(a + [sep] + b, sep)| == 2 <==> Lacks(a, sep) && Lacks(b, sep)
    ensures Lacks(a, sep) && Lacks(b, sep) ==> Split(a + [sep] + b, sep) == [a, b]
  {
    SplitCount(a + [sep] + b, sep);
    CountAppend(a + [sep], b, sep);
    CountAppend(a, [sep], sep);
    assert CountOf([sep], sep) == 1 by { assert [sep][1..] == ""; }
    CountZero(a, sep);
    CountZero(b, sep);
    if Lacks(a, sep) && Lacks(b, sep) {
      assert Join([a, b], sep) == a + [sep] + b by { assert [a, b][1..] == [b]; }
      JoinSplit([a, b], sep);
    }
  }

  lemma SplitThree(a: string, b: string, c: string, sep: char)
    ensures |Split(a + [sep] + b + [sep] + c, sep)| == 3 <==> Lacks(a, sep) && Lacks(b, sep) && Lacks(c, sep)
    ensures Lacks(a, sep) && Lacks(b, sep) && Lacks(c, sep) ==> Split(a + [sep] + b + [sep] + c, sep) == [a, b, c]
  {
    var text := a + [sep] + b + [sep] + c;
    SplitCount(text, sep);
    CountAppend(a + [sep] + b + [sep], c, sep);
    CountAppend(a + [sep] + b, [sep], sep);
    CountAppend(a + [sep], b, sep);
    CountAppend(a, [sep], sep);
    assert CountOf([sep], sep) == 1 by { assert [sep][1..] == ""; }
    CountZero(a, sep);
    CountZero(b, sep);
    CountZero(c, sep);
    if Lacks(a, sep) && Lacks(b, sep) && Lacks(c, sep) {
      JoinThree([a, b, c], sep);
      JoinSplit([a, b, c], sep);
    }
  }

  lemma OriginLacks(o: Origin, c: char)
    requires c == '_' || c == '|'
    ensures o.FromPreferences? ==> (Lacks(PrintOrigin(o), c) <==> Lacks(o.argument, c))
    ensures o.FromBotMessage? && c == '_' ==> (Lacks(PrintOrigin(o), c) <==> Lacks(o.channel, c) && Lacks(o.post, c))
  {
  }

  /** What stands behind the second underscore is parsed back exactly when its own separators are alone. */
  lemma OriginRoundTrip(o: Origin)
    ensures var parts := Split(PrintOrigin(o), ':');
            var plain := match o
                         case FromPreferences(argument) => Lacks(argument, ':')
                         case FromBotMessage(channel, post) =>
                           && Lacks(channel, ':') && Lacks(post, ':') && Lacks(channel, '|') && Lacks(post, '|');
            (if |parts| != 2 then None else ParseOrigin(parts[0], parts[1])) == if plain then Some(o) else None
  {
    match o {
      case FromPreferences(argument) =>
        assert PrintOrigin(o) == "fromPreferences" + [':'] + argument;
        SplitTwo("fromPreferences", argument, ':');
      case FromBotMessage(channel, post) =>
        var argument := channel + ['|'] + post;
        assert PrintOrigin(o) == "fromBotMessage" + [':'] + argument;
        SplitTwo("fromBotMessage", argument, ':');
        SplitTwo(channel, post, '|');
        assert Lacks(argument, ':') <==> Lacks(channel, ':') && Lacks(post, ':');
    }
  }

  /** ROUND TRIP. Parsing a printed state gives back what was printed exactly when no separator stands
      where it would be misread, and otherwise the state is rejected: it is never taken for another. */
  lemma RoundTripIff(p: Parsed)
    ensures Parse(Print(p)) == if Unambiguous(p) then Some(p) else None
  {
    var suffix := PrintOrigin(p.origin);
    assert Print(p) == p.stateId + ['_'] + p.user + ['_'] + suffix;
    SplitThree(p.stateId, p.user, suffix, '_');
    OriginLacks(p.origin, '_');
    OriginRoundTrip(p.origin);
    hide Split, PrintOrigin, ParseOrigin, Lacks;
  }

  lemma JoinOfSplitTwo(text: string, sep: char)
    requires |Split(text, sep)| == 2
    ensures Split(text, sep)[0] + [sep] + Split(text, sep)[1] == text
  {
    SplitJoin(text, sep);
    var parts := Split(text, sep);
    assert parts[1..] == [parts[1]];
  }

  lemma ReprintOrigin(text: string)
    requires |Split(text, ':')| == 2 && ParseOrigin(Split(text, ':')[0], Split(text, ':')[1]).Some?
    ensures PrintOrigin(ParseOrigin(Split(text, ':')[0], Split(text, ':')[1]).value) == text
  {
    JoinOfSplitTwo(text, ':');
    var argument := Split(text, ':')[1];
    if Split(text, ':')[0] == "fromPreferences" {
      assert "fromPreferences" + [':'] + argument == "fromPreferences:" + argument;
    } else {
      JoinOfSplitTwo(argument, '|');
      var args := Split(argument, '|');
      assert "fromBotMessage" + [':'] + (args[0] + ['|'] + args[1]) == "fromBotMessage:" + args[0] + "|" + args[1];
    }
  }

  /** RE-PRINT. Printing what was parsed gives back the very state that was parsed. */
  lemma Reprint(state: string)
    requires Parse(state).Some?
    ensures Print(Parse(state).value) == state
  {
    SplitJoin(state, '_');
    JoinThree(Split(state, '_'), '_');
    ReprintOrigin(Split(state, '_')[2]);
  }

  // ----- storing and verifying -----

  const STATE_PREFIX := "oauth2_"
  const VERIFIER_PREFIX := "_code_verifier_"

  /** hashKey, for any hash whatever: nothing below needs it to be injective. */
  function HashKey(hash: string -> string, key: string): string {
    if key == "" then STATE_PREFIX else STATE_PREFIX + hash(key)
  }

  /** The writers of the plugin's key-value store that matter here; entries also expire. */
  datatype Event =
    | Issue(p: Parsed, stored: bool)               // a connect link is made and its state stored
    | StoreVerifier(user: string, verifier: string)
    | DeleteVerifier(user: string)
    | Expire(key: string)

  function Apply(hash: string -> string, kv: map<string, string>, e: Event): map<string, string> {
    match e
    case Issue(p, stored) => if stored then kv[HashKey(hash, Print(p)) := Print(p)] else kv
    case StoreVerifier(user, verifier) => kv[VERIFIER_PREFIX + user := verifier]
    case DeleteVerifier(user) => kv - {VERIFIER_PREFIX + user}
    case Expire(key) => kv - {key}
  }

  function Run(hash: string -> string, kv: map<string, string>, es: seq<Event>): map<string, string>
    decreases |es|
  {
    if es == [] then kv else Run(hash, Apply(hash, kv, es[0]), es[1..])
  }

  predicate Verifies(hash: string -> string, kv: map<string, string>, state: string) {
    HashKey(hash, state) in kv && kv[HashKey(hash, state)] == state
  }

  lemma KeysApart(hash: string -> string, state: string, user: string)
    ensures HashKey(hash, state) != VERIFIER_PREFIX + user
  {
    assert HashKey(hash, state)[0] == 'o';
    assert (VERIFIER_PREFIX + user)[0] == '_';
  }

  /** A state verifies only if it did so from the start or was stored verbatim on the way. */
  lemma {:induction false} VerifiedWasStored(hash: string -> string, kv: map<string, string>, es: seq<Event>,
      state: string)
    requires Verifies(hash, Run(hash, kv, es), state)
    ensures Verifies(hash, kv, state)
            || exists i :: 0 <= i < |es| && es[i].Issue? && es[i].stored && Print(es[i].p) == state
    decreases |es|
  {
    if es != [] {
      var kv' := Apply(hash, kv, es[0]);
      VerifiedWasStored(hash, kv', es[1..], state);
      if Verifies(hash, kv', state) {
        if es[0].StoreVerifier? { KeysApart(hash, state, es[0].user); }
        if es[0].DeleteVerifier? { KeysApart(hash, state, es[0].user); }
      } else {
        var i :| 0 <= i < |es[1..]| && es[1..][i].Issue? && es[1..][i].stored && Print(es[1..][i].p) == state;
        assert es[i + 1] == es[1..][i];
      }
    }
  }

  /** ONLY WHAT WAS ISSUED. If the redirect accepts a state for a user, a channel and a post, a link was
      issued for exactly that user, channel and post: no other link, no code verifier, and no collision
      of the hash can produce it. */
  lemma AcceptedWasIssued(hash: string -> string, es: seq<Event>, state: string)
    requires Parse(state).Some? && Verifies(hash, Run(hash, map[], es), state)
    ensures exists i :: 0 <= i < |es| && es[i].Issue? && es[i].stored && es[i].p == Parse(state).value
  {
    VerifiedWasStored(hash, map[], es, state);
    var i :| 0 <= i < |es| && es[i].Issue? && es[i].stored && Print(es[i].p) == state;
    RoundTripIff(es[i].p);
  }

  /** EXPIRED IS OVER. A state whose entry has expired is rejected until it is issued again. */
  lemma ExpiredIsRejected(hash: string -> string, kv: map<string, string>, es: seq<Event>, state: string)
    requires forall i :: 0 <= i < |es| && es[i].Issue? && es[i].stored ==> Print(es[i].p) != state
    ensures !Verifies(hash, Run(hash, Apply(hash, kv, Expire(HashKey(hash, state))), es), state)
  {
    var without := Apply(hash, kv, Expire(HashKey(hash, state)));
    if Verifies(hash, Run(hash, without, es), state) { VerifiedWasStored(hash, without, es, state); }
  }

  /** Nothing else than its expiry, or another state of the same key, ends a state. */
  predicate Spares(hash: string -> string, e: Event, state: string) {
    && (e.Expire? ==> e.key != HashKey(hash, state))
    && (e.Issue? && HashKey(hash, Print(e.p)) == HashKey(hash, state) ==> Print(e.p) == state)
  }

  lemma {:induction false} SparedStays(hash: string -> string, kv: map<string, string>, es: seq<Event>, state: string)
    requires Verifies(hash, kv, state) && forall i :: 0 <= i < |es| ==> Spares(hash, es[i], state)
    ensures Verifies(hash, Run(hash, kv, es), state)
    decreases |es|
  {
    if es != [] {
      hide HashKey, Print;
      assert Spares(hash, es[0], state);
      if es[0].StoreVerifier? { KeysApart(hash, state, es[0].user); }
      if es[0].DeleteVerifier? { KeysApart(hash, state, es[0].user); }
      SparedStays(hash, Apply(hash, kv, es[0]), es[1..], state);
    }
  }

  /** WHAT IS ISSUED IS ACCEPTED. A state that was issued and stored, and has no separator where it would be
      misread, is accepted for what it was issued for, until it expires or a state of the same key is stored;
      accepting it does not use it up. */
  lemma IssuedIsAccepted(hash: string -> string, kv: map<string, string>, p: Parsed, es: seq<Event>)
    requires Unambiguous(p) && forall i :: 0 <= i < |es| ==> Spares(hash, es[i], Print(p))
    ensures Verifies(hash, Run(hash, Apply(hash, kv, Issue(p, true)), es), Print(p))
    ensures Parse(Print(p)) == Some(p)
  {
    RoundTripIff(p);
    hide HashKey, Print, Parse;
    SparedStays(hash, Apply(hash, kv, Issue(p, true)), es, Print(p));
  }

  datatype VerifyError = Verified | Unavailable | Expired | Invalid

  class StateStore {
    const hash: string -> string
    var kv: map<string, string>

    constructor (hash: string -> string)
      ensures this.hash == hash && kv == map[]
    {
      this.hash := hash;
      this.kv := map[];
    }

    method StoreOAuth2State(state: string, answers: bool) returns (ok: bool)
      modifies this
      ensures ok == answers
      ensures kv == if !ok then old(kv)
                    else if state == "" then old(kv)["oauth2_" := state]
                    else old(kv)["oauth2_" + hash(state) := state]
      ensures ok ==> kv == old(kv)[HashKey(hash, state) := state] && Verifies(hash, kv, state)
    {
      if answers { kv := kv[HashKey(hash, state) := state]; }
      return answers;
    }

    method VerifyOAuth2State(state: string, answers: bool) returns (r: VerifyError)
      ensures r.Verified? <==> answers && Verifies(hash, kv, state)
      ensures r.Unavailable? <==> !answers
      ensures r.Expired? <==> answers && HashKey(hash, state) !in kv
      ensures r.Verified? && state != "" ==> "oauth2_" + hash(state) in kv && kv["oauth2_" + hash(state)] == state
    {
      var key := HashKey(hash, state);
      if !answers { return Unavailable; }
      if key !in kv { return Expired; }
      if kv[key] != state { return Invalid; }
      return Verified;
    }

    /** createAndStoreOAuthState: the link carries the three parts, the store the whole state. A failing
        store is only logged. */
    method CreateAndStoreOAuthState(stateId: string, user: string, channel: string, post: string, answers: bool)
      returns (link: (string, string, string))
      modifies this
      ensures kv == Apply(hash, old(kv), Issue(Parsed(stateId, user, FromBotMessage(channel, post)), answers))
      ensures link == (post, channel, stateId)
    {
      var stateSuffix := "fromBotMessage:" + channel + "|" + post;
      var state := stateId + "_" + user + "_" + stateSuffix;
      var ok := StoreOAuth2State(state, answers);
      link := (post, channel, stateId);
    }

    /** The state that connect takes: a new one for the preferences page, or the one of a bot message
        rebuilt from the link. None when the request is rejected. */
    method DetermineState(user: string, fromPreferences: bool, channel: string, post: string, stateId: string,
        newId: string, answers: bool)
      returns (state: Option<string>)
      modifies this
      ensures fromPreferences ==>
                && kv == Apply(hash, old(kv), Issue(Parsed(newId, user, FromPreferences("true")), answers))
                && state == if answers then Some(Print(Parsed(newId, user, FromPreferences("true")))) else None
      ensures !fromPreferences ==>
                && kv == old(kv)
                && state == if channel != "" && post != "" && stateId != ""
                            then Some(Print(Parsed(stateId, user, FromBotMessage(channel, post)))) else None
    {
      if fromPreferences {
        var created := newId + "_" + user + "_" + "fromPreferences:true";
        assert created == Print(Parsed(newId, user, FromPreferences("true")));
        var ok := StoreOAuth2State(created, answers);
        return if ok then Some(created) else None;
      } else if channel != "" && post != "" && stateId != "" {
        var stateSuffix := "fromBotMessage:" + channel + "|" + post;
        return Some(stateId + "_" + user + "_" + stateSuffix);
      } else {
        return None;
      }
    }

    /** connect: determines the state, rejects a user who is connected already, and stores the code
        verifier; the state and the verifier then go on to Microsoft. */
    method Connect(user: string, fromPreferences: bool, channel: string, post: string, stateId: string,
        newId: string, answers: bool, alreadyConnected: bool, codeVerifier: string, storeVerifier: bool)
      returns (sentOn: Option<(string, string)>)
      modifies this
      ensures var p := if fromPreferences then Parsed(newId, user, FromPreferences("true"))
                       else Parsed(stateId, user, FromBotMessage(channel, post));
              var issued := if fromPreferences then Apply(hash, old(kv), Issue(p, answers)) else old(kv);
              var ok := if fromPreferences then answers else channel != "" && post != "" && stateId != "";
              && (sentOn.Some? <==> ok && !alreadyConnected && storeVerifier)
              && (sentOn.Some? ==> sentOn.value == (Print(p), codeVerifier))
              && kv == if sentOn.Some? then Apply(hash, issued, StoreVerifier(user, codeVerifier)) else issued
    {
      hide Print, HashKey;
      var state := DetermineState(user, fromPreferences, channel, post, stateId, newId, answers);
      if state.None? { return None; }
      if alreadyConnected { return None; }
      if !storeVerifier { return None; }
      kv := kv[VERIFIER_PREFIX + user := codeVerifier];
      return Some((state.value, codeVerifier));
    }

    /** The origin of a redirect, from the third part of its state. */
    method ReadOrigin(text: string) returns (origin: Option<Origin>)
      ensures var info := Split(text, ':'); origin == if |info| != 2 then None else ParseOrigin(info[0], info[1])
    {
      var originInfo := Split(text, ':');
      if |originInfo| != 2 { return None; }
      if originInfo[0] == "fromPreferences" {
        return Some(FromPreferences(originInfo[1]));
      } else if originInfo[0] == "fromBotMessage" {
        var fromBotMessageArgs := Split(originInfo[1], '|');
        if |fromBotMessageArgs| != 2 { return None; }
        return Some(FromBotMessage(fromBotMessageArgs[0], fromBotMessageArgs[1]));
      }
      return None;
    }

    /** The head of oauthRedirectHandler: parses and verifies the state, and uses up the code verifier. A
        missing verifier reads as empty, and one that cannot be deleted stays. The state is not used up. */
    method ReadRedirect(state: string, answers: bool, getVerifier: bool, deleteVerifier: bool)
      returns (accepted: Option<(Parsed, string)>)
      modifies this
      ensures accepted.Some? <==> Parse(state).Some? && answers && Verifies(hash, kv, state) && getVerifier
      ensures accepted.Some? ==>
                && Print(accepted.value.0) == state
                && var key := "_code_verifier_" + accepted.value.0.user;
                   && accepted.value.1 == (if key in old(kv) then old(kv)[key] else "")
                   && kv == (if deleteVerifier then old(kv) - {key} else old(kv))
                   && (deleteVerifier ==> kv == Apply(hash, old(kv), DeleteVerifier(accepted.value.0.user)))
      ensures accepted.None? ==> kv == old(kv)
    {
      var stateArr := Split(state, '_');
      if |stateArr| != 3 { return None; }
      var origin := ReadOrigin(stateArr[2]);
      if origin.None? { return None; }
      var p := Parsed(stateArr[0], stateArr[1], origin.value);
      Reprint(state);
      assert Parse(state) == Some(p);
      hide Parse, Print, Split;
      var verified := VerifyOAuth2State(state, answers);
      if verified != Verified { return None; }
      if !getVerifier { return None; }
      var key := VERIFIER_PREFIX + p.user;
      KeysApart(hash, state, p.user);
      var codeVerifier := if key in kv then kv[key] else "";
      if deleteVerifier { kv := kv - {key}; }
      return Some((p, codeVerifier));
    }
  }
}
