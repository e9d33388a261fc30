/** The script that rebuilds the daily allowances of one project in the shared hash. Keys are
    project:user:field, and the project id is used as a Lua pattern, in which a dot matches any byte and
    a byte followed by one of ? * + - may be left out or repeated. */
module QuotaRebuild {
  import opened Basics
  import opened QuotaCounter

  const DIET_PROJECT := "com.bluex.dietai"

  datatype Tier = Tier(text: int, image: int)

  // ----- keys -----

  function Key(project: string, user: string, field: string): string {
    project + ":" + user + ":" + field
  }

  predicate ColonFree(s: string) { ':' !in s }

  predicate DotFree(s: string) { '.' !in s }

  // ----- the project id as a pattern -----

  predicate Quantifier(c: char) {
    c == '?' || c == '*' || c == '+' || c == '-'
  }

  /** The first byte of the pattern carries a repetition. */
  predicate Repeated(pattern: string) {
    |pattern| >= 2 && Quantifier(pattern[1])
  }

  /** The ids modelled: no capture, class or escape, and no anchor of its own. */
  predicate KnownPattern(project: string) {
    && (forall c :: c in project ==> c != '(' && c != ')' && c != '[' && c != '%' && c != '\0')
    && (project == "" || project[0] != '^')
  }

  /** A repetition needs a byte before it, so the first byte stands for itself or is the dot. */
  predicate Plain(project: string) {
    forall i :: 1 <= i < |project| ==> !Quantifier(project[i])
  }

  predicate Literal(project: string) { DotFree(project) && Plain(project) }

  predicate Single(c: char, s: string) {
    s != "" && (c == '.' || c == s[0])
  }

  predicate MayBeLeftOut(pattern: string) {
    Repeated(pattern) && pattern[1] != '+'
  }

  /** What is left to match once the first byte of the pattern has matched one byte. */
  function AfterOne(pattern: string): (rest: string)
    requires pattern != ""
    ensures |rest| <= |pattern|
  {
    if !Repeated(pattern) then pattern[1..]
    else if pattern[1] == '?' then pattern[2..]
    else if pattern[1] == '+' then pattern[1 := '*']
    else pattern
  }

  /** What each match at the head of s leaves behind, in the order in which the matcher tries them: all
      repetitions but - try to match more bytes first. */
  function Rests(pattern: string, s: string): seq<string>
    decreases |pattern| + |s|
  {
    if pattern == "" then [s]
    else
      var more := if Single(pattern[0], s) then Rests(AfterOne(pattern), s[1..]) else [];
      var fewer := if MayBeLeftOut(pattern) then Rests(pattern[2..], s) else [];
      if Repeated(pattern) && pattern[1] == '-' then fewer + more else more + fewer
  }

  /** The whole of s matches. */
  predicate Matches(pattern: string, s: string) {
    "" in Rests(pattern, s)
  }

  /** "^project:" at the head of the key. */
  predicate HeadMatches(project: string, key: string) {
    exists rest :: rest in Rests(project, key) && rest != "" && rest[0] == ':'
  }

  function FirstColon(s: string): (n: nat)
    ensures n <= |s|
  {
    if s == [] || s[0] == ':' then 0 else 1 + FirstColon(s[1..])
  }

  /** ":([^:]+):" at the head of what is left. */
  function UserBehind(rest: string): Option<string> {
    if rest == "" || rest[0] != ':' then None
    else
      var n := FirstColon(rest[1..]);
      if 0 < n < |rest| - 1 then Some(rest[1..][..n]) else None
  }

  /** The first way to match that leaves a user behind. */
  function FirstUser(rests: seq<string>): Option<string> {
    if rests == [] then None
    else if UserBehind(rests[0]).Some? then UserBehind(rests[0])
    else FirstUser(rests[1..])
  }

  /** "project:([^:]+):" at the head of the key. */
  function CaptureHere(project: string, key: string): Option<string> {
    FirstUser(Rests(project, key))
  }

  /** The same pattern, unanchored: the first place where it matches. */
  function Capture(project: string, key: string): Option<string>
    decreases |key|
  {
    var here := CaptureHere(project, key);
    if here.Some? || key == [] then here else Capture(project, key[1..])
  }

  /** What the deleting pass removes. */
  predicate Doomed(project: string, key: string, valid: set<string>) {
    HeadMatches(project, key) && match Capture(project, key) case Some(user) => user !in valid case None => true
  }

  // ----- the new hash -----

  /** Who is in which list; true for subscribers. Later entries overwrite. */
  function ValidUsers(subscribed: seq<string>, others: seq<string>): (valid: map<string, bool>)
    ensures forall u :: u in valid <==> u in subscribed || u in others
    ensures forall u :: u in valid ==> (valid[u] <==> u !in others)
  {
    map u | u in subscribed + others :: u !in others
  }

  function TierOf(project: string, subscribed: bool): Tier {
    if project == DIET_PROJECT then if subscribed then Tier(30000, 30000) else Tier(1, 30000)
    else if subscribed then Tier(300000, 300000) else Tier(30000, 3)
  }

  predicate Writes(project: string, valid: set<string>, key: string) {
    exists u :: u in valid && (key == Key(project, u, TEXT_FIELD) || key == Key(project, u, IMAGE_FIELD))
  }

  predicate Survives(project: string, valid: set<string>, key: string, delete: bool) {
    !(delete && Doomed(project, key, valid))
  }

  /** The hash after the script, key by key. */
  ghost predicate Rebuilt(h: Hash, h': Hash, project: string, valid: map<string, bool>, delete: bool) {
    && Written(h', project, valid, valid.Keys)
    && Others(h, h', project, valid, valid.Keys, delete)
  }

  ghost predicate Written(h: Hash, project: string, valid: map<string, bool>, done: set<string>)
    requires done <= valid.Keys
  {
    forall u :: u in done ==> HasTier(h, project, u, TierOf(project, valid[u]))
  }

  ghost predicate HasTier(h: Hash, project: string, user: string, tier: Tier) {
    && Key(project, user, TEXT_FIELD) in h && h[Key(project, user, TEXT_FIELD)] == tier.text
    && Key(project, user, IMAGE_FIELD) in h && h[Key(project, user, IMAGE_FIELD)] == tier.image
  }

  ghost predicate Others(h: Hash, h': Hash, project: string, valid: map<string, bool>, done: set<string>,
                         delete: bool) {
    forall k :: !Writes(project, done, k) ==>
      ((k in h' <==> k in h && Survives(project, valid.Keys, k, delete)) && (k in h' ==> h'[k] == h[k]))
  }

  // ----- keys do not collide -----

  lemma SameField(project: string, u: string, v: string, field: string)
    requires Key(project, u, field) == Key(project, v, field)
    ensures u == v
  {
    var a, b := Key(project, u, field), Key(project, v, field);
    assert |u| == |v|;
    assert a[|project| + 1..][..|u|] == u;
    assert b[|project| + 1..][..|v|] == v;
  }

  lemma OtherField(project: string, u: string, v: string)
    ensures Key(project, u, TEXT_FIELD) != Key(project, v, IMAGE_FIELD)
  {
    var a, b := Key(project, u, TEXT_FIELD), Key(project, v, IMAGE_FIELD);
    assert a[|a| - 13] == 't';
    assert b[|b| - 13] == 'e';
  }

  // ----- the script -----

  class AmountHash {
    var hash: Hash

    method Build(subscribeUsers: seq<string>, notSubscribeUsers: seq<string>) returns (validUsers: map<string, bool>)
      ensures validUsers == ValidUsers(subscribeUsers, notSubscribeUsers)
    {
      validUsers := map[];
      for i := 0 to |subscribeUsers|
        invariant forall u :: u in validUsers <==> u in subscribeUsers[..i]
        invariant forall u :: u in validUsers ==> validUsers[u]
      {
        validUsers := validUsers[subscribeUsers[i] := true];
      }
      for i := 0 to |notSubscribeUsers|
        invariant forall u :: u in validUsers <==> u in subscribeUsers || u in notSubscribeUsers[..i]
        invariant forall u :: u in validUsers ==> (validUsers[u] <==> u !in notSubscribeUsers[..i])
      {
        validUsers := validUsers[notSubscribeUsers[i] := false];
      }
    }

    method DeleteInvalid(projectID: string, validUsers: map<string, bool>) returns (deleted: nat)
      requires KnownPattern(projectID)
      modifies this
      ensures hash.Keys == set k | k in old(hash) && !Doomed(projectID, k, validUsers.Keys)
      ensures forall k :: k in hash ==> hash[k] == old(hash)[k]
      ensures deleted == |old(hash)| - |hash|
    {
      deleted := 0;
      var keys := hash.Keys;
      while keys != {}
        invariant keys <= hash.Keys <= old(hash).Keys
        invariant forall k :: k in old(hash) && k !in keys ==> (k in hash <==> !Doomed(projectID, k, validUsers.Keys))
        invariant forall k :: k in hash ==> hash[k] == old(hash)[k]
        invariant deleted == |old(hash)| - |hash|
      {
        var key :| key in keys;
        if HeadMatches(projectID, key) {
          var userID := Capture(projectID, key);
          if userID.None? || userID.value !in validUsers {
            assert |hash - {key}| == |hash| - 1 by { assert (hash - {key}).Keys == hash.Keys - {key}; }
            hash := hash - {key};
            deleted := deleted + 1;
          }
        }
        keys := keys - {key};
      }
    }

    method SetTier(projectID: string, userID: string, subscribed: bool)
      modifies this
      ensures hash == old(hash)[Key(projectID, userID, TEXT_FIELD) := TierOf(projectID, subscribed).text]
                               [Key(projectID, userID, IMAGE_FIELD) := TierOf(projectID, subscribed).image]
    {
      var textKey, imageKey := Key(projectID, userID, TEXT_FIELD), Key(projectID, userID, IMAGE_FIELD);
      if projectID == DIET_PROJECT {
        if subscribed {
          hash := hash[textKey := 30000];
          hash := hash[imageKey := 30000];
        } else {
          hash := hash[textKey := 1];
          hash := hash[imageKey := 30000];
        }
      } else {
        if subscribed {
          hash := hash[textKey := 300000];
          hash := hash[imageKey := 300000];
        } else {
          hash := hash[textKey := 30000];
          hash := hash[imageKey := 3];
        }
      }
    }

    method WriteTiers(projectID: string, validUsers: map<string, bool>, ghost h0: Hash, ghost delete: bool)
      returns (updated: nat)
      requires Others(h0, hash, projectID, validUsers, {}, delete)
      modifies this
      ensures Rebuilt(h0, hash, projectID, validUsers, delete)
      ensures updated == 2 * |validUsers|
    {
      updated := 0;
      ghost var done: set<string> := {};
      var todo := validUsers.Keys;
      while todo != {}
        invariant todo !! done && todo + done == validUsers.Keys
        invariant Written(hash, projectID, validUsers, done)
        invariant Others(h0, hash, projectID, validUsers, done, delete)
        invariant updated == 2 * |done|
      {
        var userID :| userID in todo;
        ghost var before := hash;
        SetTier(projectID, userID, validUsers[userID]);
        TierStep(h0, before, hash, projectID, validUsers, done, userID, delete);
        updated := updated + 2;
        todo, done := todo - {userID}, done + {userID};
      }
      assert done == validUsers.Keys;
      assert |done| == |validUsers|;
    }

    method Update(projectID: string, subscribeUsers: seq<string>, notSubscribeUsers: seq<string>,
                  shouldDeleteInvalid: bool)
      returns (deleted: nat, updated: nat)
      requires KnownPattern(projectID)
      modifies this
      ensures Rebuilt(old(hash), hash, projectID, ValidUsers(subscribeUsers, notSubscribeUsers), shouldDeleteInvalid)
      ensures updated == 2 * |ValidUsers(subscribeUsers, notSubscribeUsers)|
      ensures deleted == if !shouldDeleteInvalid then 0 else
                |set k | k in old(hash) && Doomed(projectID, k, ValidUsers(subscribeUsers, notSubscribeUsers).Keys)|
    {
      var validUsers := Build(subscribeUsers, notSubscribeUsers);
      deleted := 0;
      if shouldDeleteInvalid {
        deleted := DeleteInvalid(projectID, validUsers);
        CountDoomed(old(hash), hash, projectID, validUsers.Keys);
      }
      updated := WriteTiers(projectID, validUsers, old(hash), shouldDeleteInvalid);
    }
  }

  lemma CountDoomed(h: Hash, h': Hash, project: string, valid: set<string>)
    requires h'.Keys == set k | k in h && !Doomed(project, k, valid)
    ensures |h| - |h'| == |set k | k in h && Doomed(project, k, valid)|
  {
    var doomed := set k | k in h && Doomed(project, k, valid);
    assert h.Keys == h'.Keys + doomed && h'.Keys !! doomed;
    assert |h| == |h.Keys| && |h'| == |h'.Keys|;
  }

  lemma TierStep(h0: Hash, h: Hash, h': Hash, project: string, valid: map<string, bool>, done: set<string>,
                 user: string, delete: bool)
    requires user in valid && done <= valid.Keys
    requires Written(h, project, valid, done) && Others(h0, h, project, valid, done, delete)
    requires h' == h[Key(project, user, TEXT_FIELD) := TierOf(project, valid[user]).text]
                    [Key(project, user, IMAGE_FIELD) := TierOf(project, valid[user]).image]
    ensures Written(h', project, valid, done + {user}) && Others(h0, h', project, valid, done + {user}, delete)
  {
    forall u | u in done + {user} ensures HasTier(h', project, u, TierOf(project, valid[u])) {
      OtherField(project, u, user);
      OtherField(project, user, u);
      if u != user { KeepsTier(h, h', project, u, user, TierOf(project, valid[u])); }
    }
    forall k | !Writes(project, done + {user}, k)
      ensures !Writes(project, done, k) && k != Key(project, user, TEXT_FIELD) && k != Key(project, user, IMAGE_FIELD)
    {
      assert user in done + {user};
      assert Writes(project, done, k) ==> Writes(project, done + {user}, k);
    }
  }

  lemma KeepsTier(h: Hash, h': Hash, project: string, u: string, user: string, tier: Tier)
    requires u != user && HasTier(h, project, u, tier)
    requires forall k :: k in h && k != Key(project, user, TEXT_FIELD) && k != Key(project, user, IMAGE_FIELD) ==>
                           k in h' && h'[k] == h[k]
    ensures HasTier(h', project, u, tier)
  {
    OtherField(project, u, user);
    OtherField(project, user, u);
    if Key(project, u, TEXT_FIELD) == Key(project, user, TEXT_FIELD) { SameField(project, u, user, TEXT_FIELD); }
    if Key(project, u, IMAGE_FIELD) == Key(project, user, IMAGE_FIELD) { SameField(project, u, user, IMAGE_FIELD); }
  }

  // ----- what the pattern reaches -----

  lemma {:induction false} RestIsSuffix(pattern: string, s: string, rest: string)
    requires rest in Rests(pattern, s)
    ensures |rest| <= |s| && rest == s[|s| - |rest|..]
    decreases |pattern| + |s|
  {
    if pattern != "" {
      if Single(pattern[0], s) && rest in Rests(AfterOne(pattern), s[1..]) {
        RestIsSuffix(AfterOne(pattern), s[1..], rest);
      }
      if MayBeLeftOut(pattern) && rest in Rests(pattern[2..], s) {
        RestIsSuffix(pattern[2..], s, rest);
      }
    }
  }

  /** What is behind position n is left behind exactly when what is before it matches. */
  lemma {:induction false} RestsIff(pattern: string, s: string, n: nat)
    requires n <= |s|
    ensures s[n..] in Rests(pattern, s) <==> Matches(pattern, s[..n])
    decreases |pattern| + |s|
  {
    if pattern == "" {
      assert Rests(pattern, s[..n]) == [s[..n]];
    } else {
      if MayBeLeftOut(pattern) { RestsIff(pattern[2..], s, n); }
      if n == 0 {
        if s != "" && s in Rests(AfterOne(pattern), s[1..]) { RestIsSuffix(AfterOne(pattern), s[1..], s); }
      } else {
        assert s[1..][n - 1..] == s[n..] && s[1..][..n - 1] == s[..n][1..];
        RestsIff(AfterOne(pattern), s[1..], n - 1);
      }
    }
  }

  /** The anchored pattern finds its colon exactly behind a head that matches. */
  lemma HeadMatchesIff(project: string, key: string)
    ensures HeadMatches(project, key) <==> exists n :: 0 <= n < |key| && key[n] == ':' && Matches(project, key[..n])
  {
    if rest :| rest in Rests(project, key) && rest != "" && rest[0] == ':' {
      RestIsSuffix(project, key, rest);
      RestsIff(project, key, |key| - |rest|);
      assert Matches(project, key[..|key| - |rest|]);
    }
    if n :| 0 <= n < |key| && key[n] == ':' && Matches(project, key[..n]) {
      RestsIff(project, key, n);
      assert key[n..] in Rests(project, key) && key[n..][0] == ':';
    }
  }

  lemma {:induction false} FirstUserIn(rests: seq<string>, user: string)
    requires forall r :: r in rests ==> UserBehind(r).None? || UserBehind(r) == Some(user)
    ensures FirstUser(rests) == if exists r :: r in rests && UserBehind(r).Some? then Some(user) else None
  {
    if rests != [] { FirstUserIn(rests[1..], user); }
  }

  lemma {:induction false} FirstColonAfter(user: string, t: string)
    requires ColonFree(user)
    ensures FirstColon(user + ":" + t) == |user|
  {
    var s := user + ":" + t;
    if user != [] {
      assert s[1..] == user[1..] + ":" + t;
      FirstColonAfter(user[1..], t);
    }
  }

  lemma {:induction false} FirstColonNone(s: string)
    requires ColonFree(s)
    ensures FirstColon(s) == |s|
  {
    if s != [] { FirstColonNone(s[1..]); }
  }

  /** The only place of a key that has a user behind it is the end of its project; an empty user is none. */
  lemma UserBehindKey(other: string, user: string, field: string, n: nat)
    requires ColonFree(other) && ColonFree(user) && ColonFree(field)
    requires n <= |Key(other, user, field)|
    ensures UserBehind(Key(other, user, field)[n..]) == if n == |other| && user != "" then Some(user) else None
  {
    var key := Key(other, user, field);
    if n == |other| {
      assert key[n..][1..] == user + ":" + field;
      FirstColonAfter(user, field);
      assert (user + ":" + field)[..|user|] == user;
    } else if n < |other| {
      assert key[n..][0] == other[n];
    } else {
      NoUserBehind(user, field, n - |other| - 1);
      assert key[n..] == (user + ":" + field)[n - |other| - 1..];
    }
  }

  lemma NoUserBehind(user: string, field: string, n: nat)
    requires ColonFree(user) && ColonFree(field) && n <= |user + ":" + field|
    ensures UserBehind((user + ":" + field)[n..]) == None
  {
    var s := user + ":" + field;
    if n < |user| {
      assert s[n..][0] == user[n];
    } else if n == |user| {
      assert s[n..][1..] == field;
      FirstColonNone(field);
    } else if n < |s| {
      assert s[n..][0] == field[n - |user| - 1];
    }
  }

  lemma CaptureHereOfKey(project: string, other: string, user: string, field: string)
    requires ColonFree(other) && ColonFree(user) && ColonFree(field)
    ensures CaptureHere(project, Key(other, user, field)) ==
              if Matches(project, other) && user != "" then Some(user) else None
  {
    var key := Key(other, user, field);
    var rests := Rests(project, key);
    forall r | r in rests ensures UserBehind(r) == if r == key[|other|..] && user != "" then Some(user) else None {
      RestIsSuffix(project, key, r);
      UserBehindKey(other, user, field, |key| - |r|);
    }
    FirstUserIn(rests, user);
    RestsIff(project, key, |other|);
    assert key[..|other|] == other;
  }

  lemma {:induction false} CaptureNothing(project: string, s: string)
    requires forall n :: 0 <= n <= |s| ==> UserBehind(s[n..]) == None
    ensures Capture(project, s) == None
    decreases |s|
  {
    forall r | r in Rests(project, s) ensures UserBehind(r) == None {
      RestIsSuffix(project, s, r);
    }
    FirstUserIn(Rests(project, s), "");
    if s != [] {
      assert forall n :: 0 <= n <= |s[1..]| ==> s[1..][n..] == s[n + 1..];
      CaptureNothing(project, s[1..]);
    }
  }

  /** The unanchored pattern may start anywhere, so it reads off the user when any end of the other
      project matches. */
  predicate EndMatches(project: string, other: string) {
    Matches(project, other) || (other != "" && EndMatches(project, other[1..]))
  }

  lemma {:induction false} CaptureOfKey(project: string, other: string, user: string, field: string)
    requires ColonFree(other) && ColonFree(user) && ColonFree(field)
    ensures Capture(project, Key(other, user, field)) ==
              if EndMatches(project, other) && user != "" then Some(user) else None
    decreases |other|
  {
    var key := Key(other, user, field);
    CaptureHereOfKey(project, other, user, field);
    if !Matches(project, other) || user == "" {
      if other == "" {
        assert key[1..] == user + ":" + field;
        forall n | 0 <= n <= |key[1..]| ensures UserBehind(key[1..][n..]) == None { NoUserBehind(user, field, n); }
        CaptureNothing(project, key[1..]);
      } else {
        assert key[1..] == Key(other[1..], user, field);
        CaptureOfKey(project, other[1..], user, field);
      }
    }
  }

  lemma NoOtherColon(other: string, user: string, field: string, n: nat)
    requires ColonFree(other) && ColonFree(user) && ColonFree(field)
    requires n < |Key(other, user, field)| && n != |other| && n != |other| + 1 + |user|
    ensures Key(other, user, field)[n] != ':'
  {
    assert Key(other, user, field)[n] == if n < |other| then other[n]
                                         else if n < |other| + 1 + |user| then user[n - |other| - 1]
                                         else field[n - |other| - |user| - 2];
  }

  /** A key has two colons the head can end at. */
  lemma HeadMatchesKey(project: string, other: string, user: string, field: string)
    requires ColonFree(other) && ColonFree(user) && ColonFree(field)
    ensures HeadMatches(project, Key(other, user, field)) <==>
              Matches(project, other) || Matches(project, other + ":" + user)
  {
    var key := Key(other, user, field);
    HeadMatchesIff(project, key);
    assert key[..|other|] == other && key[|other|] == ':';
    var both := other + ":" + user;
    assert key[..|both|] == both && key[|both|] == ':';
    assert key == both + ":" + field;
    forall n | 0 <= n < |key| && n != |other| && n != |both| ensures key[n] != ':' {
      NoOtherColon(other, user, field, n);
    }
  }

  /** Which entries the deleting pass removes: those whose project matches, or whose project and user
      together match over their colon; but not those of a user in a list when some end of the project
      matches, as the user is read off then. An empty user is never read off. */
  predicate Reaches(project: string, other: string, user: string, valid: set<string>) {
    && (Matches(project, other) || Matches(project, other + ":" + user))
    && (EndMatches(project, other) && user != "" ==> user !in valid)
  }

  lemma DoomedIff(project: string, other: string, user: string, field: string, valid: set<string>)
    requires KnownPattern(project)
    requires ColonFree(other) && ColonFree(user) && ColonFree(field)
    ensures Doomed(project, Key(other, user, field), valid) <==> Reaches(project, other, user, valid)
  {
    HeadMatchesKey(project, other, user, field);
    CaptureOfKey(project, other, user, field);
  }

  // ----- what the repetitions mean -----

  /** The first n bytes each match c. */
  predicate AllMatch(c: char, s: string, n: nat)
    requires n <= |s|
  {
    forall i :: 0 <= i < n ==> c == '.' || s[i] == c
  }

  /** A byte without a repetition stands for one byte: itself, or any if it is the dot. */
  lemma ByteMatchesIff(pattern: string, s: string)
    requires pattern != "" && !(|pattern| >= 2 && pattern[1] in {'?', '*', '+', '-'})
    ensures Matches(pattern, s) <==>
              s != "" && (pattern[0] == '.' || pattern[0] == s[0]) && Matches(pattern[1..], s[1..])
  {
  }

  /** How often a repetition lets its byte occur. */
  predicate Allowed(q: char, n: nat) {
    (q == '?' ==> n <= 1) && (q == '+' ==> n >= 1)
  }

  ghost predicate SplitsAfter(pattern: string, s: string, n: nat)
    requires |pattern| >= 2
  {
    n <= |s| && Allowed(pattern[1], n) && AllMatch(pattern[0], s, n) && Matches(pattern[2..], s[n..])
  }

  /** A byte with a repetition stands for that many: at most one for ?, at least one for +, any number for *
      and -. */
  lemma {:induction false} RepetitionMatchesIff(pattern: string, s: string)
    requires |pattern| >= 2 && pattern[1] in {'?', '*', '+', '-'}
    ensures Matches(pattern, s) <==> exists n :: SplitsAfter(pattern, s, n)
    decreases |s|, if pattern[1] == '+' then 1 else 0
  {
    var c, rest := pattern[0], pattern[2..];
    if pattern[1] == '?' {
      OptionalMatches(pattern, s);
    } else if pattern[1] == '+' {
      PlusMatches(pattern, s);
      var star, tail := pattern[1 := '*'], if s == "" then "" else s[1..];
      if Single(c, s) {
        RepetitionMatchesIff(star, tail);
        if n :| SplitsAfter(star, tail, n) { OneMoreByte(pattern, star, s, n); }
      }
      if n :| SplitsAfter(pattern, s, n) { OneByteLess(pattern, star, s, n); }
    } else {
      StarMatches(pattern, s);
      if Single(c, s) {
        RepetitionMatchesIff(pattern, s[1..]);
        if n :| SplitsAfter(pattern, s[1..], n) { OneMoreByte(pattern, pattern, s, n); }
      }
      if Matches(rest, s) { assert s[0..] == s && SplitsAfter(pattern, s, 0); }
      if n :| SplitsAfter(pattern, s, n) {
        if n == 0 { assert s[0..] == s; } else { OneByteLess(pattern, pattern, s, n); }
      }
    }
  }

  lemma OptionalMatches(pattern: string, s: string)
    requires |pattern| >= 2 && pattern[1] == '?'
    ensures Matches(pattern, s) <==> exists n :: SplitsAfter(pattern, s, n)
  {
    assert Matches(pattern, s) <==>
             (Single(pattern[0], s) && Matches(pattern[2..], s[1..])) || Matches(pattern[2..], s);
    assert s[0..] == s;
    if Single(pattern[0], s) && Matches(pattern[2..], s[1..]) { assert SplitsAfter(pattern, s, 1); }
    if Matches(pattern[2..], s) { assert SplitsAfter(pattern, s, 0); }
    if n :| SplitsAfter(pattern, s, n) { assert n == 0 || n == 1; }
  }

  lemma PlusMatches(pattern: string, s: string)
    requires |pattern| >= 2 && pattern[1] == '+'
    ensures Matches(pattern, s) <==> Single(pattern[0], s) && Matches(pattern[1 := '*'], s[1..])
  {
  }

  lemma StarMatches(pattern: string, s: string)
    requires |pattern| >= 2 && (pattern[1] == '*' || pattern[1] == '-')
    ensures Matches(pattern, s) <==>
              (Single(pattern[0], s) && Matches(pattern, s[1..])) || Matches(pattern[2..], s)
  {
  }

  lemma OneMoreByte(pattern: string, other: string, s: string, n: nat)
    requires |pattern| >= 2 && pattern[1] != '?' && |other| >= 2 && other[0] == pattern[0] && other[2..] == pattern[2..]
    requires Single(pattern[0], s) && SplitsAfter(other, s[1..], n)
    ensures SplitsAfter(pattern, s, n + 1)
  {
    assert s[n + 1..] == s[1..][n..];
    assert forall i :: 1 <= i < n + 1 ==> s[i] == s[1..][i - 1];
  }

  lemma OneByteLess(pattern: string, other: string, s: string, n: nat)
    requires |pattern| >= 2 && |other| >= 2 && other[0] == pattern[0] && other[2..] == pattern[2..]
    requires (other[1] == '*' || other[1] == '-') && n >= 1 && SplitsAfter(pattern, s, n)
    ensures Single(pattern[0], s) && SplitsAfter(other, s[1..], n - 1)
  {
    assert s[1..][n - 1..] == s[n..];
    assert forall i :: 0 <= i < n - 1 ==> s[1..][i] == s[i + 1];
  }

  // ----- which ids are safe -----

  /** Without repetitions the id matches byte by byte. */
  lemma {:induction false} PlainMatches(project: string, s: string)
    requires Plain(project)
    ensures Matches(project, s) <==>
              |s| == |project| && forall i :: 0 <= i < |s| ==> project[i] == '.' || project[i] == s[i]
  {
    if project != "" {
      assert !Repeated(project);
      if s != "" {
        PlainMatches(project[1..], s[1..]);
        assert forall i :: 1 <= i < |project| ==> project[i] == project[1..][i - 1];
        assert forall i :: 1 <= i < |s| ==> s[i] == s[1..][i - 1];
      }
    }
  }

  lemma {:induction false} NoShortEnd(project: string, s: string)
    requires Plain(project) && |s| < |project|
    ensures !EndMatches(project, s)
    decreases |s|
  {
    PlainMatches(project, s);
    if s != "" { NoShortEnd(project, s[1..]); }
  }

  lemma LiteralMatches(project: string, s: string)
    requires Literal(project)
    ensures Matches(project, s) <==> s == project
  {
    PlainMatches(project, s);
    assert |s| == |project| ==> forall i :: 0 <= i < |s| ==> project[i] in project;
  }

  /** The shortest text that matches. */
  function Shortest(pattern: string): (s: string)
    ensures |s| <= |pattern|
  {
    if pattern == "" then ""
    else if MayBeLeftOut(pattern) then Shortest(pattern[2..])
    else if Repeated(pattern) then [pattern[0]] + Shortest(pattern[2..])
    else [pattern[0]] + Shortest(pattern[1..])
  }

  lemma {:induction false} ShortestMatches(pattern: string)
    ensures Matches(pattern, Shortest(pattern))
    ensures ColonFree(pattern) ==> ColonFree(Shortest(pattern))
    ensures !Plain(pattern) ==> |Shortest(pattern)| < |pattern|
    decreases |pattern|
  {
    if pattern != "" {
      var s := Shortest(pattern);
      if Repeated(pattern) {
        ShortestMatches(pattern[2..]);
        if pattern[1] == '+' {
          assert s[1..] == Shortest(pattern[2..]);
          assert pattern[1 := '*'][2..] == pattern[2..];
          assert Matches(pattern[1 := '*'], s[1..]);
        }
      } else {
        ShortestMatches(pattern[1..]);
        assert s[1..] == Shortest(pattern[1..]);
        if Plain(pattern[1..]) {
          forall i | 1 <= i < |pattern| ensures !Quantifier(pattern[i]) {
            if i > 1 { assert pattern[i] == pattern[1..][i - 1]; }
          }
        }
      }
    }
  }

  /** A dot stands for the colon behind the shorter project in front of it: of that project the user
      named behind the dot loses its entries, whoever is in the lists. */
  lemma DotMatchesColon(project: string, i: nat, field: string, valid: set<string>)
    requires KnownPattern(project) && Plain(project) && ColonFree(project)
    requires i < |project| - 1 && project[i] == '.' && ColonFree(field)
    ensures Doomed(project, Key(project[..i], project[i + 1..], field), valid)
  {
    var other, user := project[..i], project[i + 1..];
    assert other + ":" + user == project[i := ':'];
    PlainMatches(project, project[i := ':']);
    NoShortEnd(project, other);
    DoomedIff(project, other, user, field, valid);
  }

  lemma {:induction false} HyphenMatches(s: string)
    requires Matches("a-b", s)
    ensures '-' !in s
    decreases |s|
  {
    assert "a-b"[2..] == "b";
    if Matches("b", s) {
      PlainMatches("b", s);
    } else {
      HyphenMatches(s[1..]);
    }
  }

  /** The hyphen of "a-b" repeats the a: entries of project "b" go, and the id's own never do. */
  lemma HyphenMissesItself(user: string, valid: set<string>)
    requires ColonFree(user) && user != ""
    ensures Doomed("a-b", Key("b", user, TEXT_FIELD), valid) <==> user !in valid
    ensures !Doomed("a-b", Key("a-b", user, TEXT_FIELD), valid)
  {
    assert "a-b"[2..] == "b";
    PlainMatches("b", "b");
    DoomedIff("a-b", "b", user, TEXT_FIELD, valid);
    assert '-' == "a-b"[1] && '-' == ("a-b" + ":" + user)[1];
    DoomedIff("a-b", "a-b", user, TEXT_FIELD, valid);
    if Matches("a-b", "a-b") { HyphenMatches("a-b"); }
    if Matches("a-b", "a-b" + ":" + user) { HyphenMatches("a-b" + ":" + user); }
  }

  lemma LiteralRests(project: string, key: string, rest: string)
    requires Literal(project)
    ensures rest in Rests(project, key) <==> key == project + rest
  {
    if rest in Rests(project, key) {
      RestIsSuffix(project, key, rest);
      RestsIff(project, key, |key| - |rest|);
      LiteralMatches(project, key[..|key| - |rest|]);
    }
    if key == project + rest {
      assert key[..|project|] == project && key[|project|..] == rest;
      RestsIff(project, key, |project|);
      LiteralMatches(project, project);
    }
  }

  lemma SameHead(a: string, b: string, s: string, t: string)
    requires ColonFree(a) && ColonFree(b) && a + ":" + s == b + ":" + t
    ensures a == b
  {
    FirstColonAfter(a, s);
    FirstColonAfter(b, t);
    assert (a + ":" + s)[..|a|] == a && (b + ":" + t)[..|b|] == b;
  }

  lemma LiteralHeadOnly(project: string, other: string, t: string, rest: string)
    requires Literal(project) && ColonFree(project) && ColonFree(other)
    requires rest in Rests(project, other + ":" + t) && rest != "" && rest[0] == ':'
    ensures other == project
  {
    LiteralRests(project, other + ":" + t, rest);
    assert project + rest == project + ":" + rest[1..];
    SameHead(project, other, rest[1..], t);
  }

  lemma LiteralHead(project: string, other: string, t: string)
    requires Literal(project) && ColonFree(project) && ColonFree(other)
    ensures HeadMatches(project, other + ":" + t) <==> other == project
  {
    if rest :| rest in Rests(project, other + ":" + t) && rest != "" && rest[0] == ':' {
      LiteralHeadOnly(project, other, t, rest);
    }
    if other == project {
      var rest := ":" + t;
      assert project + rest == other + ":" + t;
      LiteralRests(project, other + ":" + t, rest);
    }
  }

  /** Without repetitions the id finds its own entries, and the user behind it. */
  lemma PlainRest(project: string, t: string, rest: string)
    requires Plain(project)
    ensures rest in Rests(project, project + t) <==> rest == t
  {
    var key := project + t;
    if rest in Rests(project, key) {
      RestIsSuffix(project, key, rest);
      RestsIff(project, key, |key| - |rest|);
      PlainMatches(project, key[..|key| - |rest|]);
    }
    assert key[..|project|] == project && key[|project|..] == t;
    RestsIff(project, key, |project|);
    PlainMatches(project, project);
  }

  lemma PlainCapture(project: string, user: string, field: string)
    requires Plain(project) && ColonFree(user) && user != ""
    ensures HeadMatches(project, Key(project, user, field))
    ensures Capture(project, Key(project, user, field)) == Some(user)
  {
    var key, rest := Key(project, user, field), ":" + user + ":" + field;
    assert key == project + rest;
    assert rest[1..] == user + ":" + field;
    FirstColonAfter(user, field);
    assert (user + ":" + field)[..|user|] == user;
    PlainRest(project, rest, rest);
    forall r | r in Rests(project, key) ensures r == rest { PlainRest(project, rest, r); }
    FirstUserIn(Rests(project, key), user);
  }

  /** A literal id reaches its own entries of users in neither list, whatever the field, and nothing else. */
  lemma DoomedLiteral(project: string, other: string, user: string, field: string, valid: set<string>)
    requires KnownPattern(project) && Literal(project)
    requires ColonFree(project) && ColonFree(other) && ColonFree(user) && user != ""
    ensures Doomed(project, Key(other, user, field), valid) <==> other == project && user !in valid
  {
    assert Key(other, user, field) == other + ":" + (user + ":" + field);
    LiteralHead(project, other, user + ":" + field);
    PlainCapture(project, user, field);
  }

  lemma LiteralSpares(project: string, other: string, user: string, field: string, valid: set<string>)
    requires Literal(project) && ColonFree(project) && ColonFree(other) && other != project
    ensures !Doomed(project, Key(other, user, field), valid)
  {
    assert Key(other, user, field) == other + ":" + (user + ":" + field);
    LiteralHead(project, other, user + ":" + field);
  }

  /** No entry of another project is ever removed. */
  ghost predicate SparesOthers(project: string) {
    forall other, user, field, valid {:trigger Doomed(project, Key(other, user, field), valid)} ::
      ColonFree(other) && other != project ==>
        !Doomed(project, Key(other, user, field), valid)
  }

  lemma OtherMatch(project: string) returns (other: string)
    requires ColonFree(project) && !Literal(project)
    ensures other != project && ColonFree(other) && Matches(project, other)
  {
    if Plain(project) {
      var i :| 0 <= i < |project| && project[i] == '.';
      other := project[i := '-'];
      PlainMatches(project, other);
      assert other[i] != project[i];
    } else {
      other := Shortest(project);
      ShortestMatches(project);
    }
  }

  /** For a colon-free project id that holds exactly when the id has no dot and, behind its first byte,
      none of ? * + -; every project id in use has a dot. */
  lemma SparesOthersIffLiteral(project: string)
    requires KnownPattern(project) && ColonFree(project)
    ensures SparesOthers(project) <==> Literal(project)
  {
    if Literal(project) {
      forall other, user, field, valid | ColonFree(other) && other != project
        ensures !Doomed(project, Key(other, user, field), valid)
      {
        LiteralSpares(project, other, user, field, valid);
      }
    } else {
      var other := OtherMatch(project);
      DoomedIff(project, other, "u", TEXT_FIELD, {});
      assert Doomed(project, Key(other, "u", TEXT_FIELD), {});
    }
  }

  /** Whether the id, read as a pattern, finds its own entry of a user. */
  predicate FindsOwn(project: string, user: string) {
    Matches(project, project) || Matches(project, project + ":" + user)
  }

  // ----- main results -----

  /** After a rebuild with deletion a user has a text and an image entry exactly when it is in the union of the
      lists, or when it had the entry before and the id, as a pattern, does not find it; and the tier is
      that of the list, non-subscribers first. */
  lemma RebuildIsExact(h: Hash, h': Hash, project: string, subscribed: seq<string>, others: seq<string>,
                       user: string, field: string)
    requires Rebuilt(h, h', project, ValidUsers(subscribed, others), true) && field in {TEXT_FIELD, IMAGE_FIELD}
    requires KnownPattern(project) && ColonFree(project) && ColonFree(user)
    ensures Key(project, user, field) in h' <==>
              user in subscribed || user in others || (Key(project, user, field) in h && !FindsOwn(project, user))
    ensures user in subscribed || user in others ==> HasTier(h', project, user, TierOf(project, user !in others))
  {
    var valid := ValidUsers(subscribed, others);
    if user !in valid {
      NotWritten(project, user, field, valid.Keys);
      DoomedIff(project, project, user, field, valid.Keys);
    }
  }

  /** For an id without repetitions, as all in use are, nobody else keeps an entry. */
  lemma PlainRebuildIsExact(h: Hash, h': Hash, project: string, subscribed: seq<string>, others: seq<string>,
                            user: string, field: string)
    requires Rebuilt(h, h', project, ValidUsers(subscribed, others), true) && field in {TEXT_FIELD, IMAGE_FIELD}
    requires KnownPattern(project) && Plain(project) && ColonFree(user) && user != ""
    ensures Key(project, user, field) in h' <==> user in subscribed || user in others
    ensures user in subscribed || user in others ==> HasTier(h', project, user, TierOf(project, user !in others))
  {
    var valid := ValidUsers(subscribed, others);
    if user !in valid {
      NotWritten(project, user, field, valid.Keys);
      PlainCapture(project, user, field);
    }
  }

  lemma NotWritten(project: string, user: string, field: string, valid: set<string>)
    requires user !in valid && field in {TEXT_FIELD, IMAGE_FIELD}
    ensures !Writes(project, valid, Key(project, user, field))
  {
    if u :| u in valid && (Key(project, user, field) == Key(project, u, TEXT_FIELD) ||
                           Key(project, user, field) == Key(project, u, IMAGE_FIELD)) {
      OtherField(project, user, u);
      OtherField(project, u, user);
      SameField(project, user, u, field);
    }
  }

  /** Entries of every other project, whatever its length, keep their value, and go exactly when
      deletion is on and the pattern reaches them. */
  lemma RebuildOfOthers(h: Hash, h': Hash, project: string, valid: map<string, bool>, delete: bool,
                        other: string, user: string, field: string)
    requires Rebuilt(h, h', project, valid, delete) && KnownPattern(project)
    requires ColonFree(project) && ColonFree(other) && other != project
    requires ColonFree(user) && ColonFree(field)
    ensures var k := Key(other, user, field);
            && (k in h' <==> k in h && !(delete && Reaches(project, other, user, valid.Keys)))
            && (k in h' ==> h'[k] == h[k])
  {
    ForeignNotWritten(project, other, user, field, valid.Keys);
    DoomedIff(project, other, user, field, valid.Keys);
  }

  /** For an id without dots and repetitions: the entries of every other project are untouched. */
  lemma LiteralRebuildSparesOthers(h: Hash, h': Hash, project: string, valid: map<string, bool>, delete: bool,
                                   other: string, user: string, field: string)
    requires Rebuilt(h, h', project, valid, delete) && KnownPattern(project) && Literal(project)
    requires ColonFree(project) && ColonFree(other) && other != project
    ensures var k := Key(other, user, field); (k in h' <==> k in h) && (k in h' ==> h'[k] == h[k])
  {
    ForeignNotWritten(project, other, user, field, valid.Keys);
    LiteralSpares(project, other, user, field, valid.Keys);
  }

  lemma ForeignNotWritten(project: string, other: string, user: string, field: string, valid: set<string>)
    requires ColonFree(project) && ColonFree(other) && other != project
    ensures !Writes(project, valid, Key(other, user, field))
  {
    forall u, f ensures Key(other, user, field) != Key(project, u, f) {
      assert Key(other, user, field) == other + ":" + (user + ":" + field);
      assert Key(project, u, f) == project + ":" + (u + ":" + f);
      if Key(other, user, field) == Key(project, u, f) {
        SameHead(other, project, user + ":" + field, u + ":" + f);
      }
    }
  }

  /** Rebuilding again with the same lists changes nothing. */
  lemma RebuildTwice(h: Hash, h1: Hash, h2: Hash, project: string, valid: map<string, bool>, delete: bool)
    requires Rebuilt(h, h1, project, valid, delete) && Rebuilt(h1, h2, project, valid, delete)
    ensures h2 == h1
  {
    forall k ensures k in h2 <==> k in h1 {
      if Writes(project, valid.Keys, k) {
        var u :| u in valid && (k == Key(project, u, TEXT_FIELD) || k == Key(project, u, IMAGE_FIELD));
        assert HasTier(h1, project, u, TierOf(project, valid[u])) && HasTier(h2, project, u, TierOf(project, valid[u]));
      }
    }
    forall k | k in h2 ensures h2[k] == h1[k] {
      if Writes(project, valid.Keys, k) {
        var u :| u in valid && (k == Key(project, u, TEXT_FIELD) || k == Key(project, u, IMAGE_FIELD));
        assert HasTier(h1, project, u, TierOf(project, valid[u])) && HasTier(h2, project, u, TierOf(project, valid[u]));
      }
    }
  }
}
