/** The daily allowance from rebuild to call: the counter a call takes from is the one the rebuild writes. */
module DailyAllowance {
  import opened Basics
  import opened QuotaCounter
  import opened QuotaRebuild

  /** A text call takes from the text entry of its user, an image call from the image entry. */
  lemma CallTakesUnit(h: Hash, project: string, user: string, isTextChat: bool)
    ensures var key := Key(project, user, if isTextChat then "text_chat_amount" else "image_chat_amount");
            var w := Solo(h, FieldKey(project, user, isTextChat), NoFault);
            && Answer(w.calls[0].phase) == (if At(h, key) > 0 then Done else DailyLimit)
            && At(w.hash, key) == At(h, key) - (if At(h, key) > 0 then 1 else 0)
            && forall k :: k != key ==> (k in w.hash <==> k in h) && At(w.hash, k) == At(h, k)
  {
    SoloIsTestAndDecrement(h, FieldKey(project, user, isTextChat));
    assert FieldKey(project, user, isTextChat) ==
           Key(project, user, if isTextChat then "text_chat_amount" else "image_chat_amount");
  }

  /** With a fault: a decrement without an answer is an error and takes a unit exactly when it took effect; a
      refusal whose rollback fails takes one too. */
  lemma FaultyCallTakesUnit(h: Hash, project: string, user: string, isTextChat: bool, fault: Fault)
    requires fault.DecrementFault? || (fault.RollbackFault? && At(h, FieldKey(project, user, isTextChat)) <= 0)
    ensures var key := Key(project, user, if isTextChat then "text_chat_amount" else "image_chat_amount");
            var w := Solo(h, FieldKey(project, user, isTextChat), fault);
            && Answer(w.calls[0].phase) == (if fault.DecrementFault? then RedisError else DailyLimit)
            && At(w.hash, key) == At(h, key) - if fault == DecrementFault(false) then 0 else 1
  {
    assert FieldKey(project, user, isTextChat) ==
           Key(project, user, if isTextChat then "text_chat_amount" else "image_chat_amount");
  }

  /** Two users have different locks. */
  lemma LocksDiffer(p: string, u: string, q: string, v: string)
    requires ColonFree(p) && ColonFree(q)
    ensures LockKey(p, u) == LockKey(q, v) <==> p == q && u == v
  {
    assert LockKey(p, u) == p + ":" + (u + ":lock") && LockKey(q, v) == q + ":" + (v + ":lock");
    if LockKey(p, u) == LockKey(q, v) {
      SameHead(p, q, u + ":lock", v + ":lock");
      assert LockKey(p, u)[|p| + 1..] == u + ":lock" && LockKey(q, v)[|q| + 1..] == v + ":lock";
      assert (u + ":lock")[..|u|] == u && (v + ":lock")[..|v|] == v;
    }
  }

  /** What a user of the lists may use after a rebuild. */
  function Allowance(project: string, listedAsOther: bool, isTextChat: bool): int {
    if project == "com.bluex.dietai" then
      if listedAsOther && isTextChat then 1 else 30_000
    else if !listedAsOther then 300_000
    else if isTextChat then 30_000
    else 3
  }

  /** In every interleaving of any number of calls on a key that were all answered, as many are granted as
      there are units, and all others are refused. */
  ghost predicate GrantsExactly(h: Hash, key: string, units: int) {
    forall w: World, steps: seq<Step> ::
      w.hash == h && AllFresh(w) && IsRun(w, steps) && Answered(After(w, steps), key) ==>
        N(After(w, steps), key, Granted) == Min(CallsOn(After(w, steps).calls, key), units)
  }

  lemma GrantsWhatIsThere(h: Hash, key: string)
    ensures GrantsExactly(h, key, Max(0, At(h, key)))
  {
    forall w: World, steps: seq<Step>
      | w.hash == h && AllFresh(w) && IsRun(w, steps) && Answered(After(w, steps), key)
      ensures N(After(w, steps), key, Granted) == Min(CallsOn(After(w, steps).calls, key), Max(0, At(h, key)))
    {
      ExactlyTheAllowance(w, steps, key);
    }
  }

  /** After a rebuild a user of the lists is granted what the tier of project and list allows: 3 image calls, for
      one that is no subscriber of an ordinary project, and the fourth is refused. */
  lemma AllowanceAfterRebuild(h: Hash, h': Hash, project: string, valid: map<string, bool>, delete: bool,
                              user: string, isTextChat: bool)
    requires Rebuilt(h, h', project, valid, delete)
    ensures user in valid ==>
              GrantsExactly(h', FieldKey(project, user, isTextChat), Allowance(project, !valid[user], isTextChat))
  {
    if user !in valid { return; }
    var key := FieldKey(project, user, isTextChat);
    assert key == Key(project, user, if isTextChat then TEXT_FIELD else IMAGE_FIELD);
    assert HasTier(h', project, user, TierOf(project, valid[user]));
    GrantsWhatIsThere(h', key);
  }

  /** And nothing is granted to a user who is in neither list, if the id finds its own entries. */
  lemma NoAllowanceOnceGone(h: Hash, h': Hash, project: string, subscribed: seq<string>, others: seq<string>,
                            user: string, isTextChat: bool)
    requires Rebuilt(h, h', project, ValidUsers(subscribed, others), true) && KnownPattern(project) && Plain(project)
    requires user !in subscribed && user !in others && ColonFree(user) && user != ""
    ensures GrantsExactly(h', FieldKey(project, user, isTextChat), 0)
  {
    var field := if isTextChat then TEXT_FIELD else IMAGE_FIELD;
    assert FieldKey(project, user, isTextChat) == Key(project, user, field);
    PlainRebuildIsExact(h, h', project, subscribed, others, user, field);
    GrantsWhatIsThere(h', FieldKey(project, user, isTextChat));
  }
}
