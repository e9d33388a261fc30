/** The daily chat allowance: one hash field a user and chat kind, taken by a decrement that is undone
    when it went below zero. Concurrent calls interleave one Redis command at a time; the lock around
    a call (five seconds, deleted by whoever finishes) is not relied on. */
module QuotaCounter {
  import opened Basics

  const TEXT_FIELD := "text_chat_amount"
  const IMAGE_FIELD := "image_chat_amount"

  type Hash = map<string, int>

  /** A missing field reads as zero. */
  function At(h: Hash, key: string): int {
    if key in h then h[key] else 0
  }

  function Bump(h: Hash, key: string, delta: int): Hash {
    h[key := At(h, key) + delta]
  }

  /** Where a call is. Lost: the decrement took effect but its answer did not come back. Leaked: the
      rollback, whose error is ignored, did not take effect. */
  datatype Phase = Fresh | Granted | Rolling | Refused | Errored | Lost | Leaked

  datatype Call = Call(key: string, phase: Phase)

  datatype World = World(hash: Hash, calls: seq<Call>)

  /** One command of call i, with what became of it. */
  datatype Step =
    | Decrement(i: nat)
    | DecrementFails(i: nat)
    | DecrementAnswerLost(i: nat)
    | Rollback(i: nat)
    | RollbackFails(i: nat)

  predicate Enabled(w: World, s: Step) {
    s.i < |w.calls| && w.calls[s.i].phase == if s.Rollback? || s.RollbackFails? then Rolling else Fresh
  }

  function Move(w: World, i: nat, delta: int, phase: Phase): World
    requires i < |w.calls|
  {
    var key := w.calls[i].key;
    World(if delta == 0 then w.hash else Bump(w.hash, key, delta), w.calls[i := Call(key, phase)])
  }

  function Next(w: World, s: Step): World
    requires Enabled(w, s)
  {
    match s
    case Decrement(i) => Move(w, i, -1, if At(w.hash, w.calls[i].key) - 1 < 0 then Rolling else Granted)
    case DecrementFails(i) => Move(w, i, 0, Errored)
    case DecrementAnswerLost(i) => Move(w, i, -1, Lost)
    case Rollback(i) => Move(w, i, 1, Refused)
    case RollbackFails(i) => Move(w, i, 0, Leaked)
  }

  predicate IsRun(w: World, steps: seq<Step>)
    decreases |steps|
  {
    steps == [] || (Enabled(w, steps[0]) && IsRun(Next(w, steps[0]), steps[1..]))
  }

  function After(w: World, steps: seq<Step>): World
    requires IsRun(w, steps)
    decreases |steps|
  {
    if steps == [] then w else After(Next(w, steps[0]), steps[1..])
  }

  // ----- counting calls -----

  function Hit(c: Call, key: string, phase: Phase): nat {
    if c == Call(key, phase) then 1 else 0
  }

  /** How many calls on key are in phase. */
  function Count(calls: seq<Call>, key: string, phase: Phase): nat {
    if calls == [] then 0 else Hit(calls[0], key, phase) + Count(calls[1..], key, phase)
  }

  function CallsOn(calls: seq<Call>, key: string): nat {
    if calls == [] then 0 else (if calls[0].key == key then 1 else 0) + CallsOn(calls[1..], key)
  }

  function N(w: World, key: string, phase: Phase): nat {
    Count(w.calls, key, phase)
  }

  /** Units missing from the counter. */
  function Taken(w: World, key: string): nat {
    N(w, key, Granted) + N(w, key, Rolling) + N(w, key, Lost) + N(w, key, Leaked)
  }

  /** Calls that saw the counter below zero. */
  function Denied(w: World, key: string): nat {
    N(w, key, Rolling) + N(w, key, Refused) + N(w, key, Leaked)
  }

  predicate AllFresh(w: World) {
    forall i :: 0 <= i < |w.calls| ==> w.calls[i].phase == Fresh
  }

  predicate Answered(w: World, key: string) {
    forall i :: 0 <= i < |w.calls| && w.calls[i].key == key ==> w.calls[i].phase in {Granted, Refused}
  }

  lemma {:induction false} CountSet(calls: seq<Call>, i: nat, c: Call, key: string, phase: Phase)
    requires i < |calls|
    ensures Count(calls[i := c], key, phase) ==
              Count(calls, key, phase) - Hit(calls[i], key, phase) + Hit(c, key, phase)
  {
    if i == 0 {
      assert calls[i := c][1..] == calls[1..];
    } else {
      assert calls[i := c][1..] == calls[1..][i - 1 := c];
      CountSet(calls[1..], i - 1, c, key, phase);
    }
  }

  lemma {:induction false} NoneIn(calls: seq<Call>, key: string, phase: Phase)
    requires forall i :: 0 <= i < |calls| && calls[i].key == key ==> calls[i].phase != phase
    ensures Count(calls, key, phase) == 0
  {
    if calls != [] { NoneIn(calls[1..], key, phase); }
  }

  lemma {:induction false} AnsweredCount(calls: seq<Call>, key: string)
    requires forall i :: 0 <= i < |calls| && calls[i].key == key ==> calls[i].phase in {Granted, Refused}
    ensures CallsOn(calls, key) == Count(calls, key, Granted) + Count(calls, key, Refused)
  {
    if calls != [] { AnsweredCount(calls[1..], key); }
  }

  // ----- one step -----

  /** How a step changes the counts of its key, and that it leaves the others alone. */
  ghost predicate Changes(w: World, w': World, key: string, from: Phase, to: Phase) {
    forall p :: N(w', key, p) == N(w, key, p) - (if p == from then 1 else 0) + (if p == to then 1 else 0)
  }

  lemma StepCounts(w: World, s: Step, key: string)
    requires Enabled(w, s)
    ensures var w', c := Next(w, s), w.calls[s.i];
            if c.key == key then Changes(w, w', key, c.phase, w'.calls[s.i].phase)
            else forall p :: N(w', key, p) == N(w, key, p)
  {
    var w' := Next(w, s);
    forall p
      ensures N(w', key, p) == N(w, key, p) - Hit(w.calls[s.i], key, p) + Hit(w'.calls[s.i], key, p)
    {
      CountSet(w.calls, s.i, w'.calls[s.i], key, p);
    }
  }

  /** The counter and the units missing from it always add up to the same number. */
  lemma StepKeepsBase(w: World, s: Step, key: string)
    requires Enabled(w, s)
    ensures At(Next(w, s).hash, key) + Taken(Next(w, s), key) == At(w.hash, key) + Taken(w, key)
  {
    StepCounts(w, s, key);
  }

  /** What a run from w0 keeps: the sum above, and never more grants than the counter could cover
      once the rollbacks pending at w0 have come back. */
  ghost predicate Kept(w0: World, w: World, key: string) {
    && At(w.hash, key) + Taken(w, key) == At(w0.hash, key) + Taken(w0, key)
    && N(w, key, Lost) + N(w, key, Leaked) >= N(w0, key, Lost) + N(w0, key, Leaked)
    && N(w, key, Granted) >= N(w0, key, Granted)
    && N(w, key, Granted) - N(w0, key, Granted) <= Max(0, At(w0.hash, key) + N(w0, key, Rolling))
  }

  lemma StepKeeps(w0: World, w: World, s: Step, key: string)
    requires Kept(w0, w, key) && Enabled(w, s)
    ensures Kept(w0, Next(w, s), key)
  {
    StepCounts(w, s, key);
    StepKeepsBase(w, s, key);
  }

  lemma {:induction false} RunKeeps(w0: World, w: World, steps: seq<Step>, key: string)
    requires Kept(w0, w, key) && IsRun(w, steps)
    ensures Kept(w0, After(w, steps), key)
    decreases |steps|
  {
    if steps != [] {
      StepKeeps(w0, w, steps[0], key);
      RunKeeps(w0, Next(w, steps[0]), steps[1..], key);
    }
  }

  /** A call that saw the counter below zero did so after start units were granted, or lost with the
      answer that granted them. */
  ghost predicate DeniedLate(start: int, w: World, key: string) {
    && At(w.hash, key) + Taken(w, key) == start
    && (Denied(w, key) > 0 ==> N(w, key, Granted) + N(w, key, Lost) >= start)
  }

  lemma StepKeepsDeniedLate(start: int, w: World, s: Step, key: string)
    requires DeniedLate(start, w, key) && Enabled(w, s)
    ensures DeniedLate(start, Next(w, s), key)
  {
    StepCounts(w, s, key);
    StepKeepsBase(w, s, key);
  }

  lemma {:induction false} RunKeepsDeniedLate(start: int, w: World, steps: seq<Step>, key: string)
    requires DeniedLate(start, w, key) && IsRun(w, steps)
    ensures DeniedLate(start, After(w, steps), key)
    decreases |steps|
  {
    if steps != [] {
      StepKeepsDeniedLate(start, w, steps[0], key);
      RunKeepsDeniedLate(start, Next(w, steps[0]), steps[1..], key);
    }
  }

  // ----- main results -----

  /** Any interleaving of any number of calls, from any counter: the counter is the start less what
      was granted, is being rolled back or was lost; no more than the start is granted; nobody is
      refused before all of it is gone; and with nothing pending or lost it is not below zero. */
  lemma CountersAddUp(w0: World, steps: seq<Step>, key: string)
    requires AllFresh(w0) && IsRun(w0, steps)
    ensures var w, start := After(w0, steps), At(w0.hash, key);
            && At(w.hash, key) == start - N(w, key, Granted) - N(w, key, Rolling) - N(w, key, Lost) - N(w, key, Leaked)
            && N(w, key, Granted) <= Max(0, start)
            && (Denied(w, key) > 0 ==> N(w, key, Granted) + N(w, key, Lost) >= start)
            && (N(w, key, Rolling) + N(w, key, Lost) + N(w, key, Leaked) == 0 ==> At(w.hash, key) >= Min(0, start))
  {
    FreshCounts(w0, key);
    RunKeeps(w0, w0, steps, key);
    RunKeepsDeniedLate(At(w0.hash, key), w0, steps, key);
  }

  lemma FreshCounts(w: World, key: string)
    requires AllFresh(w)
    ensures forall p :: p != Fresh ==> N(w, key, p) == 0
  {
    forall p | p != Fresh ensures N(w, key, p) == 0 { NoneIn(w.calls, key, p); }
  }

  /** When every call on a key was answered, as many were granted as could be: all of them, or the
      whole allowance; and the counter is what is left. */
  lemma ExactlyTheAllowance(w0: World, steps: seq<Step>, key: string)
    requires AllFresh(w0) && IsRun(w0, steps) && Answered(After(w0, steps), key)
    ensures var w, start := After(w0, steps), At(w0.hash, key);
            && N(w, key, Granted) == Min(CallsOn(w.calls, key), Max(0, start))
            && At(w.hash, key) == start - N(w, key, Granted)
  {
    var w := After(w0, steps);
    CountersAddUp(w0, steps, key);
    AnsweredCount(w.calls, key);
    NoneIn(w.calls, key, Rolling);
    NoneIn(w.calls, key, Lost);
    NoneIn(w.calls, key, Leaked);
  }

  /** From any state, as a rebuild of the allowance leaves it: rollbacks still pending then can each add
      a grant beyond the new allowance, and nothing else can. */
  lemma PendingRollbacksBoundGrants(w0: World, steps: seq<Step>, key: string)
    requires IsRun(w0, steps)
    ensures var w := After(w0, steps);
            0 <= N(w, key, Granted) - N(w0, key, Granted) <= Max(0, At(w0.hash, key) + N(w0, key, Rolling))
  {
    RunKeeps(w0, w0, steps, key);
  }

  lemma {:induction false} PickCall(calls: seq<Call>, key: string, phase: Phase) returns (i: nat)
    requires Count(calls, key, phase) > 0
    ensures i < |calls| && calls[i] == Call(key, phase)
  {
    if calls[0] == Call(key, phase) {
      i := 0;
    } else {
      i := PickCall(calls[1..], key, phase);
      i := i + 1;
    }
  }

  lemma StepRun(w: World, s: Step, steps: seq<Step>)
    requires Enabled(w, s) && IsRun(Next(w, s), steps)
    ensures IsRun(w, [s] + steps) && After(w, [s] + steps) == After(Next(w, s), steps)
  {
    assert ([s] + steps)[1..] == steps;
  }

  lemma {:induction false} RunConcat(w: World, a: seq<Step>, b: seq<Step>)
    requires IsRun(w, a) && IsRun(After(w, a), b)
    ensures IsRun(w, a + b) && After(w, a + b) == After(After(w, a), b)
    decreases |a|
  {
    if a == [] {
      assert a + b == b;
    } else {
      RunConcat(Next(w, a[0]), a[1..], b);
      assert a + b == [a[0]] + (a[1..] + b);
      StepRun(w, a[0], a[1..] + b);
    }
  }

  /** Every rollback comes back. */
  lemma {:induction false} RollBackAll(w: World, key: string) returns (steps: seq<Step>)
    ensures IsRun(w, steps)
    ensures var w' := After(w, steps);
            && At(w'.hash, key) == At(w.hash, key) + N(w, key, Rolling)
            && N(w', key, Granted) == N(w, key, Granted) && N(w', key, Fresh) == N(w, key, Fresh)
    decreases N(w, key, Rolling)
  {
    if N(w, key, Rolling) == 0 {
      steps := [];
    } else {
      var i := PickCall(w.calls, key, Rolling);
      StepCounts(w, Rollback(i), key);
      var rest := RollBackAll(Next(w, Rollback(i)), key);
      StepRun(w, Rollback(i), rest);
      steps := [Rollback(i)] + rest;
    }
  }

  /** As many fresh calls as the counter holds can be granted one after the other. */
  lemma {:induction false} GrantMany(w: World, key: string, m: nat) returns (steps: seq<Step>)
    requires m <= N(w, key, Fresh) && (m == 0 || m <= At(w.hash, key))
    ensures IsRun(w, steps) && N(After(w, steps), key, Granted) == N(w, key, Granted) + m
    decreases m
  {
    if m == 0 {
      steps := [];
    } else {
      var i := PickCall(w.calls, key, Fresh);
      StepCounts(w, Decrement(i), key);
      var rest := GrantMany(Next(w, Decrement(i)), key, m - 1);
      StepRun(w, Decrement(i), rest);
      steps := [Decrement(i)] + rest;
    }
  }

  /** A grant uses up a fresh call. */
  lemma {:induction false} GrantsUseFresh(w: World, steps: seq<Step>, key: string)
    requires IsRun(w, steps)
    ensures N(After(w, steps), key, Granted) + N(After(w, steps), key, Fresh) <= N(w, key, Granted) + N(w, key, Fresh)
    decreases |steps|
  {
    if steps != [] {
      StepCounts(w, steps[0], key);
      GrantsUseFresh(Next(w, steps[0]), steps[1..], key);
    }
  }

  ghost predicate CanGrant(w: World, key: string, m: nat) {
    exists steps :: IsRun(w, steps) && N(After(w, steps), key, Granted) == N(w, key, Granted) + m
  }

  /** From any state, some run grants m more calls exactly when there are m fresh ones and the counter,
      with everything pending rolled back, covers them. */
  lemma GrantableIff(w: World, key: string, m: nat)
    ensures CanGrant(w, key, m) <==> m <= Min(N(w, key, Fresh), Max(0, At(w.hash, key) + N(w, key, Rolling)))
  {
    if m <= Min(N(w, key, Fresh), Max(0, At(w.hash, key) + N(w, key, Rolling))) {
      var back := RollBackAll(w, key);
      var grants := GrantMany(After(w, back), key, m);
      RunConcat(w, back, grants);
      assert IsRun(w, back + grants);
    }
    forall steps | IsRun(w, steps) && N(After(w, steps), key, Granted) == N(w, key, Granted) + m
      ensures m <= Min(N(w, key, Fresh), Max(0, At(w.hash, key) + N(w, key, Rolling)))
    {
      PendingRollbacksBoundGrants(w, steps, key);
      GrantsUseFresh(w, steps, key);
    }
  }

  ghost predicate CanOvergrant(w: World, key: string) {
    exists steps :: IsRun(w, steps) && N(After(w, steps), key, Granted) - N(w, key, Granted) > At(w.hash, key)
  }

  /** As a rebuild leaves it, an allowance can be exceeded exactly when a rollback is still pending. */
  lemma OvergrantIffRollbackPending(w: World, key: string)
    requires At(w.hash, key) >= 0 && N(w, key, Fresh) > At(w.hash, key)
    ensures CanOvergrant(w, key) <==> N(w, key, Rolling) > 0
  {
    var c := At(w.hash, key);
    if N(w, key, Rolling) > 0 {
      GrantableIff(w, key, c + 1);
      var steps :| IsRun(w, steps) && N(After(w, steps), key, Granted) == N(w, key, Granted) + (c + 1);
    }
    forall steps | IsRun(w, steps)
      ensures N(After(w, steps), key, Granted) - N(w, key, Granted) <= Max(0, c + N(w, key, Rolling))
    {
      PendingRollbacksBoundGrants(w, steps, key);
    }
  }

  /** That bound is met: a rollback that lands after the counter was reset to 1 lets two calls through. */
  lemma ResetThenRollbackGrantsTwo(key: string)
    ensures var w0 := World(map[key := 1], [Call(key, Rolling), Call(key, Fresh), Call(key, Fresh)]);
            var steps := [Rollback(0), Decrement(1), Decrement(2)];
            IsRun(w0, steps) && N(After(w0, steps), key, Granted) == 2
  {
    var w0 := World(map[key := 1], [Call(key, Rolling), Call(key, Fresh), Call(key, Fresh)]);
    var steps := [Rollback(0), Decrement(1), Decrement(2)];
    var w1 := Next(w0, Rollback(0));
    assert w1 == World(map[key := 2], [Call(key, Refused), Call(key, Fresh), Call(key, Fresh)]);
    var w2 := Next(w1, Decrement(1));
    assert w2 == World(map[key := 1], [Call(key, Refused), Call(key, Granted), Call(key, Fresh)]);
    var w3 := Next(w2, Decrement(2));
    assert w3.calls == [Call(key, Refused), Call(key, Granted), Call(key, Granted)];
    assert steps[1..] == [Decrement(1), Decrement(2)] && steps[1..][1..] == [Decrement(2)];
    assert steps[1..][1..][1..] == [];
    CountThree(Call(key, Refused), Call(key, Granted), Call(key, Granted), key, Granted);
  }

  lemma CountThree(a: Call, b: Call, c: Call, key: string, p: Phase)
    ensures Count([a, b, c], key, p) == Hit(a, key, p) + Hit(b, key, p) + Hit(c, key, p)
  {
    assert [a, b, c][1..] == [b, c] && [b, c][1..] == [c] && [c][1..] == [];
    assert Count([c], key, p) == Hit(c, key, p);
    assert Count([b, c], key, p) == Hit(b, key, p) + Hit(c, key, p);
  }

  // ----- the call itself -----

  datatype Fault = NoFault | LockFails | DecrementFault(tookEffect: bool) | RollbackFault

  datatype Outcome = Done | EmptyId | LockError | LockHeld | RedisError | DailyLimit

  /** One call with nobody in between, as steps of the machine. */
  function Solo(h: Hash, key: string, fault: Fault): (w: World)
    ensures |w.calls| == 1
  {
    var w0 := World(h, [Call(key, Fresh)]);
    if fault.DecrementFault? then
      Next(w0, if fault.tookEffect then DecrementAnswerLost(0) else DecrementFails(0))
    else
      var w1 := Next(w0, Decrement(0));
      if w1.calls[0].phase == Granted then w1
      else Next(w1, if fault.RollbackFault? then RollbackFails(0) else Rollback(0))
  }

  function Answer(phase: Phase): Outcome {
    if phase == Granted then Done
    else if phase in {Refused, Leaked} then DailyLimit
    else RedisError
  }

  function LockKey(projectID: string, userID: string): string {
    projectID + ":" + userID + ":lock"
  }

  function FieldKey(projectID: string, userID: string, isTextChat: bool): string {
    projectID + ":" + userID + ":" + if isTextChat then TEXT_FIELD else IMAGE_FIELD
  }

  class UserAmountDao {
    var hash: Hash
    var locks: set<string>

    method HIncrBy(key: string, delta: int) returns (result: int)
      modifies this`hash
      ensures hash == Bump(old(hash), key, delta) && result == At(hash, key)
    {
      result := At(hash, key) + delta;
      hash := hash[key := result];
    }

    method DecrUserAmount(projectID: string, userID: string, isTextChat: bool, fault: Fault) returns (outcome: Outcome)
      modifies this
      ensures locks == old(locks)
      ensures projectID == "" || userID == "" ==> outcome == EmptyId && hash == old(hash)
      ensures projectID != "" && userID != "" && fault.LockFails? ==> outcome == LockError && hash == old(hash)
      ensures projectID != "" && userID != "" && !fault.LockFails? && LockKey(projectID, userID) in old(locks) ==>
                outcome == LockHeld && hash == old(hash)
      ensures projectID != "" && userID != "" && !fault.LockFails? && LockKey(projectID, userID) !in old(locks) ==>
                var w := Solo(old(hash), FieldKey(projectID, userID, isTextChat), fault);
                outcome == Answer(w.calls[0].phase) && hash == w.hash
      ensures projectID != "" && userID != "" && fault.NoFault? && LockKey(projectID, userID) !in old(locks) ==>
                var key := projectID + ":" + userID + ":" +
                           if isTextChat then "text_chat_amount" else "image_chat_amount";
                && outcome == (if At(old(hash), key) > 0 then Done else DailyLimit)
                && At(hash, key) == At(old(hash), key) - (if At(old(hash), key) > 0 then 1 else 0)
                && forall k :: k != key ==> At(hash, k) == At(old(hash), k)
    {
      SoloIsTestAndDecrement(hash, FieldKey(projectID, userID, isTextChat));
      if projectID == "" || userID == "" { return EmptyId; }
      var lockKey := LockKey(projectID, userID);
      if fault.LockFails? { return LockError; }
      if lockKey in locks { return LockHeld; }
      locks := locks + {lockKey};
      var key := FieldKey(projectID, userID, isTextChat);
      if fault.DecrementFault? {
        if fault.tookEffect {
          var unseen := HIncrBy(key, -1);
        }
        locks := locks - {lockKey};
        return RedisError;
      }
      var result := HIncrBy(key, -1);
      outcome := Done;
      if result < 0 {
        if !fault.RollbackFault? {
          var restored := HIncrBy(key, 1);
        }
        outcome := DailyLimit;
      }
      locks := locks - {lockKey};
    }
  }

  /** Alone and without faults: granted exactly when a unit was there, and a refusal leaves the
      counter as it was. */
  lemma SoloIsTestAndDecrement(h: Hash, key: string)
    ensures var w := Solo(h, key, NoFault);
            && (w.calls[0].phase == Granted <==> At(h, key) > 0)
            && At(w.hash, key) == At(h, key) - (if At(h, key) > 0 then 1 else 0)
            && w.calls[0].phase in {Granted, Refused}
            && forall k :: k != key ==> At(w.hash, k) == At(h, k)
  {
  }
}
