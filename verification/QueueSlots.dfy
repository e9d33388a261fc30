/** Queue slots: a Redis counter and a set of task ids, checked again against the task table. Redis may
    refuse a command or lose its answer, and the checker then works without it for a while. */
module QueueSlots {
  import opened Basics
  import opened TaskLifecycle

  datatype Slots = Slots(count: int, tasks: set<string>)

  const NO_SLOTS := Slots(0, {})

  // ----- the two scripts -----

  function Reserve(s: Slots, id: string, limit: int): Slots {
    if s.count >= limit then s else Slots(s.count + 1, s.tasks + {id})
  }

  function Release(s: Slots, id: string): Slots {
    if id !in s.tasks then s
    else Slots(if s.count > 0 then s.count - 1 else s.count, s.tasks - {id})
  }

  /** Releasing undoes reserving exactly for an id that was not there. */
  lemma ReleaseUndoesReserveIff(s: Slots, id: string, limit: int)
    requires 0 <= s.count < limit
    ensures Release(Reserve(s, id, limit), id) == s <==> id !in s.tasks
  {
    if id !in s.tasks {
      assert s.tasks + {id} - {id} == s.tasks;
    } else {
      assert id !in Release(Reserve(s, id, limit), id).tasks;
    }
  }

  lemma ReleaseTwice(s: Slots, id: string)
    ensures Release(Release(s, id), id) == Release(s, id)
    ensures s.count >= 0 ==> Release(s, id).count >= 0
  {
    assert id !in Release(s, id).tasks;
  }

  // ----- runs of the scripts -----

  datatype Event = Take(id: string, limit: int) | Give(id: string) | Expire

  function Next(s: Slots, e: Event): Slots {
    match e
    case Take(id, limit) => Reserve(s, id, limit)
    case Give(id) => Release(s, id)
    case Expire => NO_SLOTS
  }

  /** A task id is reserved only while it is not held. */
  predicate IsRun(s: Slots, es: seq<Event>)
    decreases |es|
  {
    es == [] || ((es[0].Take? ==> es[0].id !in s.tasks) && IsRun(Next(s, es[0]), es[1..]))
  }

  function After(s: Slots, es: seq<Event>): Slots
    decreases |es|
  {
    if es == [] then s else After(Next(s, es[0]), es[1..])
  }

  /** The counter is the number of ids held, and never exceeds the largest limit asked for. */
  lemma {:induction false} CounterCountsTasks(s: Slots, es: seq<Event>, top: nat)
    requires s.count == |s.tasks| <= top && IsRun(s, es)
    requires forall e :: e in es && e.Take? ==> e.limit <= top
    ensures After(s, es).count == |After(s, es).tasks| <= top
    decreases |es|
  {
    if es != [] {
      assert es[0] in es;
      CounterCountsTasks(Next(s, es[0]), es[1..], top);
    }
  }

  // ----- the check before a submit -----

  /** What becomes of a command. Known says whether its error is one that means Redis is gone. */
  datatype Fate = Runs | NeverArrives(known: bool) | AnswerLost(known: bool)

  predicate TakesEffect(f: Fate) { !f.NeverArrives? }

  datatype Outcome = Accepted | QueueLimit | CountFailed

  /** The reservation is in Redis, whatever the caller was told. */
  predicate Took(degraded: bool, fate: Fate, s: Slots, limit: int) {
    !degraded && TakesEffect(fate) && s.count < limit
  }

  /** The first check says the queue is full; fallback is what the degraded check counts in the table,
      None when that fails. */
  predicate Refuses(degraded: bool, fate: Fate, fallback: Option<nat>, s: Slots, limit: int) {
    if !degraded && fate.Runs? then s.count >= limit
    else (degraded || fate.known) && fallback.Some? && fallback.value >= limit
  }

  /** What the count of active tasks says. */
  function Verdict(active: Option<nat>, limit: int): Outcome {
    if active.None? then CountFailed else if active.value >= limit then QueueLimit else Accepted
  }

  /** Tasks that hold a place in the queue. */
  predicate Active(t: Task, user: string) {
    t.user == user && t.status in {Pending, Processing, PendingSubmissionRetry, AwaitingProvider}
  }

  /** Every unfinished task except those that wait for an earlier step of their chain. */
  lemma ActiveIsUnfinished(t: Task, user: string)
    ensures Active(t, user) <==> t.user == user && !Terminal(t.status) && t.status != PendingChain
  {
  }

  function CountActive(tasks: map<string, Task>, user: string): nat {
    |set id | id in tasks && Active(tasks[id], user)|
  }

  /** others: what the other requests of the user do to the slots between this one's reservation and its
      release; flag: where they and the health check leave the degrade flag by then. */
  datatype Env = Env(reserve: Fate, fallback: Option<nat>, countWorks: bool, flag: bool, release: Fate)

  class TaskQuotaChecker {
    var slots: map<string, Slots>
    var degradeMode: bool

    function At(user: string): Slots
      reads this
    {
      if user in slots then slots[user] else NO_SLOTS
    }

    /** Without Redis, or after it failed in a known way, the table decides. */
    method CheckAndReserveQueueSlot(user: string, id: string, limit: int, env: Env) returns (r: Outcome)
      modifies this
      ensures slots == old(slots) || slots == old(slots)[user := At(user)]
      ensures At(user) == if Took(old(degradeMode), env.reserve, old(At(user)), limit)
                          then Reserve(old(At(user)), id, limit) else old(At(user))
      ensures r == QueueLimit <==> Refuses(old(degradeMode), env.reserve, env.fallback, old(At(user)), limit)
      ensures degradeMode == DegradedAfter(old(degradeMode), env.reserve)
    {
      if !degradeMode {
        var script := Reserve(At(user), id, limit);
        var full := At(user).count >= limit;
        if TakesEffect(env.reserve) {
          slots := slots[user := script];
        }
        if env.reserve.Runs? {
          return if full then QueueLimit else Accepted;
        }
        if !env.reserve.known {
          return CountFailed;
        }
        degradeMode := true;
      }
      if env.fallback.None? { return CountFailed; }
      r := if env.fallback.value >= limit then QueueLimit else Accepted;
    }

    /** Skipped while the flag is up. */
    method ReleaseQueueSlot(user: string, id: string, env: Env)
      modifies this`slots
      ensures slots == old(slots) || slots == old(slots)[user := At(user)]
      ensures At(user) == if !degradeMode && TakesEffect(env.release) then Release(old(At(user)), id) else old(At(user))
    {
      if degradeMode { return; }
      if TakesEffect(env.release) {
        slots := slots[user := Release(At(user), id)];
      }
    }

    method ReserveQueueSlot(user: string, id: string, limit: int, env: Env) returns (ok: bool)
      modifies this
      ensures slots == old(slots) || slots == old(slots)[user := At(user)]
      ensures At(user) == if Took(old(degradeMode), env.reserve, old(At(user)), limit)
                          then Reserve(old(At(user)), id, limit) else old(At(user))
      ensures ok <==> !Refuses(old(degradeMode), env.reserve, env.fallback, old(At(user)), limit)
    {
      var r := CheckAndReserveQueueSlot(user, id, limit, env);
      ok := r != QueueLimit;
    }

    method VerifyQueueSizeWithDB(tasks: map<string, Task>, user: string, id: string, limit: int, env: Env)
      returns (r: Outcome)
      modifies this`slots
      ensures slots == old(slots) || slots == old(slots)[user := At(user)]
      ensures r == Verdict(if env.countWorks then Some(CountActive(tasks, user)) else None, limit)
      ensures At(user) == if r != Accepted && !degradeMode && TakesEffect(env.release)
                          then Release(old(At(user)), id) else old(At(user))
    {
      if !env.countWorks {
        ReleaseQueueSlot(user, id, env);
        return CountFailed;
      }
      if CountActive(tasks, user) >= limit {
        ReleaseQueueSlot(user, id, env);
        return QueueLimit;
      }
      return Accepted;
    }

    method CheckActiveTasks(tasks: map<string, Task>, user: string, id: string, limit: int, env: Env,
                            others: Slots -> Slots)
      returns (r: Outcome)
      modifies this
      ensures slots == old(slots) || slots == old(slots)[user := At(user)]
      ensures var s := old(At(user));
              var reserved := if Took(old(degradeMode), env.reserve, s, limit) then Reserve(s, id, limit) else s;
              if Refuses(old(degradeMode), env.reserve, env.fallback, s, limit)
              then r == QueueLimit && At(user) == reserved
              else
                && r == Verdict(if env.countWorks then Some(CountActive(tasks, user)) else None, limit)
                && At(user) == if r != Accepted && !env.flag && TakesEffect(env.release)
                               then Release(others(reserved), id) else others(reserved)
    {
      var ok := ReserveQueueSlot(user, id, limit, env);
      if !ok { return QueueLimit; }
      slots, degradeMode := slots[user := others(At(user))], env.flag;
      r := VerifyQueueSizeWithDB(tasks, user, id, limit, env);
    }
  }

  function DegradedAfter(degraded: bool, fate: Fate): bool {
    degraded || (!fate.Runs? && fate.known)
  }

  // ----- many requests of one user -----

  /** Where a request is. Releasing: it has an error and is about to release. Holding: it was accepted
      when it saw that many active tasks. */
  datatype Phase = Checking | Releasing(error: Outcome) | Holding(seen: nat) | Ended(outcome: Outcome)

  /** took: its reservation reached Redis; gone: since then it was released or the keys expired. */
  datatype Request = Request(phase: Phase, limit: int, took: bool, gone: bool)

  datatype Queue = Queue(slots: Slots, degraded: bool, requests: map<string, Request>)

  /** One command of one request; or the flag moved by others, or the keys expiring. */
  datatype Step =
    | Ask(id: string, limit: int, fate: Fate, fallback: Option<nat>)
    | Tally(id: string, active: Option<nat>)
    | Undo(id: string, fate: Fate)
    | Finish(id: string, fate: Fate)
    | Flag(up: bool)
    | KeysExpire

  /** Task ids are fresh. */
  predicate Possible(w: Queue, e: Step) {
    match e
    case Ask(id, _, _, _) => id !in w.requests
    case Tally(id, _) => id in w.requests && w.requests[id].phase.Checking?
    case Undo(id, _) => id in w.requests && w.requests[id].phase.Releasing?
    case Finish(id, _) => id in w.requests && w.requests[id].phase.Holding?
    case _ => true
  }

  function AfterAsk(w: Queue, id: string, limit: int, fate: Fate, fallback: Option<nat>): Queue {
    var took := Took(w.degraded, fate, w.slots, limit);
    var phase := if Refuses(w.degraded, fate, fallback, w.slots, limit) then Ended(QueueLimit) else Checking;
    Queue(if took then Reserve(w.slots, id, limit) else w.slots, DegradedAfter(w.degraded, fate),
          w.requests[id := Request(phase, limit, took, false)])
  }

  function AfterTally(w: Queue, id: string, active: Option<nat>): Queue
    requires id in w.requests
  {
    var r := w.requests[id];
    var verdict := Verdict(active, r.limit);
    w.(requests := w.requests[id := r.(phase := if verdict == Accepted then Holding(active.value)
                                       else Releasing(verdict))])
  }

  predicate Effective(w: Queue, fate: Fate) {
    !w.degraded && TakesEffect(fate)
  }

  function AfterRelease(w: Queue, id: string, fate: Fate, outcome: Outcome): Queue
    requires id in w.requests
  {
    var r := w.requests[id];
    Queue(if Effective(w, fate) then Release(w.slots, id) else w.slots, w.degraded,
          w.requests[id := r.(phase := Ended(outcome), gone := r.gone || Effective(w, fate))])
  }

  function AllGone(requests: map<string, Request>): (r: map<string, Request>)
    ensures r.Keys == requests.Keys
  {
    map id | id in requests :: requests[id].(gone := true)
  }

  function Move(w: Queue, e: Step): Queue
    requires Possible(w, e)
  {
    match e
    case Ask(id, limit, fate, fallback) => AfterAsk(w, id, limit, fate, fallback)
    case Tally(id, active) => AfterTally(w, id, active)
    case Undo(id, fate) => AfterRelease(w, id, fate, w.requests[id].phase.error)
    case Finish(id, fate) => AfterRelease(w, id, fate, Accepted)
    case Flag(up) => w.(degraded := up)
    case KeysExpire => Queue(NO_SLOTS, w.degraded, AllGone(w.requests))
  }

  predicate Happens(w: Queue, es: seq<Step>)
    decreases |es|
  {
    es == [] || (Possible(w, es[0]) && Happens(Move(w, es[0]), es[1..]))
  }

  function Outcomes(w: Queue, es: seq<Step>): Queue
    requires Happens(w, es)
    decreases |es|
  {
    if es == [] then w else Outcomes(Move(w, es[0]), es[1..])
  }

  const IDLE := Queue(NO_SLOTS, false, map[])

  predicate Has(r: Request) { r.took && !r.gone }

  /** Redis holds exactly the ids that took a slot and have not lost it, and counts them; and whoever was
      accepted saw fewer active tasks than its limit. */
  ghost predicate Inv(w: Queue) {
    && (forall id :: id in w.slots.tasks <==> id in w.requests && Has(w.requests[id]))
    && w.slots.count == |w.slots.tasks|
    && (forall id :: id in w.requests && w.requests[id].phase.Holding? ==>
        w.requests[id].phase.seen < w.requests[id].limit)
  }

  lemma AskKeepsInv(w: Queue, id: string, limit: int, fate: Fate, fallback: Option<nat>)
    requires Inv(w) && id !in w.requests
    ensures Inv(AfterAsk(w, id, limit, fate, fallback))
  {
    assert id !in w.slots.tasks;
  }

  lemma ReleaseKeepsInv(w: Queue, id: string, fate: Fate, outcome: Outcome)
    requires Inv(w) && id in w.requests
    ensures Inv(AfterRelease(w, id, fate, outcome))
  {
  }

  lemma MoveKeepsInv(w: Queue, e: Step)
    requires Inv(w) && Possible(w, e)
    ensures Inv(Move(w, e))
  {
    match e
    case Ask(id, limit, fate, fallback) => AskKeepsInv(w, id, limit, fate, fallback);
    case Undo(id, fate) => ReleaseKeepsInv(w, id, fate, w.requests[id].phase.error);
    case Finish(id, fate) => ReleaseKeepsInv(w, id, fate, Accepted);
    case _ =>
  }

  lemma {:induction false} RunKeepsInv(w: Queue, es: seq<Step>)
    requires Inv(w) && Happens(w, es)
    ensures Inv(Outcomes(w, es))
    decreases |es|
  {
    if es != [] {
      MoveKeepsInv(w, es[0]);
      RunKeepsInv(Move(w, es[0]), es[1..]);
    }
  }

  // ----- main results -----

  predicate Leaked(r: Request) {
    Has(r) && r.phase.Ended?
  }

  function WithSlot(w: Queue): set<string> {
    set id | id in w.requests && Has(w.requests[id])
  }

  /** In every run of any number of requests, with every fault, the ids held are those still being checked
      or released, those accepted and not finished, and those leaked, as long as they took a slot and
      lost it neither to a release nor to the expiry; the counter is their number; and whoever was accepted
      saw fewer active tasks than its limit. */
  lemma HeldIsAccountedFor(es: seq<Step>)
    requires Happens(IDLE, es)
    ensures var w := Outcomes(IDLE, es);
            && w.slots.tasks == WithSlot(w) && w.slots.count == |w.slots.tasks|
            && forall id :: id in w.slots.tasks ==>
                 || w.requests[id].phase.Checking? || w.requests[id].phase.Releasing?
                 || w.requests[id].phase.Holding? || Leaked(w.requests[id])
    ensures forall id :: id in Outcomes(IDLE, es).requests && Outcomes(IDLE, es).requests[id].phase.Holding? ==>
              Outcomes(IDLE, es).requests[id].phase.seen < Outcomes(IDLE, es).requests[id].limit
  {
    RunKeepsInv(IDLE, es);
  }

  predicate StepOf(e: Step, id: string) {
    !e.Flag? && !e.KeysExpire? && e.id == id
  }

  /** A request's own steps, its error return included, touch no other id. */
  lemma OthersUntouched(w: Queue, e: Step, id: string, other: string)
    requires Possible(w, e) && StepOf(e, id) && other != id
    ensures other in Move(w, e).slots.tasks <==> other in w.slots.tasks
    ensures other in w.requests ==> other in Move(w, e).requests && Move(w, e).requests[other] == w.requests[other]
  {
  }

  /** A request that ends keeps its slot exactly when its reservation's answer was lost and the table was
      full, or it still has the slot and its release is skipped or does not arrive. */
  lemma EndsLeakedIff(w: Queue, e: Step, id: string)
    requires Inv(w) && Possible(w, e) && StepOf(e, id)
    requires id in Move(w, e).requests && Move(w, e).requests[id].phase.Ended?
    ensures id in Move(w, e).slots.tasks <==>
              if e.Ask? then !w.degraded && e.fate == Fate.AnswerLost(true) && w.slots.count < e.limit &&
                  e.fallback.Some? && e.fallback.value >= e.limit
              else id in w.slots.tasks && (w.degraded || e.fate.NeverArrives?)
  {
    MoveKeepsInv(w, e);
  }

  /** Such a run, for every limit: the slot is taken, its answer lost, the table full; the caller gets the
      queue-limit error and the id stays held. */
  lemma LostAnswerLeaks(id: string, limit: int, active: nat)
    requires 0 < limit <= active
    ensures var es := [Ask(id, limit, Fate.AnswerLost(true), Some(active))];
            && Happens(IDLE, es) && id in Outcomes(IDLE, es).requests
            && Outcomes(IDLE, es).requests[id].phase == Ended(QueueLimit) && id in Outcomes(IDLE, es).slots.tasks
  {
    var e := Ask(id, limit, Fate.AnswerLost(true), Some(active));
    EndsLeakedIff(IDLE, e, id);
    assert [e][1..] == [];
    assert Outcomes(IDLE, [e]) == Move(IDLE, e);
  }

  /** Requests that have not ended. */
  predicate Alive(w: Queue, id: string) {
    id in w.requests && !w.requests[id].phase.Ended?
  }

  /** Redis answers, and nobody raises the flag or lets the keys expire. */
  predicate Healthy(e: Step) {
    match e
    case Ask(_, _, fate, _) => fate.Runs?
    case Undo(_, fate) => fate.Runs?
    case Finish(_, fate) => fate.Runs?
    case Flag(up) => !up
    case KeysExpire => false
    case _ => true
  }

  ghost predicate AliveHold(w: Queue) {
    Inv(w) && !w.degraded && forall id :: id in w.requests ==> (Has(w.requests[id]) <==> Alive(w, id))
  }

  lemma HealthyStep(w: Queue, e: Step)
    requires AliveHold(w) && Possible(w, e) && Healthy(e)
    ensures AliveHold(Move(w, e))
  {
    MoveKeepsInv(w, e);
  }

  lemma {:induction false} HealthyRunFrom(w: Queue, es: seq<Step>)
    requires AliveHold(w) && Happens(w, es) && forall e :: e in es ==> Healthy(e)
    ensures AliveHold(Outcomes(w, es))
    decreases |es|
  {
    if es != [] {
      assert es[0] in es;
      HealthyStep(w, es[0]);
      HealthyRunFrom(Move(w, es[0]), es[1..]);
    }
  }

  /** With Redis answering, in every interleaving the ids held are exactly the requests that are being
      checked or are accepted: every error return has given its slot back. */
  lemma HealthyRunsLeakNothing(es: seq<Step>)
    requires Happens(IDLE, es) && forall e :: e in es ==> Healthy(e)
    ensures var w := Outcomes(IDLE, es); forall id :: id in w.slots.tasks <==> Alive(w, id)
  {
    HealthyRunFrom(IDLE, es);
  }

  /** A leaked slot stays until the keys expire: no step of any request gives it back. */
  lemma {:induction false} LeakedUntilExpiry(w: Queue, es: seq<Step>, id: string)
    requires Inv(w) && Happens(w, es) && KeysExpire !in es
    requires id in w.requests && Leaked(w.requests[id])
    ensures id in Outcomes(w, es).requests && Leaked(Outcomes(w, es).requests[id]) && id in Outcomes(w, es).slots.tasks
    decreases |es|
  {
    if es != [] {
      assert es[0] in es;
      MoveKeepsInv(w, es[0]);
      LeakedUntilExpiry(Move(w, es[0]), es[1..], id);
    }
  }

  /** The script that a step runs in Redis, if it gets there. */
  function Script(w: Queue, e: Step): seq<Event>
    requires Possible(w, e)
  {
    match e
    case Ask(id, limit, fate, _) => if Effective(w, fate) then [Take(id, limit)] else []
    case Undo(id, fate) => if Effective(w, fate) then [Give(id)] else []
    case Finish(id, fate) => if Effective(w, fate) then [Give(id)] else []
    case KeysExpire => [Expire]
    case _ => []
  }

  function Scripts(w: Queue, es: seq<Step>): seq<Event>
    requires Happens(w, es)
    decreases |es|
  {
    if es == [] then [] else Script(w, es[0]) + Scripts(Move(w, es[0]), es[1..])
  }

  /** What the requests do to Redis, faults and interleavings included, is a run of the two scripts that
      never reserves an id it holds. */
  lemma {:induction false} RequestsRunScripts(w: Queue, es: seq<Step>)
    requires Inv(w) && Happens(w, es)
    ensures IsRun(w.slots, Scripts(w, es)) && After(w.slots, Scripts(w, es)) == Outcomes(w, es).slots
    decreases |es|
  {
    if es != [] {
      MoveKeepsInv(w, es[0]);
      RequestsRunScripts(Move(w, es[0]), es[1..]);
      OneScript(w, es[0]);
      var rest := Scripts(Move(w, es[0]), es[1..]);
      if Script(w, es[0]) == [] {
        assert [] + rest == rest;
      } else {
        assert (Script(w, es[0]) + rest)[1..] == rest;
      }
    }
  }

  lemma OneScript(w: Queue, e: Step)
    requires Inv(w) && Possible(w, e)
    ensures var run := Script(w, e);
            if run == [] then Move(w, e).slots == w.slots
            else
              && |run| == 1 && Next(w.slots, run[0]) == Move(w, e).slots
              && (run[0].Take? ==> run[0].id !in w.slots.tasks)
  {
  }

  lemma {:induction false} ScriptLimits(w: Queue, es: seq<Step>, top: nat)
    requires Happens(w, es) && forall e :: e in es && e.Ask? ==> e.limit <= top
    ensures forall x :: x in Scripts(w, es) && x.Take? ==> x.limit <= top
    decreases |es|
  {
    if es != [] {
      assert es[0] in es;
      ScriptLimits(Move(w, es[0]), es[1..], top);
    }
  }

  /** So no run of requests takes more slots than the largest limit asked for. */
  lemma NeverOverTheLimit(es: seq<Step>, top: nat)
    requires Happens(IDLE, es) && forall e :: e in es && e.Ask? ==> e.limit <= top
    ensures Outcomes(IDLE, es).slots.count == |Outcomes(IDLE, es).slots.tasks| <= top
  {
    RequestsRunScripts(IDLE, es);
    ScriptLimits(IDLE, es, top);
    CounterCountsTasks(NO_SLOTS, Scripts(IDLE, es), top);
  }

  // ----- what the verdicts rest on -----

  /** One more task counts exactly when it is the user's and in one of four statuses. */
  lemma CountOneMore(tasks: map<string, Task>, user: string, id: string, t: Task)
    requires id !in tasks
    ensures CountActive(tasks[id := t], user) == CountActive(tasks, user) +
              if t.user == user && (t.status == Pending || t.status == Processing || t.status == PendingSubmissionRetry
                                    || t.status == AwaitingProvider) then 1 else 0
  {
    var tasks' := tasks[id := t];
    var before := set k | k in tasks && Active(tasks[k], user);
    var after := set k | k in tasks' && Active(tasks'[k], user);
    assert after == if Active(t, user) then before + {id} else before;
  }

  lemma CountNone(user: string)
    ensures CountActive(map[], user) == 0
  {
    var none: map<string, Task> := map[];
    assert (set k | k in none && Active(none[k], user)) == {};
  }

  /** A request that counted is accepted exactly below its limit; otherwise it is about to release. */
  lemma TallyIff(w: Queue, id: string, active: Option<nat>)
    requires Possible(w, Tally(id, active))
    ensures var phase := Move(w, Tally(id, active)).requests[id].phase;
            && (phase.Holding? <==> active.Some? && active.value < w.requests[id].limit)
            && (phase == Releasing(QueueLimit) <==> active.Some? && active.value >= w.requests[id].limit)
            && (phase == Releasing(CountFailed) <==> active.None?)
  {
  }

  /** The first check stops a request in three ways only: Redis says that it is full; or Redis was known to be
      gone already; or it turns out to be gone; and in these two the table says so. An error that does not
      mean Redis is gone never stops it. */
  lemma AskStopsIff(w: Queue, id: string, limit: int, fate: Fate, fallback: Option<nat>)
    requires Possible(w, Ask(id, limit, fate, fallback))
    ensures var tableFull := fallback.Some? && fallback.value >= limit;
            Move(w, Ask(id, limit, fate, fallback)).requests[id].phase == Ended(QueueLimit) <==>
              || (!w.degraded && fate == Runs && w.slots.count >= limit)
              || (w.degraded && tableFull)
              || (!w.degraded && (fate == NeverArrives(true) || fate == Fate.AnswerLost(true)) && tableFull)
    ensures Move(w, Ask(id, limit, fate, fallback)).degraded <==>
              w.degraded || fate == NeverArrives(true) || fate == Fate.AnswerLost(true)
  {
  }
}
