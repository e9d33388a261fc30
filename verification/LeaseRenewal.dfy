/** The renewal ticker: the period is a third of the renewal TTL when the loop started, the lease the whole
    seconds of the renewal TTL at the tick. */
module LeaseRenewal {
  import opened LeaseStore
  import opened LeaseRuns

  /** time.NewTicker(renewalTTL / 3), Go integer division. */
  function Period(renewalTTL: int): int
    requires renewalTTL >= 0
  {
    renewalTTL / 3
  }

  /** What may happen while the ticks of (key, token) run on time and the owner neither stops nor
      releases: the clock never passes the next tick, the loop fires exactly then, and everybody
      else does whatever they like. */
  predicate OnTime(w: World, due: int, e: Event, key: string, token: string, ttl: int) {
    && Enabled(w, e)
    && match e
       case Advance(d) => w.now + d <= due
       case Tick(k, t, r) => k == key && t == token ==> w.now == due && r == ttl
       case Release(k, t) => !(k == key && t == token)
       case StopLoop(k, t) => !(k == key && t == token)
       case _ => true
  }

  function NextDue(due: int, e: Event, key: string, token: string, period: int): int {
    if e.Tick? && e.key == key && e.token == token then due + period else due
  }

  predicate OnTimeRun(w: World, due: int, es: seq<Event>, key: string, token: string, ttl: int)
    requires ttl >= 0
    decreases |es|
  {
    es == [] ||
    (OnTime(w, due, es[0], key, token, ttl) &&
     OnTimeRun(Next(w, es[0]), NextDue(due, es[0], key, token, Period(ttl)), es[1..], key, token, ttl))
  }

  /** StartRenewal has just succeeded and the lease outlives the first tick. */
  predicate Renewing(w: World, key: string, token: string, ttl: int)
    requires ttl >= 0
  {
    && Holds(w.keys, w.now, key, token)
    && (key, token) in w.loops
    && token in w.issued
    && Before(w.now + Period(ttl), w.keys[key].expiry)
  }

  /** Kept between ticks: the lock outlives the next one. */
  ghost predicate Secure(w: World, due: int, key: string, token: string) {
    && w.now <= due
    && token in w.issued
    && (key, token) in w.loops
    && key in w.keys && w.keys[key].token == token && Before(due, w.keys[key].expiry)
  }

  lemma {:induction false} OnTimeKeepsSecure(w: World, due: int, es: seq<Event>, key: string, token: string, ttl: int)
    requires ttl >= SECOND && Secure(w, due, key, token) && OnTimeRun(w, due, es, key, token, ttl)
    ensures Holds(After(w, es).keys, After(w, es).now, key, token) && (key, token) in After(w, es).loops
    decreases |es|
  {
    if es != [] {
      OnTimeStepKeepsSecure(w, due, es[0], key, token, ttl);
      OnTimeKeepsSecure(Next(w, es[0]), NextDue(due, es[0], key, token, Period(ttl)), es[1..], key, token, ttl);
    }
  }

  lemma OnTimeStepKeepsSecure(w: World, due: int, e: Event, key: string, token: string, ttl: int)
    requires ttl >= SECOND && Secure(w, due, key, token) && OnTime(w, due, e, key, token, ttl)
    ensures Secure(Next(w, e), NextDue(due, e, key, token, Period(ttl)), key, token)
  {
    if e.Tick? && e.key == key && e.token == token {
      assert LeaseSeconds(ttl) * SECOND > Period(ttl);
    }
  }

  /** Renewal on time keeps the lock through every run, and every other attempt in it fails. */
  lemma RenewalKeepsLock(w: World, es: seq<Event>, key: string, token: string, ttl: int)
    requires ttl >= SECOND && Renewing(w, key, token, ttl)
    requires OnTimeRun(w, w.now + Period(ttl), es, key, token, ttl)
    ensures Holds(After(w, es).keys, After(w, es).now, key, token)
    ensures forall other, otherTTL ::
              SetNX(After(w, es).keys, After(w, es).now, key, other, otherTTL) == After(w, es).keys
  {
    OnTimeKeepsSecure(w, w.now + Period(ttl), es, key, token, ttl);
  }

  ghost predicate KeepsEveryLock(ttl: int)
    requires ttl >= 0
  {
    forall w: World, es: seq<Event>, key: string, token: string ::
      Inv(w) && Renewing(w, key, token, ttl) && OnTimeRun(w, w.now + Period(ttl), es, key, token, ttl) ==>
        Holds(After(w, es).keys, After(w, es).now, key, token)
  }

  /** Below one second the first tick asks for EXPIRE 0 and so deletes the lock it should extend. */
  lemma ShortRenewalDropsLock(w: World, key: string, token: string, ttl: int)
    requires 0 <= ttl < SECOND && Renewing(w, key, token, ttl)
    ensures var es := [Advance(Period(ttl)), Tick(key, token, ttl)];
            && OnTimeRun(w, w.now + Period(ttl), es, key, token, ttl)
            && key !in After(w, es).keys
  {
    var es := [Advance(Period(ttl)), Tick(key, token, ttl)];
    var w1 := Next(w, es[0]);
    assert es[1..] == [es[1]] && es[1..][1..] == [];
    assert After(w, es) == After(w1, [es[1]]) == Next(w1, es[1]);
    assert OnTimeRun(w1, w.now + Period(ttl), [es[1]], key, token, ttl);
  }

  /** A renewal TTL protects the lock in all on-time runs exactly when it is at least one second.
      A TTL below three nanoseconds gives a zero period, for which Go's ticker panics. */
  lemma RenewalWorksIffOneSecond(ttl: int)
    requires ttl >= 0 && Period(ttl) > 0
    ensures KeepsEveryLock(ttl) <==> ttl >= SECOND
  {
    if ttl >= SECOND {
      forall w: World, es: seq<Event>, key: string, token: string
        | Inv(w) && Renewing(w, key, token, ttl) && OnTimeRun(w, w.now + Period(ttl), es, key, token, ttl)
        ensures Holds(After(w, es).keys, After(w, es).now, key, token)
      {
        RenewalKeepsLock(w, es, key, token, ttl);
      }
    } else {
      var got := Next(Start(0), Acquire("lock:r", "t", DEFAULT_LOCK_TTL));
      var w := Next(got, StartLoop("lock:r", "t"));
      StepKeepsInv(Start(0), Acquire("lock:r", "t", DEFAULT_LOCK_TTL));
      StepKeepsInv(got, StartLoop("lock:r", "t"));
      ShortRenewalDropsLock(w, "lock:r", "t", ttl);
      var es := [Advance(Period(ttl)), Tick("lock:r", "t", ttl)];
      assert Inv(w) && Renewing(w, "lock:r", "t", ttl) && OnTimeRun(w, w.now + Period(ttl), es, "lock:r", "t", ttl);
    }
  }

  // ----- ticks that are missed, with a period of their own -----

  /** A step of anybody; or a tick of the owner that is missed: late beyond its turn, or lost on the way. */
  datatype Turn = Do(e: Event) | Miss

  function Play(w: World, turn: Turn): World {
    if turn.Do? then Next(w, turn.e) else w
  }

  function PlayAll(w: World, turns: seq<Turn>): World
    decreases |turns|
  {
    if turns == [] then w else PlayAll(Play(w, turns[0]), turns[1..])
  }

  function DueAfter(due: int, turn: Turn, key: string, token: string, period: int): int {
    if turn.Do? then NextDue(due, turn.e, key, token, period) else due + period
  }

  /** left: how many ticks in a row may still be missed, m after every tick that works. */
  function LeftAfter(left: int, m: int, turn: Turn, key: string, token: string): int {
    if turn.Miss? then left - 1
    else if turn.e.Tick? && turn.e.key == key && turn.e.token == token then m
    else left
  }

  predicate AllowedTurn(w: World, due: int, left: int, turn: Turn, key: string, token: string, ttl: int) {
    if turn.Do? then OnTime(w, due, turn.e, key, token, ttl) else w.now == due && left > 0
  }

  /** Like OnTimeRun, with at most m ticks missed in a row. */
  predicate MissingRun(w: World, due: int, left: int, m: int, turns: seq<Turn>, key: string, token: string,
                       ttl: int, period: int)
    decreases |turns|
  {
    turns == [] ||
    (AllowedTurn(w, due, left, turns[0], key, token, ttl) &&
     MissingRun(Play(w, turns[0]), DueAfter(due, turns[0], key, token, period),
                LeftAfter(left, m, turns[0], key, token), m, turns[1..], key, token, ttl, period))
  }

  /** The lock is held, its loop runs, and the lease outlives left missed ticks and the one after. */
  predicate SecureFor(w: World, due: int, left: int, key: string, token: string, period: int) {
    && w.now <= due && left >= 0 && token in w.issued && (key, token) in w.loops
    && key in w.keys && w.keys[key].token == token && Before(due + left * period, w.keys[key].expiry)
  }

  lemma OneLess(left: int, p: int)
    ensures p + (left - 1) * p == left * p
  {
  }

  lemma Ahead(left: int, p: int)
    requires left >= 0 && p >= 0
    ensures left * p >= 0
  {
  }

  lemma TurnKeepsSecure(w: World, due: int, left: int, m: nat, turn: Turn, key: string, token: string,
                        ttl: int, period: int)
    requires ttl >= 0 && period >= 0 && LeaseSeconds(ttl) * SECOND > (m + 1) * period
    requires SecureFor(w, due, left, key, token, period) && AllowedTurn(w, due, left, turn, key, token, ttl)
    ensures SecureFor(Play(w, turn), DueAfter(due, turn, key, token, period), LeftAfter(left, m, turn, key, token),
                      key, token, period)
  {
    Ahead(left, period);
    Ahead(m + 1, period);
    OneLess(left, period);
    OneLess(m + 1, period);
  }

  lemma {:induction false} MissingKeepsSecure(w: World, due: int, left: int, m: nat, turns: seq<Turn>,
                                              key: string, token: string, ttl: int, period: int)
    requires ttl >= 0 && period >= 0 && LeaseSeconds(ttl) * SECOND > (m + 1) * period
    requires SecureFor(w, due, left, key, token, period)
    requires MissingRun(w, due, left, m, turns, key, token, ttl, period)
    ensures Holds(PlayAll(w, turns).keys, PlayAll(w, turns).now, key, token)
    decreases |turns|
  {
    Ahead(left, period);
    if turns != [] {
      TurnKeepsSecure(w, due, left, m, turns[0], key, token, ttl, period);
      MissingKeepsSecure(Play(w, turns[0]), DueAfter(due, turns[0], key, token, period),
                         LeftAfter(left, m, turns[0], key, token), m, turns[1..], key, token, ttl, period);
    }
  }

  /** From any point of any run at which the lock is secure for m missed ticks, it stays held. */
  ghost predicate SurvivesMisses(ttl: int, period: int, m: nat) {
    forall w: World, due: int, turns: seq<Turn>, key: string, token: string ::
      Inv(w) && SecureFor(w, due, m, key, token, period) && MissingRun(w, due, m, m, turns, key, token, ttl, period) ==>
        Holds(PlayAll(w, turns).keys, PlayAll(w, turns).now, key, token)
  }

  /** Time passes over left missed ticks and up to the next one. */
  lemma {:induction false} MissAll(w: World, due: int, left: nat, m: nat, key: string, token: string,
                                   ttl: int, period: int) returns (turns: seq<Turn>)
    requires period >= 0 && w.now == due - period
    ensures MissingRun(w, due, left, m, turns, key, token, ttl, period)
    ensures PlayAll(w, turns) == w.(now := w.now + (left + 1) * period)
    decreases left
  {
    var later := Next(w, Advance(period));
    if left == 0 {
      turns := [Do(Advance(period))];
      assert turns[1..] == [];
      assert PlayAll(w, turns) == PlayAll(later, []);
    } else {
      var rest := MissAll(later, due + period, left - 1, m, key, token, ttl, period);
      turns := [Do(Advance(period)), Miss] + rest;
      assert turns[1..] == [Miss] + rest && turns[1..][1..] == rest;
      assert MissingRun(later, due, left, m, turns[1..], key, token, ttl, period);
      OneLess(left + 1, period);
    }
  }

  /** A lock without expiry, its loop just started. */
  lemma FreshLoop(period: int, m: nat) returns (w: World)
    requires period > 0
    ensures Inv(w) && SecureFor(w, w.now + period, m, "lock:r", "t", period)
  {
    var got := Next(Start(0), Acquire("lock:r", "t", 0));
    w := Next(got, StartLoop("lock:r", "t"));
    StepKeepsInv(Start(0), Acquire("lock:r", "t", 0));
    StepKeepsInv(got, StartLoop("lock:r", "t"));
  }

  /** The first tick that works leaves whole seconds of the TTL from then on. */
  lemma FirstTick(w: World, key: string, token: string, ttl: int, period: int, m: nat) returns (ticked: World)
    requires ttl >= 0 && period > 0 && SecureFor(w, w.now + period, m, key, token, period)
    ensures ticked == Next(Next(w, Advance(period)), Tick(key, token, ttl)) && ticked.now == w.now + period
    ensures OnTime(w, w.now + period, Advance(period), key, token, ttl)
    ensures OnTime(Next(w, Advance(period)), w.now + period, Tick(key, token, ttl), key, token, ttl)
    ensures key in ticked.keys ==> ticked.keys[key].expiry == At(w.now + period + LeaseSeconds(ttl) * SECOND)
  {
    Ahead(m, period);
    ticked := Next(Next(w, Advance(period)), Tick(key, token, ttl));
  }

  /** From a loop on a lock without expiry: one tick, then m missed ones. */
  lemma MissesDropLock(ttl: int, period: int, m: nat) returns (w: World, turns: seq<Turn>)
    requires ttl >= 0 && period > 0 && LeaseSeconds(ttl) * SECOND <= (m + 1) * period
    ensures Inv(w) && SecureFor(w, w.now + period, m, "lock:r", "t", period)
    ensures MissingRun(w, w.now + period, m, m, turns, "lock:r", "t", ttl, period)
    ensures !Holds(PlayAll(w, turns).keys, PlayAll(w, turns).now, "lock:r", "t")
  {
    w := FreshLoop(period, m);
    var later := Next(w, Advance(period));
    var ticked := FirstTick(w, "lock:r", "t", ttl, period, m);
    var rest := MissAll(ticked, w.now + period + period, m, m, "lock:r", "t", ttl, period);
    turns := [Do(Advance(period)), Do(Tick("lock:r", "t", ttl))] + rest;
    assert turns[1..] == [Do(Tick("lock:r", "t", ttl))] + rest && turns[1..][1..] == rest;
    assert MissingRun(later, w.now + period, m, m, turns[1..], "lock:r", "t", ttl, period);
  }

  /** A renewal TTL protects the lock through m missed ticks in a row exactly when its whole seconds are
      longer than m + 1 periods of the running loop. No missed ticks: the case m == 0. */
  lemma SurvivesMissesIff(ttl: int, period: int, m: nat)
    requires ttl >= 0 && period > 0
    ensures SurvivesMisses(ttl, period, m) <==> LeaseSeconds(ttl) * SECOND > (m + 1) * period
  {
    if LeaseSeconds(ttl) * SECOND > (m + 1) * period {
      forall w: World, due: int, turns: seq<Turn>, key: string, token: string
        | Inv(w) && SecureFor(w, due, m, key, token, period) && MissingRun(w, due, m, m, turns, key, token, ttl, period)
        ensures Holds(PlayAll(w, turns).keys, PlayAll(w, turns).now, key, token)
      {
        MissingKeepsSecure(w, due, m, m, turns, key, token, ttl, period);
      }
    } else {
      var w, turns := MissesDropLock(ttl, period, m);
    }
  }

  /** One missed tick is survived from one second on, but not from 1.5 up to 2 seconds. */
  lemma OneMissIff(ttl: int)
    requires ttl >= 0 && Period(ttl) > 0
    ensures SurvivesMisses(ttl, Period(ttl), 1) <==> SECOND <= ttl < SECOND + SECOND / 2 || ttl >= 2 * SECOND
  {
    SurvivesMissesIff(ttl, Period(ttl), 1);
  }

  /** The default of thirty seconds survives one missed tick in a row, and no more. */
  lemma DefaultSurvivesOneMiss(m: nat)
    ensures SurvivesMisses(DEFAULT_LOCK_TTL, Period(DEFAULT_LOCK_TTL), m) <==> m <= 1
  {
    SurvivesMissesIff(DEFAULT_LOCK_TTL, Period(DEFAULT_LOCK_TTL), m);
  }

  /** SetRenewalTTL reaches a loop that already runs: its leases get shorter, its period stays. From then on
      the lock is safe with every tick on time exactly when the new whole seconds are longer than a
      third of the TTL the loop started with. */
  lemma ChangedTTLIff(started: int, ttl: int)
    requires ttl > 0 && started >= 0 && Period(started) > 0
    ensures SurvivesMisses(ttl, Period(started), 0) <==> 3 * (ttl / SECOND) * SECOND > started - started % 3
  {
    SurvivesMissesIff(ttl, Period(started), 0);
  }
}
