/** Runs of the lock protocol: any number of clients, interleaved one Redis command at a time,
    with a clock that only advances. Every grant is recorded as a tenure. */
module LeaseRuns {
  import opened LeaseStore

  /** token holds key from start until end (exclusive). */
  datatype Tenure = Tenure(key: string, token: string, start: int, end: Expiry) {
    predicate Covers(t: int) {
      start <= t && Before(t, end)
    }
  }

  datatype World = World(
    keys: Keyspace,
    now: int,
    issued: set<string>,               // UUIDs drawn so far
    loops: set<(string, string)>,      // renewal goroutines still running: (key, token)
    tenures: seq<Tenure>)

  /** A command that took effect appears here even when its answer was lost; one that never arrived does
      not, nor does a tick without effect whose answer was lost, after which the loop goes on. */
  datatype Event =
    | Acquire(key: string, token: string, ttl: int)
    | Release(key: string, token: string)
    | StartLoop(key: string, token: string)
    | Tick(key: string, token: string, renewalTTL: int)
    | StopLoop(key: string, token: string)
    | Advance(d: nat)

  function Start(now: int): World {
    World(map[], now, {}, {}, [])
  }

  /** UUIDs are fresh, and only a running loop ticks. */
  predicate Enabled(w: World, e: Event) {
    match e
    case Acquire(_, token, _) => token !in w.issued
    case Tick(key, token, _) => (key, token) in w.loops
    case _ => true
  }

  function Retime(ts: seq<Tenure>, token: string, end: Expiry): (r: seq<Tenure>)
    ensures |r| == |ts|
    ensures forall i :: 0 <= i < |ts| ==> r[i] == if ts[i].token == token then ts[i].(end := end) else ts[i]
  {
    seq(|ts|, i requires 0 <= i < |ts| => if ts[i].token == token then ts[i].(end := end) else ts[i])
  }

  /** The tenure of token now ends at end. */
  function WithEnd(w: World, keys: Keyspace, token: string, end: int): World {
    w.(keys := keys, tenures := Retime(w.tenures, token, At(end)))
  }

  /** When a lease renewed now runs out. */
  function LeaseEnd(now: int, ttl: int): int {
    if LeaseSeconds(ttl) <= 0 then now else now + LeaseSeconds(ttl) * SECOND
  }

  function Next(w: World, e: Event): World {
    match e
    case Acquire(key, token, ttl) =>
      var w' := w.(issued := w.issued + {token}, keys := SetNX(w.keys, w.now, key, token, ttl));
      if ValidTTL(ttl) && !Live(w.keys, w.now, key)
      then w'.(tenures := w.tenures + [Tenure(key, token, w.now, SetExpiry(w.now, ttl))])
      else w'
    case Release(key, token) =>
      if Holds(w.keys, w.now, key, token)
      then WithEnd(w, CompareAndDelete(w.keys, w.now, key, token), token, w.now)
      else w
    case StartLoop(key, token) =>
      if Holds(w.keys, w.now, key, token) then w.(loops := w.loops + {(key, token)}) else w
    case Tick(key, token, ttl) =>
      if Holds(w.keys, w.now, key, token)
      then WithEnd(w, CompareAndExpire(w.keys, w.now, key, token, ttl), token, LeaseEnd(w.now, ttl))
      else w.(loops := w.loops - {(key, token)})
    case StopLoop(key, token) => w.(loops := w.loops - {(key, token)})
    case Advance(d) => w.(now := w.now + d)
  }

  predicate IsRun(w: World, es: seq<Event>)
    decreases |es|
  {
    es == [] || (Enabled(w, es[0]) && IsRun(Next(w, es[0]), es[1..]))
  }

  function After(w: World, es: seq<Event>): World
    decreases |es|
  {
    if es == [] then w else After(Next(w, es[0]), es[1..])
  }

  // ----- the invariant -----

  ghost predicate EndsBefore(a: Tenure, b: Tenure) {
    a.end.At? && a.end.t <= b.start
  }

  ghost predicate Known(w: World) {
    forall i :: 0 <= i < |w.tenures| ==> w.tenures[i].token in w.issued && w.tenures[i].start <= w.now
  }

  ghost predicate Distinct(ts: seq<Tenure>) {
    forall i, j :: 0 <= i < j < |ts| ==> ts[i].token != ts[j].token
  }

  ghost predicate Ordered(ts: seq<Tenure>) {
    forall i, j :: 0 <= i < j < |ts| && ts[i].key == ts[j].key ==> EndsBefore(ts[i], ts[j])
  }

  /** A tenure that has not ended is what the keyspace stores. */
  ghost predicate RunningIsStored(ts: seq<Tenure>, ks: Keyspace, now: int) {
    forall i :: 0 <= i < |ts| && Before(now, ts[i].end) ==>
      ts[i].key in ks && ks[ts[i].key] == Entry(ts[i].token, ts[i].end)
  }

  ghost predicate IsRecord(t: Tenure, key: string, e: Entry) {
    t.key == key && t.token == e.token && t.end == e.expiry
  }

  ghost predicate Recorded(ts: seq<Tenure>, key: string, e: Entry) {
    exists i :: 0 <= i < |ts| && IsRecord(ts[i], key, e)
  }

  ghost predicate StoredIsRecorded(ts: seq<Tenure>, ks: Keyspace) {
    forall k :: k in ks ==> Recorded(ts, k, ks[k])
  }

  /** The keyspace and the recorded tenures tell the same story. */
  ghost predicate Inv(w: World) {
    && Known(w)
    && Distinct(w.tenures)
    && Ordered(w.tenures)
    && RunningIsStored(w.tenures, w.keys, w.now)
    && StoredIsRecorded(w.tenures, w.keys)
  }

  lemma AcquireKeepsInv(w: World, key: string, token: string, ttl: int)
    requires Inv(w) && token !in w.issued && ValidTTL(ttl) && !Live(w.keys, w.now, key)
    ensures Inv(Next(w, Acquire(key, token, ttl)))
  {
    var w' := Next(w, Acquire(key, token, ttl));
    var n := |w.tenures|;
    forall i | 0 <= i < n && w.tenures[i].key == key
      ensures EndsBefore(w'.tenures[i], w'.tenures[n])
    {
      assert Before(w.now, w.tenures[i].end) ==> Live(w.keys, w.now, key);
    }
    forall k | k in w'.keys
      ensures Recorded(w'.tenures, k, w'.keys[k])
    {
      if k == key {
        assert IsRecord(w'.tenures[n], k, w'.keys[k]);
      } else {
        var i :| 0 <= i < n && IsRecord(w.tenures[i], k, w.keys[k]);
        assert w'.tenures[i] == w.tenures[i];
      }
    }
  }

  lemma RetimeKeepsOrder(ts: seq<Tenure>, ks: Keyspace, now: int, key: string, token: string, end: int)
    requires Distinct(ts) && Ordered(ts) && RunningIsStored(ts, ks, now) && StoredIsRecorded(ts, ks)
    requires forall i :: 0 <= i < |ts| ==> ts[i].start <= now
    requires Holds(ks, now, key, token) && now <= end
    ensures Distinct(Retime(ts, token, At(end))) && Ordered(Retime(ts, token, At(end)))
  {
    var c :| 0 <= c < |ts| && IsRecord(ts[c], key, ks[key]);
    var ts' := Retime(ts, token, At(end));
    forall i, j | 0 <= i < j < |ts| && ts'[i].key == ts'[j].key
      ensures EndsBefore(ts'[i], ts'[j])
    {
      assert EndsBefore(ts[i], ts[j]);
      assert i != c by { assert ts[j].start <= now; }
      assert ts[i].token != token;
    }
  }

  lemma RetimeKeepsRecords(ts: seq<Tenure>, ks: Keyspace, now: int, key: string, token: string, end: int)
    requires Distinct(ts) && RunningIsStored(ts, ks, now) && StoredIsRecorded(ts, ks)
    requires Holds(ks, now, key, token) && now <= end
    ensures RunningIsStored(Retime(ts, token, At(end)), ks[key := Entry(token, At(end))], now)
    ensures StoredIsRecorded(Retime(ts, token, At(end)), ks[key := Entry(token, At(end))])
    ensures end == now ==> RunningIsStored(Retime(ts, token, At(end)), ks - {key}, now)
  {
    var c :| 0 <= c < |ts| && IsRecord(ts[c], key, ks[key]);
    var ts', ks' := Retime(ts, token, At(end)), ks[key := Entry(token, At(end))];
    forall k | k in ks'
      ensures Recorded(ts', k, ks'[k])
    {
      var i :| 0 <= i < |ts| && IsRecord(ts[i], k, ks[k]);
      assert if k == key then IsRecord(ts'[c], k, ks'[k]) else ts'[i] == ts[i];
    }
    forall i | 0 <= i < |ts| && Before(now, ts'[i].end)
      ensures ts'[i].key in ks' && ks'[ts'[i].key] == Entry(ts'[i].token, ts'[i].end)
      ensures ts'[i].key == key ==> i == c
    {
      assert i == c || ts[i].token != token;
    }
  }

  /** A release or a renewal moves the end of the running tenure and nothing else. */
  lemma RetimeKeepsInv(w: World, key: string, token: string, end: int, keys': Keyspace)
    requires Inv(w) && Holds(w.keys, w.now, key, token) && w.now <= end
    requires keys' == if end == w.now then w.keys - {key} else w.keys[key := Entry(token, At(end))]
    ensures Inv(WithEnd(w, keys', token, end))
  {
    RetimeKeepsOrder(w.tenures, w.keys, w.now, key, token, end);
    RetimeKeepsRecords(w.tenures, w.keys, w.now, key, token, end);
    if end == w.now {
      var full := w.keys[key := Entry(token, At(end))];
      forall k | k in keys'
        ensures Recorded(Retime(w.tenures, token, At(end)), k, keys'[k])
      {
        assert k in full && full[k] == keys'[k];
      }
    }
  }

  lemma ReleaseKeepsInv(w: World, key: string, token: string)
    requires Inv(w)
    ensures Inv(Next(w, Release(key, token)))
  {
    if Holds(w.keys, w.now, key, token) {
      RetimeKeepsInv(w, key, token, w.now, w.keys - {key});
    }
  }

  lemma TickKeepsInv(w: World, key: string, token: string, ttl: int)
    requires Inv(w) && Holds(w.keys, w.now, key, token)
    ensures Inv(WithEnd(w, CompareAndExpire(w.keys, w.now, key, token, ttl), token, LeaseEnd(w.now, ttl)))
  {
    RetimeKeepsInv(w, key, token, LeaseEnd(w.now, ttl), CompareAndExpire(w.keys, w.now, key, token, ttl));
  }

  lemma StopKeepsInv(w: World, loops: set<(string, string)>)
    requires Inv(w)
    ensures Inv(w.(loops := loops))
  {
  }

  lemma AdvanceKeepsInv(w: World, d: nat)
    requires Inv(w)
    ensures Inv(Next(w, Advance(d)))
  {
    forall i | 0 <= i < |w.tenures| && Before(w.now + d, w.tenures[i].end)
      ensures Before(w.now, w.tenures[i].end)
    {
    }
  }

  lemma StepKeepsInv(w: World, e: Event)
    requires Inv(w) && Enabled(w, e)
    ensures Inv(Next(w, e))
  {
    match e
    case Acquire(key, token, ttl) =>
      if ValidTTL(ttl) && !Live(w.keys, w.now, key) {
        AcquireKeepsInv(w, key, token, ttl);
      }
    case Release(key, token) => ReleaseKeepsInv(w, key, token);
    case Tick(key, token, ttl) =>
      if Holds(w.keys, w.now, key, token) {
        TickKeepsInv(w, key, token, ttl);
      } else {
        StopKeepsInv(w, w.loops - {(key, token)});
      }
    case Advance(d) => AdvanceKeepsInv(w, d);
    case StartLoop(_, _) =>
    case StopLoop(_, _) =>
  }

  lemma {:induction false} RunKeepsInv(w: World, es: seq<Event>)
    requires Inv(w) && IsRun(w, es)
    ensures Inv(After(w, es))
    decreases |es|
  {
    if es != [] {
      StepKeepsInv(w, es[0]);
      RunKeepsInv(Next(w, es[0]), es[1..]);
    }
  }

  // ----- main results -----

  /** In every run a token is what GET answers exactly during its tenure on that key. */
  lemma HoldingIsTenure(now0: int, es: seq<Event>, key: string, token: string)
    requires IsRun(Start(now0), es)
    ensures var w := After(Start(now0), es);
            Holds(w.keys, w.now, key, token) <==>
            exists i :: 0 <= i < |w.tenures| && w.tenures[i].key == key && w.tenures[i].token == token &&
                w.tenures[i].Covers(w.now)
  {
    RunKeepsInv(Start(now0), es);
    var w := After(Start(now0), es);
    if Holds(w.keys, w.now, key, token) {
      var i :| 0 <= i < |w.tenures| && IsRecord(w.tenures[i], key, w.keys[key]);
      assert w.tenures[i].Covers(w.now);
    }
  }

  /** In every run no two grants of one resource overlap in time, not even at a single instant. */
  lemma LeasesAreDisjoint(now0: int, es: seq<Event>, i: nat, j: nat, t: int)
    requires IsRun(Start(now0), es)
    requires i < j < |After(Start(now0), es).tenures|
    requires After(Start(now0), es).tenures[i].key == After(Start(now0), es).tenures[j].key
    ensures !(After(Start(now0), es).tenures[i].Covers(t) && After(Start(now0), es).tenures[j].Covers(t))
  {
    RunKeepsInv(Start(now0), es);
  }

  /** A release or renewal with one token leaves every entry that carries another token as it is. */
  lemma OtherTokensUntouched(w: World, e: Event, k: string)
    requires e.Release? || e.Tick?
    requires k in w.keys && w.keys[k].token != e.token
    ensures k in Next(w, e).keys && Next(w, e).keys[k] == w.keys[k]
  {
  }

  /** A token that was drawn and does not hold the key now will never hold it again. */
  lemma {:induction false} LostForGood(w: World, es: seq<Event>, key: string, token: string)
    requires IsRun(w, es) && token in w.issued && !Holds(w.keys, w.now, key, token)
    ensures var w' := After(w, es); token in w'.issued && !Holds(w'.keys, w'.now, key, token)
    decreases |es|
  {
    if es != [] {
      LostForGood(Next(w, es[0]), es[1..], key, token);
    }
  }

  /** So once its lock is lost, a renewal loop that fires stops, changes no entry, and cannot be started again. */
  lemma LostLoopCanOnlyStop(w: World, es: seq<Event>, key: string, token: string, renewalTTL: int)
    requires IsRun(w, es) && token in w.issued && !Holds(w.keys, w.now, key, token)
    ensures var w' := After(w, es);
            && Next(w', Tick(key, token, renewalTTL)).keys == w'.keys
            && (key, token) !in Next(w', Tick(key, token, renewalTTL)).loops
            && Next(w', StartLoop(key, token)).loops == w'.loops
  {
    LostForGood(w, es, key, token);
  }

  /** Two tokens are never both in possession across a run: between two instants at which one
      token holds the key, no other token holds it. */
  lemma NoInterleavedHolder(w: World, es1: seq<Event>, es2: seq<Event>, key: string, a: string, b: string)
    requires IsRun(w, es1) && IsRun(After(w, es1), es2)
    requires a in w.issued && a != b
    requires Holds(w.keys, w.now, key, a)
    requires Holds(After(After(w, es1), es2).keys, After(After(w, es1), es2).now, key, a)
    ensures !Holds(After(w, es1).keys, After(w, es1).now, key, b)
  {
    var m := After(w, es1);
    if Holds(m.keys, m.now, key, b) {
      IssuedGrows(w, es1, a);
      LostForGood(m, es2, key, a);
    }
  }

  lemma {:induction false} IssuedGrows(w: World, es: seq<Event>, token: string)
    requires token in w.issued
    ensures token in After(w, es).issued
    decreases |es|
  {
    if es != [] {
      IssuedGrows(Next(w, es[0]), es[1..], token);
    }
  }

  // ----- a client that dies -----

  /** The two scripts, with the token. */
  predicate ByToken(e: Event, token: string) {
    (e.Release? || e.Tick?) && e.token == token
  }

  predicate Unattended(w: World, key: string, token: string, expiry: Expiry) {
    && token in w.issued
    && (Holds(w.keys, w.now, key, token) <==> Before(w.now, expiry))
    && (Before(w.now, expiry) ==> key in w.keys && w.keys[key] == Entry(token, expiry))
  }

  lemma {:induction false} UnattendedRun(w: World, es: seq<Event>, key: string, token: string, expiry: Expiry)
    requires IsRun(w, es) && Unattended(w, key, token, expiry) && forall e :: e in es ==> !ByToken(e, token)
    ensures Unattended(After(w, es), key, token, expiry)
    decreases |es|
  {
    if es != [] {
      assert es[0] in es;
      UnattendedStep(w, es[0], key, token, expiry);
      UnattendedRun(Next(w, es[0]), es[1..], key, token, expiry);
    }
  }

  lemma UnattendedStep(w: World, e: Event, key: string, token: string, expiry: Expiry)
    requires Enabled(w, e) && Unattended(w, key, token, expiry) && !ByToken(e, token)
    ensures Unattended(Next(w, e), key, token, expiry)
  {
  }

  /** What SET NX made of a free key. */
  lemma AcquireFree(w: World, key: string, token: string, ttl: int) returns (expiry: Expiry)
    requires !Live(w.keys, w.now, key) && (ttl == 0 || ttl >= 1_000_000)
    ensures expiry == if ttl == 0 then Never else At(w.now + (ttl - ttl % 1_000_000))
    ensures Unattended(Next(w, Acquire(key, token, ttl)), key, token, expiry)
    ensures Next(w, Acquire(key, token, ttl)).keys == w.keys[key := Entry(token, expiry)]
  {
    var w' := Next(w, Acquire(key, token, ttl));
    expiry := w'.keys[key].expiry;
    assert ttl / MILLISECOND * MILLISECOND == ttl - ttl % MILLISECOND;
  }

  /** A holder that neither renews nor releases has the lock exactly for the whole milliseconds of its TTL, in
      every run of everybody else; without a TTL it has it for ever. */
  lemma LeaseRunsOut(w: World, es: seq<Event>, key: string, token: string, ttl: int)
    requires token !in w.issued && !Live(w.keys, w.now, key) && (ttl == 0 || ttl >= 1_000_000)
    requires IsRun(Next(w, Acquire(key, token, ttl)), es) && forall e :: e in es ==> !ByToken(e, token)
    ensures var w' := After(Next(w, Acquire(key, token, ttl)), es);
            Holds(w'.keys, w'.now, key, token) <==> ttl == 0 || w'.now - w.now < ttl - ttl % 1_000_000
  {
    var expiry := AcquireFree(w, key, token, ttl);
    UnattendedRun(Next(w, Acquire(key, token, ttl)), es, key, token, expiry);
  }

  lemma {:induction false} EntryStays(w: World, es: seq<Event>, key: string, entry: Entry)
    requires IsRun(w, es) && key in w.keys && w.keys[key] == entry
    requires forall e :: e in es ==> !ByToken(e, entry.token) && !(e.Acquire? && e.key == key)
    ensures key in After(w, es).keys && After(w, es).keys[key] == entry
    decreases |es|
  {
    if es != [] {
      assert es[0] in es;
      EntryStays(Next(w, es[0]), es[1..], key, entry);
    }
  }

  /** So when nobody tried in between, another client gets the lock exactly from that moment on. */
  lemma NextClientGetsInIff(w: World, es: seq<Event>, key: string, token: string, ttl: int,
                            other: string, otherTTL: int)
    requires token !in w.issued && !Live(w.keys, w.now, key) && (ttl == 0 || ttl >= 1_000_000)
    requires IsRun(Next(w, Acquire(key, token, ttl)), es)
    requires forall e :: e in es ==> !ByToken(e, token) && !(e.Acquire? && e.key == key)
    requires other !in After(Next(w, Acquire(key, token, ttl)), es).issued && otherTTL >= 1_000_000
    ensures var w' := After(Next(w, Acquire(key, token, ttl)), es);
            Holds(Next(w', Acquire(key, other, otherTTL)).keys, w'.now, key, other) <==>
            ttl != 0 && w'.now - w.now >= ttl - ttl % 1_000_000
  {
    var w1 := Next(w, Acquire(key, token, ttl));
    var expiry := AcquireFree(w, key, token, ttl);
    UnattendedRun(w1, es, key, token, expiry);
    EntryStays(w1, es, key, Entry(token, expiry));
    var w' := After(w1, es);
    if !Live(w'.keys, w'.now, key) { HeldForTTL(w'.keys, w'.now, key, other, otherTTL, w'.now); }
  }

  /** A loop that was told to stop does not tick again unless it is started again. */
  lemma {:induction false} StoppedLoopIsSilent(w: World, es: seq<Event>, key: string, token: string, ttl: int)
    requires IsRun(Next(w, StopLoop(key, token)), es) && StartLoop(key, token) !in es
    ensures !Enabled(After(Next(w, StopLoop(key, token)), es), Tick(key, token, ttl))
  {
    NotRunning(Next(w, StopLoop(key, token)), es, key, token);
  }

  lemma {:induction false} NotRunning(w: World, es: seq<Event>, key: string, token: string)
    requires IsRun(w, es) && (key, token) !in w.loops && StartLoop(key, token) !in es
    ensures (key, token) !in After(w, es).loops
    decreases |es|
  {
    if es != [] {
      assert es[0] in es;
      NotRunning(Next(w, es[0]), es[1..], key, token);
    }
  }
}
