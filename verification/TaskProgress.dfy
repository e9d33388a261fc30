/** The progress column of a task: whole-row saves of the main flow against a background ramp that
    writes the column only upwards. */
module TaskProgress {

  const RAMP_MAX := 94

  /** The column, and the ramp with the progress it wrote last. */
  datatype World = World(progress: int, running: bool, last: int)

  datatype Event = Save(progress: int) | Tick(works: bool)

  /** The conditional update: the column after it, and whether a row was written. */
  function IfHigher(stored: int, progress: int): (int, bool) {
    if stored < progress then (progress, true) else (stored, false)
  }

  function Next(w: World, e: Event): World {
    match e
    case Save(progress) => w.(progress := progress)
    case Tick(works) =>
      if !w.running then w
      else if w.last >= RAMP_MAX || !works then w.(running := false)
      else
        var (progress, updated) := IfHigher(w.progress, w.last + 1);
        World(progress, updated, if updated then w.last + 1 else w.last)
  }

  function After(w: World, es: seq<Event>): World
    decreases |es|
  {
    if es == [] then w else After(Next(w, es[0]), es[1..])
  }

  class PictureTaskDao {
    var progress: map<string, int>

    method UpdateTaskProgressIfHigher(taskID: string, value: int) returns (updated: bool)
      modifies this
      ensures updated <==> taskID in old(progress) && old(progress)[taskID] < value
      ensures progress == if updated then old(progress)[taskID := value] else old(progress)
      ensures taskID in progress ==> (progress[taskID], updated) == IfHigher(old(progress)[taskID], value)
    {
      updated := taskID in progress && progress[taskID] < value;
      if updated {
        progress := progress[taskID := value];
      }
    }
  }

  predicate OnlyTicks(es: seq<Event>) {
    forall e :: e in es ==> e.Tick?
  }

  /** Between two saves the column never falls, and the ramp never takes it past its maximum. */
  lemma {:induction false} TicksOnlyRaise(w: World, es: seq<Event>)
    requires OnlyTicks(es)
    ensures w.progress <= After(w, es).progress
    ensures After(w, es).progress <= if w.progress < RAMP_MAX then RAMP_MAX else w.progress
    decreases |es|
  {
    if es != [] {
      assert es[0] in es;
      TicksOnlyRaise(Next(w, es[0]), es[1..]);
    }
  }

  /** A save of more than the ramp's maximum stays, whatever the ramp still does. */
  lemma LateSaveStays(w: World, saved: int, es: seq<Event>)
    requires saved >= RAMP_MAX && OnlyTicks(es)
    ensures After(Next(w, Save(saved)), es).progress == saved
  {
    TicksOnlyRaise(Next(w, Save(saved)), es);
  }

  /** The ramp stops for good once a save is ahead of it. */
  lemma {:induction false} StoppedStays(w: World, es: seq<Event>)
    requires !w.running
    ensures !After(w, es).running
    ensures OnlyTicks(es) ==> After(w, es) == w
    decreases |es|
  {
    if es != [] {
      StoppedStays(Next(w, es[0]), es[1..]);
      assert es[0] in es;
    }
  }

  /** The -1 that marks a failed task is lower than any progress. Over any run of ticks it stays exactly
      when there is no tick, or the ramp has stopped, is at its maximum, or fails at its first tick. */
  lemma FailureMarkStaysIff(w: World, es: seq<Event>)
    requires w.last >= 0 && OnlyTicks(es)
    ensures After(Next(w, Save(-1)), es).progress == -1 <==>
              es == [] || !w.running || w.last >= RAMP_MAX || !es[0].works
  {
    var failed := Next(w, Save(-1));
    if es != [] {
      assert es[0] in es && OnlyTicks(es[1..]);
      var next := Next(failed, es[0]);
      if !w.running || w.last >= RAMP_MAX || !es[0].works {
        StoppedStays(next, es[1..]);
      } else {
        TicksOnlyRaise(next, es[1..]);
      }
    }
  }

  function Ticks(n: nat): seq<Event> {
    if n == 0 then [] else [Tick(true)] + Ticks(n - 1)
  }

  /** Left alone, the ramp climbs by one a tick up to 94 and stays there. */
  lemma {:induction false} RampClimbs(w: World, n: nat)
    requires w.running && w.progress == w.last <= 94
    ensures After(w, Ticks(n)).progress == if w.progress + n < 94 then w.progress + n else 94
    decreases n
  {
    if n > 0 {
      assert Ticks(n)[0] == Tick(true) && Ticks(n)[1..] == Ticks(n - 1);
      if w.last < RAMP_MAX {
        RampClimbs(Next(w, Tick(true)), n - 1);
      } else {
        OnlyTicksIn(n - 1);
        StoppedStays(Next(w, Tick(true)), Ticks(n - 1));
      }
    }
  }

  lemma {:induction false} OnlyTicksIn(n: nat)
    ensures OnlyTicks(Ticks(n))
  {
    if n > 0 { OnlyTicksIn(n - 1); }
  }
}
