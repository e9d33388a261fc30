/** Runs of picture task steps: every step keeps the invariant, so a run can be taken from any such state. */
module TaskRuns {
  import opened Basics
  import opened TaskLifecycle

  lemma NextKeepsInv(w: World, e: Event)
    requires Inv(w) && Enabled(w, e)
    ensures Inv(Next(w, e))
  {
    match e
    case Begin(_, _) => BeginKeepsInv(w, e);
    case Submit(_, _, _, _, _, _, _, _, _, _, _) => SubmitKeepsInv(w, e);
    case Progress(id, to) =>
      if Next(w, e) != w {
        assert TaskInv(w, id);
        StatusKeepsInv(w, id, to);
      }
    case Link(_, _) => ChainsKeepInv(w, Next(w, e).partner, w.notices);
    case Notify(_) => NotifyKeepsInv(w, e);
    case Fail(_, id, _, _) =>
      assert id in w.tasks ==> TaskInv(w, id);
      FailKeepsInv(w, e);
    case Retry(_, _, _, _, _, _, _) => RetryKeepsInv(w, e);
  }

  /** A step, with the invariant it keeps. */
  ghost function Step(w: World, e: Event): (r: World)
    requires Inv(w) && Enabled(w, e)
    ensures Inv(r) && r == Next(w, e)
  {
    NextKeepsInv(w, e);
    Next(w, e)
  }

  ghost predicate IsRun(w: World, es: seq<Event>)
    requires Inv(w)
    decreases |es|
  {
    es == [] || (Enabled(w, es[0]) && IsRun(Step(w, es[0]), es[1..]))
  }

  ghost function After(w: World, es: seq<Event>): (r: World)
    requires Inv(w) && IsRun(w, es)
    ensures Inv(r)
    decreases |es|
  {
    if es == [] then w else After(Step(w, es[0]), es[1..])
  }
}
