/** What runs of the task lifecycle do to statuses: when a terminal one is left, what a failure in a chain undoes, and
    which charges are given up. */
module TaskStatuses {
  import opened Basics
  import opened MapSum
  import opened Credits
  import opened TaskLifecycle
  import opened TaskRuns
  import opened TaskLedger

  // ----- statuses -----

  lemma CompletedStep(w: World, e: Event, id: string)
    requires Inv(w) && Enabled(w, e) && id in w.tasks && w.tasks[id].status == Completed
    ensures id in Next(w, e).tasks
    ensures Next(w, e).tasks[id] == if e == Notify(id) then w.tasks[id].(status := Failed) else w.tasks[id]
  {
    TasksAfter(w, e);
  }

  /** A retry that is allowed, can be charged and is committed. */
  predicate Restarts(w: World, e: Event, id: string)
    requires e.Retry? && e.tx in w.open && e.id in w.tasks ==> Stored(w.open[e.tx].rows, e.selected)
  {
    e.Retry? && e.tx in w.open && e.id == id && Retryable(w, e) && RetryCharge(w, e).Some? && Done(e.commit)
  }

  lemma FailedStep(w: World, e: Event, id: string)
    requires Inv(w) && Enabled(w, e) && id in w.tasks && w.tasks[id].status == Failed
    ensures id in Next(w, e).tasks
    ensures if Restarts(w, e, id) then
              && Next(w, e).tasks[id].status == Pending && !Next(w, e).tasks[id].isRefunded
              && Next(w, e).tasks[id].attempt == |w.attempts|
            else Next(w, e).tasks[id] == w.tasks[id]
  {
    TasksAfter(w, e);
    if e.Retry? && e.id == id && Retryable(w, e) {
      ChargingShape(w, e.tx, e.commit, e.id, RetryCharge(w, e), RetriedTask(w, w.tasks[e.id], RetryCost(w, e)));
    }
  }

  /** A COMPLETED task changes exactly when the notification of its chain's failure marks it, and a FAILED one
      exactly by a committed retry of a task that allows it and can be charged, which starts a new
      attempt in PENDING. */
  lemma TerminalStatesHold(w: World, e: Event, id: string)
    requires Inv(w) && Enabled(w, e) && id in w.tasks
    ensures id in Next(w, e).tasks
    ensures w.tasks[id].status == Completed ==>
              && (Next(w, e).tasks[id] != w.tasks[id] <==> e == Notify(id))
              && (e == Notify(id) ==> Next(w, e).tasks[id] == w.tasks[id].(status := Failed))
    ensures w.tasks[id].status == Failed ==>
              && (Next(w, e).tasks[id] != w.tasks[id] <==> Restarts(w, e, id))
              && (Restarts(w, e, id) ==> Next(w, e).tasks[id].status == Pending && !Next(w, e).tasks[id].isRefunded
                                         && Next(w, e).tasks[id].attempt == |w.attempts|)
  {
    TasksAfter(w, e);
    if w.tasks[id].status == Completed { CompletedStep(w, e, id); }
    if w.tasks[id].status == Failed { FailedStep(w, e, id); }
  }

  /** The failure of a chain's task, saved and told, puts both of its tasks on the list. */
  predicate FailsChain(w: World, e: Event, id: string) {
    && e.Fail? && e.save.Answered? && e.id in w.tasks && !Terminal(w.tasks[e.id].status)
    && e.id in w.partner && (id == e.id || id == w.partner[e.id])
  }

  lemma FailNotices(w: World, e: Event)
    requires Inv(w) && Enabled(w, e) && e.Fail?
    ensures Next(w, e).notices ==
              if e.id in w.tasks && !Terminal(w.tasks[e.id].status) && e.save.Answered? then NoticesAfter(w, e.id)
              else w.notices
  {
    assert e.id in w.tasks ==> TaskInv(w, e.id);
    AfterFailShape(w, e);
  }

  lemma OtherNotices(w: World, e: Event)
    requires Inv(w) && Enabled(w, e) && !Commits(e)
    ensures Next(w, e).notices == if e.Notify? then w.notices - {e.id} else w.notices
  {
  }

  lemma NoticeIff(w: World, e: Event, id: string)
    requires Inv(w) && Enabled(w, e)
    ensures id in Next(w, e).notices <==> FailsChain(w, e, id) || (id in w.notices && e != Notify(id))
  {
    if e.Submit? || e.Retry? {
      ChargeLeaves(w, e);
      assert Next(w, e).notices == w.notices;
    } else if e.Fail? {
      FailNotices(w, e);
    } else {
      OtherNotices(w, e);
    }
  }

  /** Whether some step can change a COMPLETED task is whether it is on the list. */
  lemma CompletedCanBeLeftIff(w: World, id: string)
    requires Inv(w) && id in w.tasks && w.tasks[id].status == Completed
    ensures id in w.notices <==>
              exists e :: Enabled(w, e) && id in Next(w, e).tasks && Next(w, e).tasks[id] != w.tasks[id]
  {
    if id in w.notices {
      assert Enabled(w, Notify(id));
      CompletedStep(w, Notify(id), id);
    }
    if e :| Enabled(w, e) && id in Next(w, e).tasks && Next(w, e).tasks[id] != w.tasks[id] {
      CompletedStep(w, e, id);
    }
  }

  ghost predicate NoChainFailure(w: World, es: seq<Event>, id: string)
    requires Inv(w) && IsRun(w, es)
    decreases |es|
  {
    es == [] || (!FailsChain(w, es[0], id) && NoChainFailure(Step(w, es[0]), es[1..], id))
  }

  /** So a COMPLETED task that is not on the list stays as it is through every run in which no task of its
      chain fails. */
  lemma {:induction false} CompletedStays(w: World, es: seq<Event>, id: string)
    requires Inv(w) && IsRun(w, es) && id in w.tasks && w.tasks[id].status == Completed
    requires id !in w.notices && NoChainFailure(w, es, id)
    ensures id in After(w, es).tasks && After(w, es).tasks[id] == w.tasks[id]
    decreases |es|
  {
    if es != [] {
      NextKeepsInv(w, es[0]);
      CompletedStep(w, es[0], id);
      NoticeIff(w, es[0], id);
      CompletedStays(Next(w, es[0]), es[1..], id);
    }
  }

  /** The other direction, from any state: the second step of a chain fails, and its first step, COMPLETED
      long ago, is marked FAILED. */
  lemma FailureUndoesCompletion(w: World, tx: nat, first: string, second: string, refund: Reply)
    requires Inv(w) && first in w.tasks && w.tasks[first].status == Completed
    requires second in w.partner && w.partner[second] == first
    requires second in w.tasks && !Terminal(w.tasks[second].status)
    requires tx in w.open && w.open[tx].user == w.tasks[second].user
    ensures var e := Fail(tx, second, refund, Answered);
            && Enabled(w, e) && Inv(Next(w, e)) && Enabled(Next(w, e), Notify(first))
            && first in Next(w, e).tasks && Next(w, e).tasks[first] == w.tasks[first]
  {
    var e := Fail(tx, second, refund, Answered);
    NextKeepsInv(w, e);
    NoticeIff(w, e, first);
    CompletedStep(w, e, first);
  }

  function FreeSubmit(id: string): Event {
    Submit(0, id, "p", "u", 0, false, [], 0, false, false, Answered)
  }

  function FreeTask(attempt: nat): Task {
    Task("p", "u", Pending, 0, None, false, true, false, 0, attempt)
  }

  lemma FreeSubmitStep(w: World, id: string)
    requires Inv(w) && w.table == map[] && w.open == map[0 := Open("u", map[])] && id !in w.tasks
    ensures Enabled(w, FreeSubmit(id)) && Inv(Next(w, FreeSubmit(id)))
    ensures Next(w, FreeSubmit(id)) == w.(tasks := w.tasks[id := FreeTask(|w.attempts|)], open := map[],
                                          attempts := w.attempts + [Attempt(id, map[], false, 0)])
  {
    assert IsQueryResult(map[], "p", "u", 0, []);
    NextKeepsInv(w, FreeSubmit(id));
    assert w.open - {0} == map[];
    SpentNothing(map[], map[]);
  }

  /** A free task, submitted while nothing else is going on. */
  lemma FreeSubmitRun(w: World, id: string) returns (after: World)
    requires Inv(w) && w.table == map[] && w.open == map[] && id !in w.tasks
    ensures IsRun(w, [Begin(0, "u"), FreeSubmit(id)]) && after == After(w, [Begin(0, "u"), FreeSubmit(id)])
    ensures Inv(after)
    ensures after == w.(tasks := w.tasks[id := FreeTask(|w.attempts|)],
                        attempts := w.attempts + [Attempt(id, map[], false, 0)])
  {
    var begun := BeginStep(w, 0, "u");
    FreeSubmitStep(begun, id);
    TwoSteps(w, Begin(0, "u"), FreeSubmit(id));
    after := Next(begun, FreeSubmit(id));
  }

  lemma {:induction false} RunConcat(w: World, es: seq<Event>, fs: seq<Event>)
    requires Inv(w) && IsRun(w, es) && IsRun(After(w, es), fs)
    ensures IsRun(w, es + fs) && After(w, es + fs) == After(After(w, es), fs)
    decreases |es|
  {
    if es == [] {
      assert es + fs == fs;
    } else {
      var w1, rest := Step(w, es[0]), es[1..];
      assert IsRun(w1, rest) && After(w, es) == After(w1, rest);
      RunConcat(w1, rest, fs);
      StepRun(w, es[0], rest + fs);
      assert [es[0]] + (rest + fs) == es + fs;
    }
  }

  lemma LinkAndComplete(w: World, a: string, b: string) returns (after: World)
    requires Inv(w) && a != b && a in w.tasks && b in w.tasks && !Terminal(w.tasks[a].status) && w.partner == map[]
    ensures IsRun(w, [Link(a, b), Progress(a, Completed)])
    ensures after == After(w, [Link(a, b), Progress(a, Completed)]) && Inv(after)
    ensures after == w.(partner := map[a := b, b := a], tasks := w.tasks[a := w.tasks[a].(status := Completed)])
  {
    NextKeepsInv(w, Link(a, b));
    var linked := Next(w, Link(a, b));
    NextKeepsInv(linked, Progress(a, Completed));
    TwoSteps(w, Link(a, b), Progress(a, Completed));
    after := Next(linked, Progress(a, Completed));
  }

  lemma FailAndNotify(w: World, a: string, b: string)
    requires Inv(w) && w.open == map[] && a in w.tasks && w.tasks[a].status == Completed
    requires b in w.tasks && !Terminal(w.tasks[b].status) && w.tasks[b].user == "u"
    requires w.partner == map[a := b, b := a]
    ensures IsRun(w, [Begin(0, "u")] + [Fail(0, b, NotDone, Answered), Notify(a)])
    ensures var after := After(w, [Begin(0, "u")] + [Fail(0, b, NotDone, Answered), Notify(a)]);
            a in after.tasks && after.tasks[a].status == Failed
  {
    var begun := BeginStep(w, 0, "u");
    var e := Fail(0, b, NotDone, Answered);
    FailureUndoesCompletion(begun, 0, a, b, NotDone);
    NextKeepsInv(Next(begun, e), Notify(a));
    CompletedStep(Next(begun, e), Notify(a), a);
    TwoSteps(begun, e, Notify(a));
    StepRun(w, Begin(0, "u"), [e, Notify(a)]);
  }

  function FirstStepDone(a: string, b: string): seq<Event> {
    [Begin(0, "u"), FreeSubmit(a)] + [Begin(0, "u"), FreeSubmit(b)] + [Link(a, b), Progress(a, Completed)]
  }

  function SecondStepFails(a: string, b: string): seq<Event> {
    [Begin(0, "u")] + [Fail(0, b, NotDone, Answered), Notify(a)]
  }

  lemma TwoFreeTasks(w0: World, a: string, b: string) returns (w: World)
    requires a != b && Inv(w0) && w0.table == map[] && w0.open == map[] && w0.partner == map[]
    requires w0.tasks == map[] && w0.attempts == []
    ensures var es := [Begin(0, "u"), FreeSubmit(a)] + [Begin(0, "u"), FreeSubmit(b)];
            IsRun(w0, es) && w == After(w0, es) && Inv(w)
    ensures w.open == map[] && w.partner == map[]
    ensures a in w.tasks && w.tasks[a] == FreeTask(0) && b in w.tasks && w.tasks[b] == FreeTask(1)
  {
    var one := FreeSubmitRun(w0, a);
    w := FreeSubmitRun(one, b);
    RunConcat(w0, [Begin(0, "u"), FreeSubmit(a)], [Begin(0, "u"), FreeSubmit(b)]);
  }

  lemma RunToFirstStepDone(w0: World, a: string, b: string) returns (w: World)
    requires a != b && Inv(w0) && w0.table == map[] && w0.open == map[] && w0.partner == map[]
    requires w0.tasks == map[] && w0.attempts == []
    ensures IsRun(w0, FirstStepDone(a, b)) && w == After(w0, FirstStepDone(a, b))
    ensures Inv(w) && w.open == map[] && w.partner == map[a := b, b := a]
    ensures a in w.tasks && w.tasks[a].status == Completed && b in w.tasks && w.tasks[b] == FreeTask(1)
  {
    var two := TwoFreeTasks(w0, a, b);
    w := LinkAndComplete(two, a, b);
    RunConcat(w0, [Begin(0, "u"), FreeSubmit(a)] + [Begin(0, "u"), FreeSubmit(b)],
              [Link(a, b), Progress(a, Completed)]);
  }

  /** A whole run from the start in which a COMPLETED task becomes FAILED. */
  lemma CompletionIsUndone(a: string, b: string)
    requires a != b
    ensures Inv(Start(map[])) && IsRun(Start(map[]), FirstStepDone(a, b))
    ensures var w := After(Start(map[]), FirstStepDone(a, b));
            && a in w.tasks && w.tasks[a].status == Completed && IsRun(w, SecondStepFails(a, b))
            && a in After(w, SecondStepFails(a, b)).tasks && After(w, SecondStepFails(a, b)).tasks[a].status == Failed
  {
    var w := RunToFirstStepDone(Start(map[]), a, b);
    FailAndNotify(w, a, b);
  }

  /** A step writes the task it names, or none. */
  lemma TasksAfter(w: World, e: Event)
    requires Inv(w) && Enabled(w, e)
    ensures Next(w, e).tasks == w.tasks || (!e.Begin? && Next(w, e).tasks == w.tasks[e.id := TaskWritten(w, e)])
    ensures e.Retry? && Next(w, e).tasks != w.tasks ==> Retryable(w, e) && Done(e.commit)
    ensures e.Fail? && Next(w, e).tasks != w.tasks ==> e.id in w.tasks && !Terminal(w.tasks[e.id].status)
    ensures e.Progress? && Next(w, e).tasks != w.tasks ==> e.id in w.tasks && !Terminal(w.tasks[e.id].status)
  {
    if e.Submit? || e.Retry? {
      ChargeTasks(w, e);
    } else if e.Fail? {
      FailTasks(w, e);
    } else {
      OtherTasks(w, e);
    }
  }

  lemma OtherTasks(w: World, e: Event)
    requires Inv(w) && Enabled(w, e) && !Commits(e)
    ensures Next(w, e).tasks == w.tasks || (!e.Begin? && Next(w, e).tasks == w.tasks[e.id := TaskWritten(w, e)])
    ensures e.Progress? && Next(w, e).tasks != w.tasks ==> e.id in w.tasks && !Terminal(w.tasks[e.id].status)
  {
    match e
    case Begin(tx, user) => assert Next(w, e) == w.(open := w.open[tx := Open(user, w.table)]);
    case Link(_, _) => assert Next(w, e) == AfterLink(w, e);
    case Progress(_, _) => assert Next(w, e) == AfterProgress(w, e);
    case Notify(_) => assert Next(w, e) == AfterNotify(w, e);
    case _ =>
  }

  lemma ChargeTasks(w: World, e: Event)
    requires Inv(w) && Enabled(w, e) && (e.Submit? || e.Retry?)
    ensures Next(w, e).tasks == w.tasks || Next(w, e).tasks == w.tasks[e.id := TaskWritten(w, e)]
    ensures e.Retry? && Next(w, e).tasks != w.tasks ==> Retryable(w, e) && Done(e.commit)
  {
    if e.Submit? {
      ChargingShape(w, e.tx, e.commit, e.id, SubmitCharge(w, e), NewTask(w, e, SubmitCost(e)));
    } else if Retryable(w, e) {
      ChargingShape(w, e.tx, e.commit, e.id, RetryCharge(w, e), RetriedTask(w, w.tasks[e.id], RetryCost(w, e)));
    }
  }

  lemma FailTasks(w: World, e: Event)
    requires Inv(w) && Enabled(w, e) && e.Fail?
    ensures Next(w, e).tasks == w.tasks || Next(w, e).tasks == w.tasks[e.id := TaskWritten(w, e)]
    ensures Next(w, e).tasks != w.tasks ==> e.id in w.tasks && !Terminal(w.tasks[e.id].status)
  {
  }

  ghost function TaskWritten(w: World, e: Event): Task
    requires Inv(w) && Enabled(w, e) && !e.Begin?
  {
    if e.id in Next(w, e).tasks then Next(w, e).tasks[e.id]
    else Task("", "", Pending, 0, None, false, false, false, 0, 0)
  }

  /** An attempt that is over: a retry has replaced it, or its task is FAILED. */
  predicate Over(w: World, i: nat) {
    && i < |w.attempts| && w.attempts[i].task in w.tasks
    && var task := w.tasks[w.attempts[i].task];
       task.attempt > i || (task.attempt == i && task.status == Failed)
  }

  /** It is never paid back any more: a charge whose refund failed is given up. */
  lemma {:induction false} OldAttemptsAreFrozen(w: World, es: seq<Event>, i: nat)
    requires Inv(w) && IsRun(w, es) && Over(w, i)
    ensures i < |After(w, es).attempts| && After(w, es).attempts[i] == w.attempts[i]
    decreases |es|
  {
    if es != [] {
      NextKeepsInv(w, es[0]);
      OverStep(w, es[0], i);
      OldAttemptsAreFrozen(Next(w, es[0]), es[1..], i);
    }
  }

  lemma OverStep(w: World, e: Event, i: nat)
    requires Inv(w) && Enabled(w, e) && Over(w, i)
    ensures Over(Next(w, e), i) && Next(w, e).attempts[i] == w.attempts[i]
  {
    var id := w.attempts[i].task;
    OverAttempt(w, e, i);
    if w.tasks[id].status == Failed {
      FailedStep(w, e, id);
    } else {
      NewerAttemptStays(w, e, id);
    }
  }

  lemma OverAttempt(w: World, e: Event, i: nat)
    requires Inv(w) && Enabled(w, e) && Over(w, i)
    ensures i < |Next(w, e).attempts| && Next(w, e).attempts[i] == w.attempts[i]
  {
    if e.Submit? || e.Retry? {
      ChargeStep(w, e);
    } else if e.Fail? {
      FailLeavesOver(w, e, i);
    } else {
      OtherLedger(w, e);
    }
  }

  lemma FailLeavesOver(w: World, e: Event, i: nat)
    requires Inv(w) && Enabled(w, e) && Over(w, i) && e.Fail?
    ensures i < |Next(w, e).attempts| && Next(w, e).attempts[i] == w.attempts[i]
  {
    assert e.id in w.tasks ==> TaskInv(w, e.id);
    AfterFailShape(w, e);
    assert e.id in w.tasks && !Terminal(w.tasks[e.id].status) ==> w.tasks[e.id].attempt != i;
  }

  /** A task that is not FAILED keeps its attempt. */
  lemma NewerAttemptStays(w: World, e: Event, id: string)
    requires Inv(w) && Enabled(w, e) && id in w.tasks && w.tasks[id].status != Failed
    ensures id in Next(w, e).tasks && Next(w, e).tasks[id].attempt == w.tasks[id].attempt
  {
    TasksAfter(w, e);
  }

  /** A task that an executor saves as FAILED itself keeps its charge in every run from then on: FailTask finds
      it terminal, and a retry charges anew. */
  lemma DirectFailureForfeits(w: World, es: seq<Event>, id: string)
    requires Inv(w) && IsRun(w, es) && es != [] && es[0] == Progress(id, Failed)
    requires id in w.tasks && w.tasks[id].status != Completed
    ensures var i := w.tasks[id].attempt;
            && i < |w.attempts| && w.attempts[i].info == Record(w.tasks[id].deduction)
            && i < |After(w, es).attempts| && After(w, es).attempts[i] == w.attempts[i]
  {
    assert TaskInv(w, id);
    NextKeepsInv(w, es[0]);
    DirectFailureIsOver(w, es[0]);
    OldAttemptsAreFrozen(Next(w, es[0]), es[1..], w.tasks[id].attempt);
  }

  lemma DirectFailureIsOver(w: World, e: Event)
    requires Inv(w) && e.Progress? && e.to == Failed && e.id in w.tasks && w.tasks[e.id].status != Completed
    ensures Over(AfterProgress(w, e), w.tasks[e.id].attempt)
    ensures AfterProgress(w, e).attempts == w.attempts
  {
    assert TaskInv(w, e.id);
    var i := w.tasks[e.id].attempt;
    assert w.attempts[i].task == e.id;
    assert AfterProgress(w, e).tasks[e.id] == w.tasks[e.id].(status := Failed);
  }
}
