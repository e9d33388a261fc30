/** Failures and their refunds in the task lifecycle: what one pays and marks, and when both agree. */
module TaskRefunds {
  import opened Basics
  import opened MapSum
  import opened Credits
  import opened TaskCharges
  import opened TaskLifecycle
  import opened TaskRuns
  import opened TaskLedger

  ghost predicate AllSettled(s: seq<Attempt>) {
    forall i :: 0 <= i < |s| ==> s[i].refunds == if s[i].marked then 1 else 0
  }

  /** The refund took effect, and its answer or the saved task did not follow. */
  predicate Torn(w: World, e: Event) {
    e.Fail? && PaysBack(w, e) && !(e.refund.Answered? && Done(e.save))
  }

  /** One step spoils the marks exactly when it is a torn failure. */
  lemma OnlyTornFailuresUnsettle(w: World, e: Event)
    requires Inv(w) && Enabled(w, e) && AllSettled(w.attempts)
    ensures AllSettled(Next(w, e).attempts) <==> !Torn(w, e)
  {
    if e.Submit? || e.Retry? {
      ChargeStaysSettled(w, e);
    } else if e.Fail? && e.id in w.tasks {
      FailUnsettles(w, e);
    }
  }

  lemma ChargeStaysSettled(w: World, e: Event)
    requires Inv(w) && Enabled(w, e) && AllSettled(w.attempts) && (e.Submit? || e.Retry?)
    ensures AllSettled(Next(w, e).attempts)
  {
    ChargeStep(w, e);
  }

  lemma FailUnsettles(w: World, e: Event)
    requires Inv(w) && Enabled(w, e) && AllSettled(w.attempts) && e.Fail? && e.id in w.tasks
    ensures AllSettled(Next(w, e).attempts) <==> !Torn(w, e)
  {
    assert TaskInv(w, e.id);
    var i, s, s' := w.tasks[e.id].attempt, w.attempts, Next(w, e).attempts;
    assert s[i].refunds == if s[i].marked then 1 else 0;
    assert s' == s[i := s'[i]];
    assert AllSettled(s') <==> s'[i].refunds == if s'[i].marked then 1 else 0;
  }

  ghost predicate NoTornFailure(w: World, es: seq<Event>)
    requires Inv(w) && IsRun(w, es)
    decreases |es|
  {
    es == [] || (!Torn(w, es[0]) && NoTornFailure(Step(w, es[0]), es[1..]))
  }

  lemma {:induction false} CleanRunStaysSettled(w: World, es: seq<Event>)
    requires Inv(w) && IsRun(w, es) && NoTornFailure(w, es) && AllSettled(w.attempts)
    ensures AllSettled(After(w, es).attempts)
    decreases |es|
  {
    if es != [] {
      NextKeepsInv(w, es[0]);
      OnlyTornFailuresUnsettle(w, es[0]);
      CleanRunStaysSettled(Next(w, es[0]), es[1..]);
    }
  }

  /** The charges not marked as refunded. */
  ghost function Unrefunded(s: seq<Attempt>): int {
    if s == [] then 0 else Unrefunded(s[..|s| - 1]) + if s[|s| - 1].marked then 0 else Sum(s[|s| - 1].info)
  }

  lemma {:induction false} SettledOwesUnrefunded(s: seq<Attempt>)
    requires AllSettled(s)
    ensures TotalOwed(s) == Unrefunded(s)
  {
    if s != [] {
      SettledOwesUnrefunded(s[..|s| - 1]);
    }
  }

  /** One transaction at a time for each user, and no torn failure: balance plus unrefunded charges is
      the opening balance, no attempt is paid back twice, and a task marked as refunded is FAILED. */
  lemma CleanRunConserves(t0: Table, es: seq<Event>)
    requires NonNegative(t0) && IsRun(Start(t0), es) && IsSerial(Start(t0), es) && NoTornFailure(Start(t0), es)
    ensures var w := After(Start(t0), es);
            && TotalCredits(w.table) + Unrefunded(w.attempts) == TotalCredits(t0)
            && (forall i :: 0 <= i < |w.attempts| ==> w.attempts[i].refunds <= 1)
            && (forall id :: id in w.tasks && w.tasks[id].isRefunded ==> w.tasks[id].status == Failed)
  {
    LedgerIsExact(t0, es);
    CleanRunStaysSettled(Start(t0), es);
    var w := After(Start(t0), es);
    SettledOwesUnrefunded(w.attempts);
    forall id | id in w.tasks && w.tasks[id].isRefunded ensures w.tasks[id].status == Failed {
      assert TaskInv(w, id);
    }
  }

  /** Rows, balance and marks are all right after a step exactly when its rows were fresh and it was
      no torn failure. */
  lemma ConservedIff(t0: Table, w: World, e: Event)
    requires Inv(w) && Enabled(w, e) && Accounted(t0, w) && AllSettled(w.attempts)
    ensures Accounted(t0, Next(w, e)) && AllSettled(Next(w, e).attempts) <==> Fresh(w, e) && !Torn(w, e)
  {
    AccountedIffFresh(t0, w, e);
    OnlyTornFailuresUnsettle(w, e);
  }

  lemma {:induction false} UnrefundedAfterRefundCount(s: seq<Attempt>, i: nat, a: Attempt)
    requires i < |s| && a.info == s[i].info && a.marked == s[i].marked
    ensures Unrefunded(s[i := a]) == Unrefunded(s)
  {
    var n := |s| - 1;
    if i == n {
      assert s[i := a][..n] == s[..n];
    } else {
      assert s[i := a][..n] == s[..n][i := a];
      UnrefundedAfterRefundCount(s[..n], i, a);
    }
  }

  /** On fresh rows a step keeps balance plus unrefunded charges exactly when it is no torn failure. */
  lemma ConservedIffNotTorn(t0: Table, w: World, e: Event)
    requires Inv(w) && Enabled(w, e) && Accounted(t0, w) && AllSettled(w.attempts) && Fresh(w, e)
    ensures TotalCredits(Next(w, e).table) + Unrefunded(Next(w, e).attempts) == TotalCredits(t0) <==> !Torn(w, e)
  {
    FreshKeepsAccounts(t0, w, e);
    OnlyTornFailuresUnsettle(w, e);
    SettledOwesUnrefunded(w.attempts);
    if Torn(w, e) {
      TornBalance(w, e);
    } else {
      SettledOwesUnrefunded(Next(w, e).attempts);
    }
  }

  lemma TornBalance(w: World, e: Event)
    requires Inv(w) && Enabled(w, e) && AllSettled(w.attempts) && Fresh(w, e) && Torn(w, e)
    ensures TotalCredits(Next(w, e).table) + Unrefunded(Next(w, e).attempts) >
              TotalCredits(w.table) + Unrefunded(w.attempts)
  {
    assert TaskInv(w, e.id);
    var i := w.tasks[e.id].attempt;
    FailStep(w, e);
    FailurePaysCost(w, e);
    assert !Next(w, e).attempts[i].marked && !w.attempts[i].marked;
    UnrefundedAfterRefundCount(w.attempts, i, Next(w, e).attempts[i]);
  }

  /** A failure that pays back on fresh rows adds exactly the stored cost to the balance. */
  lemma FailurePaysCost(w: World, e: Event)
    requires Inv(w) && Enabled(w, e) && e.Fail? && PaysBack(w, e) && Fresh(w, e)
    ensures TotalCredits(Next(w, e).table) == TotalCredits(w.table) + w.tasks[e.id].creditPoints
  {
    assert TaskInv(w, e.id);
    FailStep(w, e);
    FreshRepaid(w.table, ReadRows(w, e), Written(w, e));
    MoreTotal(w.table, Written(w, e));
  }

  /** What a failure pays on fresh rows: the stored cost, exactly when the task was not terminal, had a cost and no
      refund, and the refund takes effect; nothing otherwise. */
  lemma FailurePaysIff(w: World, e: Event)
    requires Inv(w) && Enabled(w, e) && e.Fail? && e.id in w.tasks && Fresh(w, e)
    ensures TotalCredits(Next(w, e).table) == TotalCredits(w.table) +
              if w.tasks[e.id].status != Completed && w.tasks[e.id].status != Failed &&
                 w.tasks[e.id].creditPoints > 0 && !w.tasks[e.id].isRefunded && e.refund != NotDone
              then w.tasks[e.id].creditPoints else 0
  {
    if PaysBack(w, e) {
      FailurePaysCost(w, e);
    } else {
      FailTable(w, e);
      RepaidNothing(w.table, ReadRows(w, e));
    }
  }

  /** And what it writes to the task: FAILED exactly when the save takes effect, then marked as refunded exactly when
      it was already or the refund was due and answered. */
  lemma FailureMarksIff(w: World, e: Event)
    requires Inv(w) && Enabled(w, e) && e.Fail? && e.id in w.tasks
    ensures var task := w.tasks[e.id];
            e.id in Next(w, e).tasks &&
            Next(w, e).tasks[e.id] ==
              if task.status == Completed || task.status == Failed || e.save == NotDone then task
              else task.(status := Failed,
                         isRefunded := task.isRefunded || (task.creditPoints > 0 && e.refund == Answered))
  {
    assert TaskInv(w, e.id);
    AfterFailTasks(w, e);
  }

  lemma AfterFailTasks(w: World, e: Event)
    requires e.Fail? && e.tx in w.open && e.id in w.tasks && w.tasks[e.id].attempt < |w.attempts|
    ensures AfterFail(w, e).tasks ==
              if Terminal(w.tasks[e.id].status) || !Done(e.save) then w.tasks
              else w.tasks[e.id := FailedTask(w.tasks[e.id], RefundDue(w, e) && e.refund.Answered?)]
  {
  }

  /** A submit on fresh rows that is committed takes exactly its price from the balance, and nothing for a
      waived image. */
  lemma FreshSubmitPays(w: World, e: Event)
    requires Inv(w) && Enabled(w, e) && e.Submit? && Fresh(w, e) && e.id in Next(w, e).tasks
    ensures TotalCredits(Next(w, e).table) == TotalCredits(w.table) -
              if e.isImage && (e.freeImages || e.isMember) then 0 else Max(0, e.price)
  {
    SubmitCharges(w, e);
    SubmitWrites(w, e);
    TableAfter(w, e);
    FreshSpent(w.table, ReadRows(w, e), Written(w, e));
    WrittenIsCharge(w, e);
    LessTotal(w.table, Written(w, e));
  }

  lemma SubmitWrites(w: World, e: Event)
    requires Inv(w) && Enabled(w, e) && e.Submit? && e.id in Next(w, e).tasks
    ensures |Next(w, e).attempts| == |w.attempts| + 1 && Next(w, e).attempts[|w.attempts|].info == Written(w, e)
  {
    SubmitCharges(w, e);
    ChargeStep(w, e);
  }

  /** The first kind of torn failure: the task could not be saved, and the next failure pays again. */
  lemma TornFailurePaysTwice(w: World, tx: nat, again: nat, id: string, refund: Reply)
    returns (torn: World, begun: World)
    requires Inv(w) && id in w.tasks && !Terminal(w.tasks[id].status) && Done(refund)
    requires w.tasks[id].creditPoints > 0 && !w.tasks[id].isRefunded
    requires tx in w.open && w.open[tx] == Open(w.tasks[id].user, w.table) && again !in w.open
    ensures Enabled(w, Fail(tx, id, refund, NotDone)) && torn == Next(w, Fail(tx, id, refund, NotDone)) && Inv(torn)
    ensures Enabled(torn, Begin(again, w.tasks[id].user)) && begun == Next(torn, Begin(again, w.tasks[id].user))
    ensures Inv(begun)
    ensures Enabled(begun, Fail(again, id, Answered, Answered))
    ensures TotalCredits(Next(begun, Fail(again, id, Answered, Answered)).table) ==
              TotalCredits(w.table) + 2 * w.tasks[id].creditPoints
  {
    torn := Unsaved(w, tx, id, refund);
    begun := BeginStep(torn, again, w.tasks[id].user);
    FailurePaysCost(begun, Fail(again, id, Answered, Answered));
  }

  lemma Unsaved(w: World, tx: nat, id: string, refund: Reply) returns (torn: World)
    requires Inv(w) && id in w.tasks && !Terminal(w.tasks[id].status) && Done(refund)
    requires w.tasks[id].creditPoints > 0 && !w.tasks[id].isRefunded
    requires tx in w.open && w.open[tx] == Open(w.tasks[id].user, w.table)
    ensures Enabled(w, Fail(tx, id, refund, NotDone)) && torn == Next(w, Fail(tx, id, refund, NotDone)) && Inv(torn)
    ensures torn.tasks == w.tasks && torn.open == w.open - {tx}
    ensures TotalCredits(torn.table) == TotalCredits(w.table) + w.tasks[id].creditPoints
  {
    NextKeepsInv(w, Fail(tx, id, refund, NotDone));
    FailurePaysCost(w, Fail(tx, id, refund, NotDone));
    torn := Next(w, Fail(tx, id, refund, NotDone));
  }

  /** The second kind: the refund's answer is lost and the task saved. It is paid back, not marked as
      such, and FAILED for good, so nothing ever records the refund. */
  lemma UnansweredRefundIsForgotten(w: World, tx: nat, id: string, save: Reply)
    requires Inv(w) && id in w.tasks && !Terminal(w.tasks[id].status) && Done(save)
    requires w.tasks[id].creditPoints > 0 && !w.tasks[id].isRefunded
    requires tx in w.open && w.open[tx] == Open(w.tasks[id].user, w.table)
    ensures var after := Next(w, Fail(tx, id, AnswerLost, save));
            && TotalCredits(after.table) == TotalCredits(w.table) + w.tasks[id].creditPoints
            && after.tasks[id].status == Failed && !after.tasks[id].isRefunded
  {
    FailurePaysCost(w, Fail(tx, id, AnswerLost, save));
  }
}
