/** What a submit and a retry cost, when they go through, and the attempt they append. */
module TaskCharges {
  import opened Basics
  import opened MapSum
  import opened Credits
  import opened TaskLifecycle

  /** A selection of rows can pay: nothing for a cost of zero or less, else the daily ones or the paid ones
      together, and for a member all but the daily ones. */
  ghost predicate CanPay(rows: Table, selected: seq<nat>, cost: int, isMember: bool) {
    || cost <= 0
    || (isMember && cost <= TotalOver(rows, OtherRows(rows, selected)))
    || (!isMember && cost <= TotalOver(rows, DailyRows(rows, selected)))
    || (!isMember && cost <= TotalOver(rows, PaidRows(rows, selected)))
  }

  lemma ChargeIff(rows: Table, selected: seq<nat>, cost: int, isMember: bool)
    requires Stored(rows, selected) && Distinct(selected) && NonNegative(rows)
    ensures Charge(rows, selected, cost, isMember).Some? <==> CanPay(rows, selected, cost, isMember)
    ensures Charge(rows, selected, cost, isMember).Some? ==>
              Sum(Record(Charge(rows, selected, cost, isMember).value)) == Max(0, cost)
  {
    ChargeIsSound(rows, selected, cost, isMember);
    if cost > 0 { DeductionChoosesRows(rows, selected, cost, isMember); }
  }

  /** The transaction creates or restarts the task with the attempt appended last. */
  ghost predicate ChargedFor(w: World, w': World, id: string, task: Task, cost: int) {
    && id in w'.tasks && w'.tasks == w.tasks[id := w'.tasks[id]]
    && w'.tasks[id].(deduction := None) == task.(deduction := None) && task.creditPoints == cost
    && |w'.attempts| == |w.attempts| + 1 && w'.attempts[..|w.attempts|] == w.attempts
    && w'.attempts[|w.attempts|].task == id && w'.attempts[|w.attempts|].refunds == 0
    && w'.attempts[|w.attempts|].info == Record(w'.tasks[id].deduction)
    && Sum(w'.attempts[|w.attempts|].info) == Max(0, cost)
  }

  lemma ChargingCharges(w: World, tx: nat, commit: Reply, id: string, charge: Option<Option<map<nat, int>>>, task: Task,
                        selected: seq<nat>, isMember: bool)
    requires tx in w.open && Stored(w.open[tx].rows, selected) && Distinct(selected) && NonNegative(w.open[tx].rows)
    requires charge == Charge(w.open[tx].rows, selected, task.creditPoints, isMember)
    ensures if Done(commit) && CanPay(w.open[tx].rows, selected, task.creditPoints, isMember)
            then ChargedFor(w, Charging(w, tx, commit, id, charge, task), id, task, task.creditPoints)
            else Charging(w, tx, commit, id, charge, task) == Close(w, tx)
  {
    ChargeIff(w.open[tx].rows, selected, task.creditPoints, isMember);
  }

  /** A submit costs its price, and nothing for an image when images are free for everybody or for members and
      the user is one. The task is created exactly when the commit takes effect and that can be paid; then
      it is PENDING, may be retried, and its first attempt's records add up to the cost. */
  lemma SubmitCharges(w: World, e: Event)
    requires Inv(w) && Enabled(w, e) && e.Submit?
    ensures var cost := if e.isImage && (e.freeImages || e.isMember) then 0 else e.price;
            if Done(e.commit) && CanPay(w.open[e.tx].rows, e.selected, cost, e.isMember)
            then ChargedFor(w, Next(w, e), e.id,
                            Task(e.project, e.user, Pending, cost, None, e.isImage, true, false, 0, |w.attempts|), cost)
            else Next(w, e) == Close(w, e.tx)
  {
    ChargingCharges(w, e.tx, e.commit, e.id, SubmitCharge(w, e), NewTask(w, e, SubmitCost(e)), e.selected, e.isMember);
  }

  /** A retry costs what is stored, and nothing for an image while images are free for everybody; that the user
      is a member makes no difference to the price. */
  lemma RetryCharges(w: World, e: Event)
    requires Inv(w) && Enabled(w, e) && e.Retry? && e.id in w.tasks
    ensures var task := w.tasks[e.id];
            var cost := if task.isImage && e.freeImages then 0 else task.creditPoints;
            if task.canRetry && task.status == Failed && Done(e.commit)
               && CanPay(w.open[e.tx].rows, e.selected, cost, e.isMember)
            then ChargedFor(w, Next(w, e), e.id,
                            task.(status := Pending, retryCount := task.retryCount + 1, creditPoints := cost,
                                  isRefunded := false, attempt := |w.attempts|), cost)
            else Next(w, e) == Close(w, e.tx)
  {
    if Retryable(w, e) {
      ChargingCharges(w, e.tx, e.commit, e.id, RetryCharge(w, e), RetriedTask(w, w.tasks[e.id], RetryCost(w, e)),
                      e.selected, e.isMember);
    }
  }
}
