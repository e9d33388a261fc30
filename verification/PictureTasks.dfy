/** The task service as an object: each call is one step of TaskLifecycle. */
module PictureTasks {
  import opened Basics
  import opened MapSum
  import opened Credits
  import opened TaskLifecycle
  import opened TaskLedger

  datatype CallError = TaskNotFound | CannotBeRetried | InsufficientCredits | DatabaseError

  class PictureTaskService {
    const credit: CreditService
    var tasks: map<string, Task>
    var attempts: seq<Attempt>   // history kept for the proofs; the source has no such table
    var open: map<nat, Open>     // transactions that have read and not yet committed
    var partner: map<string, string>
    var notices: set<string>

    constructor (credit: CreditService)
      requires credit.Valid()
      ensures this.credit == credit && Valid() && Books() == Start(credit.table)
    {
      this.credit, this.tasks, this.attempts, this.open := credit, map[], [], map[];
      this.partner, this.notices := map[], {};
    }

    ghost function Books(): World
      reads this, credit
    {
      World(credit.table, tasks, attempts, open, partner, notices)
    }

    ghost predicate Valid()
      reads this, credit
    {
      credit.Valid() && Inv(Books())
    }

    /** A transaction starts and reads its user's rows. */
    method BeginTransaction(tx: nat, user: string)
      requires Valid() && tx !in open
      modifies this`open
      ensures Valid() && Books() == Next(old(Books()), Begin(tx, user))
    {
      BeginKeepsInv(Books(), Begin(tx, user));
      open := open[tx := Open(user, credit.table)];
    }

    /** Undoes what the open transaction wrote to the credit tables. */
    method Rollback(table: Table, journal: seq<Change>)
      requires NonNegative(table) && Current(table, journal)
      modifies credit`table, credit`journal
      ensures credit.Valid() && credit.table == table && credit.journal == journal
    {
      credit.table, credit.journal := table, journal;
    }

    /** The charge inside a transaction; nothing is read or written for a cost of zero or less. */
    method Deduct(rows: Table, id: string, selected: seq<nat>, cost: int, isMember: bool)
      returns (charge: Option<Option<map<nat, int>>>)
      requires credit.Valid() && NonNegative(rows) && rows.Keys == credit.table.Keys
      requires Stored(rows, selected) && Distinct(selected)
      modifies credit`table, credit`journal
      ensures credit.Valid()
      ensures charge == Charge(rows, selected, cost, isMember)
      ensures charge.None? ==> credit.table == old(credit.table) && credit.journal == old(credit.journal)
      ensures charge.Some? ==> credit.table == Spent(old(credit.table), rows, Record(charge.value))
      ensures old(credit.Exact()) && (charge.Some? ==> FreshOn(rows, old(credit.table), Record(charge.value))) ==>
                credit.Exact()
    {
      if cost > 0 {
        var deductionInfo := credit.DeductCreditsWithTx(rows, selected, cost, isMember, id);
        charge := if deductionInfo.None? then None else Some(deductionInfo);
      } else {
        SpentNothing(credit.table, rows);
        charge := Some(None);
      }
    }

    /** Charges the task's cost, writes the task with its record, and commits. */
    method ChargeAndSave(tx: nat, id: string, task: Task, selected: seq<nat>, isMember: bool, commit: Reply)
      returns (r: Option<CallError>)
      requires credit.Valid() && tx in open && NonNegative(open[tx].rows) && open[tx].rows.Keys == credit.table.Keys
      requires Stored(open[tx].rows, selected) && Distinct(selected)
      modifies this, credit`table, credit`journal
      ensures credit.Valid()
      ensures var charge := Charge(old(open)[tx].rows, selected, task.creditPoints, isMember);
              && Books() == Charging(old(Books()), tx, commit, id, charge, task)
              && (r == Some(InsufficientCredits) <==> charge.None?)
              && (charge.Some? ==> r == if commit.Answered? then None else Some(DatabaseError))
              && (charge.None? || !Done(commit) ==> credit.journal == old(credit.journal))
              && (old(credit.Exact()) && FreshOn(old(open)[tx].rows, old(credit.table), Taken(charge, commit)) ==>
                  credit.Exact())
    {
      var rows := open[tx].rows;
      open := open - {tx};
      var table, journal := credit.table, credit.journal;
      var charge := Deduct(rows, id, selected, task.creditPoints, isMember);
      if charge.None? {
        return Some(InsufficientCredits);
      }
      if commit.NotDone? {
        Rollback(table, journal);
        return Some(DatabaseError);
      }
      tasks := tasks[id := task.(deduction := charge.value)];
      attempts := attempts + [Attempt(id, Record(charge.value), false, 0)];
      r := if commit.Answered? then None else Some(DatabaseError);
    }

    /** One transaction: charge, then create the task. */
    method SubmitTask(tx: nat, id: string, project: string, user: string, price: int, isImage: bool, selected: seq<nat>,
                      ghost now: int, isMember: bool, freeImages: bool, commit: Reply)
      returns (r: Option<CallError>)
      requires Valid()
      requires Enabled(Books(), Submit(tx, id, project, user, price, isImage, selected, now, isMember, freeImages,
                                       commit))
      modifies this, credit`table, credit`journal
      ensures Valid()
      ensures Books() ==
                Next(old(Books()), Submit(tx, id, project, user, price, isImage, selected, now, isMember, freeImages,
                                          commit))
      ensures r.Some? && !(r == Some(DatabaseError) && commit.AnswerLost?) ==>
                Books() == Close(old(Books()), tx) && credit.journal == old(credit.journal)
      ensures r.None? ==> id in tasks
    {
      ghost var e := Submit(tx, id, project, user, price, isImage, selected, now, isMember, freeImages, commit);
      SubmitKeepsInv(Books(), e);
      var creditPoints := ImageGenerationCost(price, isImage, isMember, freeImages);
      var task := Task(project, user, Pending, creditPoints, None, isImage, true, false, 0, |attempts|);
      r := ChargeAndSave(tx, id, task, selected, isMember, commit);
    }

    /** The refund inside FailTask, in its own transaction; told says whether it answered. */
    method PayBack(tx: nat, task: Task, id: string, refund: Reply) returns (told: bool)
      requires credit.Valid() && tx in open && NonNegative(open[tx].rows) && open[tx].rows.Keys == credit.table.Keys
      requires task.creditPoints > 0 ==>
                 task.deduction.Some? && forall k :: k in task.deduction.value ==> task.deduction.value[k] > 0
      modifies credit`table, credit`journal
      ensures credit.Valid()
      ensures told <==> task.creditPoints > 0 && !task.isRefunded && refund.Answered?
      ensures credit.table == if task.creditPoints > 0 && !task.isRefunded && Done(refund)
                              then Repaid(old(credit.table), open[tx].rows, Record(task.deduction))
                              else old(credit.table)
    {
      told := false;
      if task.creditPoints > 0 && !task.isRefunded {
        if !refund.NotDone? {
          credit.RefundCredits(open[tx].rows, task.deduction, id);
        }
        told := refund.Answered?;
      }
    }

    /** A chain of two tasks that were just created. */
    method CreateChainWithAllTasks(firstTaskID: string, secondTaskID: string)
      requires Valid() && Enabled(Books(), Link(firstTaskID, secondTaskID))
      modifies this`partner
      ensures Valid() && Books() == Next(old(Books()), Link(firstTaskID, secondTaskID))
    {
      ChainsKeepInv(Books(), partner[firstTaskID := secondTaskID][secondTaskID := firstTaskID], notices);
      partner := partner[firstTaskID := secondTaskID][secondTaskID := firstTaskID];
    }

    /** The chain service reaches one of the tasks it has a notice for. */
    method NotifyChainFailure(id: string)
      requires Valid() && id in notices
      modifies this`tasks, this`notices
      ensures Valid() && Books() == Next(old(Books()), Notify(id))
      ensures id in tasks ==> tasks[id].status == Failed
    {
      NotifyKeepsInv(Books(), Notify(id));
      notices := notices - {id};
      if id in tasks && tasks[id].status != Failed {
        tasks := tasks[id := tasks[id].(status := Failed)];
      }
    }

    /** Both tasks of a chain get a notice of its failure. */
    method HandleChainTaskFailure(id: string)
      modifies this`notices
      ensures notices == old(NoticesAfter(Books(), id))
    {
      if id in partner {
        notices := notices + {id, partner[id]};
      }
    }

    /** The rest of FailTask once the locked row is known not to be terminal. */
    method FailRunning(tx: nat, id: string, refund: Reply, save: Reply) returns (r: Option<CallError>)
      requires credit.Valid() && id in tasks && tasks[id].attempt < |attempts| && !Terminal(tasks[id].status)
      requires tx in open && NonNegative(open[tx].rows) && open[tx].rows.Keys == credit.table.Keys
      requires tasks[id].creditPoints > 0 ==>
                 tasks[id].deduction.Some? &&
                 forall k :: k in tasks[id].deduction.value ==> tasks[id].deduction.value[k] > 0
      modifies this, credit`table, credit`journal
      ensures credit.Valid()
      ensures Books() == AfterFail(old(Books()), Fail(tx, id, refund, save))
      ensures r == if save.Answered? then None else Some(DatabaseError)
    {
      var latestTask := tasks[id];
      var told := PayBack(tx, latestTask, id, refund);
      open := open - {tx};
      var paid := latestTask.creditPoints > 0 && !latestTask.isRefunded && Done(refund);
      var refunded := latestTask.isRefunded || told;
      if !save.NotDone? {
        tasks := tasks[id := latestTask.(status := Failed, isRefunded := refunded)];
      }
      var i := latestTask.attempt;
      attempts := attempts[i := FailedAttempt(attempts[i], latestTask, paid, told, !save.NotDone?)];
      if save.Answered? {
        HandleChainTaskFailure(id);
      }
      r := if save.Answered? then None else Some(DatabaseError);
    }

    method FailTask(tx: nat, id: string, refund: Reply, save: Reply) returns (r: Option<CallError>)
      requires Valid() && Enabled(Books(), Fail(tx, id, refund, save))
      modifies this, credit`table, credit`journal
      ensures Valid()
      ensures Books() == Next(old(Books()), Fail(tx, id, refund, save))
      ensures r == Some(TaskNotFound) <==> id !in tasks
      ensures r.None? ==> tasks[id].status in {Completed, Failed}
    {
      ghost var e := Fail(tx, id, refund, save);
      assert id in tasks ==> TaskInv(Books(), id);
      FailKeepsInv(Books(), e);
      if id !in tasks {
        open := open - {tx};
        return Some(TaskNotFound);
      }
      var latestTask := tasks[id];
      if latestTask.status == Completed || latestTask.status == Failed {
        open := open - {tx};
        return None;
      }
      r := FailRunning(tx, id, refund, save);
    }

    /** The retry once it is known to be allowed. */
    method ChargeAgain(tx: nat, id: string, selected: seq<nat>, isMember: bool, freeImages: bool, commit: Reply)
      returns (r: Option<CallError>)
      requires credit.Valid() && tx in open && NonNegative(open[tx].rows) && open[tx].rows.Keys == credit.table.Keys
      requires Stored(open[tx].rows, selected) && Distinct(selected)
      requires id in tasks && tasks[id].canRetry && tasks[id].status == Failed
      modifies this, credit`table, credit`journal
      ensures credit.Valid()
      ensures var w, e := old(Books()), Retry(tx, id, selected, 0, isMember, freeImages, commit);
              && Books() == Charging(w, tx, commit, id, RetryCharge(w, e), RetriedTask(w, w.tasks[id], RetryCost(w, e)))
              && (RetryCharge(w, e).None? ==> r == Some(InsufficientCredits))
              && (RetryCharge(w, e).Some? ==> r == if commit.Answered? then None else Some(DatabaseError))
              && (RetryCharge(w, e).None? || !Done(commit) ==> credit.journal == old(credit.journal))
    {
      var task := tasks[id];
      var creditCost := ImageGenerationCost(task.creditPoints, task.isImage, false, freeImages);
      var retried := task.(status := Pending, retryCount := task.retryCount + 1, creditPoints := creditCost,
                           isRefunded := false, attempt := |attempts|);
      r := ChargeAndSave(tx, id, retried, selected, isMember, commit);
    }

    method RetryFailedTask(tx: nat, id: string, selected: seq<nat>, ghost now: int, isMember: bool, freeImages: bool,
                           commit: Reply)
      returns (r: Option<CallError>)
      requires Valid() && Enabled(Books(), Retry(tx, id, selected, now, isMember, freeImages, commit))
      modifies this, credit`table, credit`journal
      ensures Valid()
      ensures Books() == Next(old(Books()), Retry(tx, id, selected, now, isMember, freeImages, commit))
      ensures r.Some? && !(r == Some(DatabaseError) && commit.AnswerLost?) ==>
                Books() == Close(old(Books()), tx) && credit.journal == old(credit.journal)
      ensures r.None? ==>
                id in tasks && tasks[id].status == Pending && tasks[id].retryCount == old(tasks)[id].retryCount + 1
      ensures r == Some(CannotBeRetried) <==>
                id in old(tasks) && (!old(tasks)[id].canRetry || old(tasks)[id].status != Failed)
    {
      RetryKeepsInv(Books(), Retry(tx, id, selected, now, isMember, freeImages, commit));
      if id !in tasks {
        open := open - {tx};
        return Some(TaskNotFound);
      }
      var task := tasks[id];
      if !task.canRetry {
        open := open - {tx};
        return Some(CannotBeRetried);
      }
      if task.status != Failed {
        open := open - {tx};
        return Some(CannotBeRetried);
      }
      r := ChargeAgain(tx, id, selected, isMember, freeImages, commit);
    }
  }
}
