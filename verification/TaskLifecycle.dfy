/** Credit-bearing picture tasks: submit, progress, failure with refund, retry with a new charge. A
    transaction first reads rows without locking them and later saves them whole, so transactions
    overlap: Begin is the read, and the step that names the transaction is its commit. */
module TaskLifecycle {
  import opened Basics
  import opened MapSum
  import opened Credits

  datatype Status =
    | Pending | Processing | PendingSubmissionRetry | AwaitingProvider | PendingChain | Completed | Failed

  datatype Task = Task(
    project: string,
    user: string,
    status: Status,
    creditPoints: int,
    deduction: Option<map<nat, int>>,   // CreditDeductionInfo; None is the empty string
    isImage: bool,
    canRetry: bool,
    isRefunded: bool,
    retryCount: nat,
    attempt: nat)                       // position of the running attempt in the history

  /** One charge made for a task, and how often it has been paid back. */
  datatype Attempt = Attempt(task: string, info: map<nat, int>, marked: bool, refunds: nat)

  /** A transaction in progress: for whom, and the rows as it read them. */
  datatype Open = Open(user: string, rows: Table)

  datatype World = World(
    table: Table,
    tasks: map<string, Task>,
    attempts: seq<Attempt>,
    open: map<nat, Open>,
    partner: map<string, string>,       // the other task of a two-step chain
    notices: set<string>)               // tasks the chain service has yet to mark after a failure

  /** freeImages is the global switch, memberFree the member's waiver. */
  function ImageGenerationCost(amount: int, isImage: bool, memberFree: bool, freeImages: bool): int {
    if isImage && (freeImages || memberFree) then 0 else amount
  }

  predicate Terminal(s: Status) {
    s == Completed || s == Failed
  }

  function Record(d: Option<map<nat, int>>): map<nat, int> {
    if d.Some? then d.value else map[]
  }

  /** A charge inside the transaction: nothing is deducted for a cost of zero or less. */
  function Charge(t: Table, selected: seq<nat>, cost: int, isMember: bool): Option<Option<map<nat, int>>>
    requires Stored(t, selected)
  {
    if cost <= 0 then Some(None)
    else match Deduction(t, selected, cost, isMember)
      case None => None
      case Some(info) => Some(Some(info))
  }

  /** What a caller learns of a commit: that it is done, that it is not, or an error although it is. */
  datatype Reply = Answered | NotDone | AnswerLost

  predicate Done(r: Reply) { !r.NotDone? }

  datatype Event =
    | Begin(tx: nat, user: string)
    | Submit(tx: nat, id: string, project: string, user: string, price: int, isImage: bool,
             selected: seq<nat>, now: int, isMember: bool, freeImages: bool, commit: Reply)
    | Link(id: string, next: string)
    | Progress(id: string, to: Status)
    | Notify(id: string)
    | Fail(tx: nat, id: string, refund: Reply, save: Reply)
    | Retry(tx: nat, id: string, selected: seq<nat>, now: int, isMember: bool, freeImages: bool, commit: Reply)

  predicate Commits(e: Event) {
    e.Submit? || e.Fail? || e.Retry?
  }

  /** Task ids are fresh; a transaction works for the task's user, on what its query returned. */
  ghost predicate Enabled(w: World, e: Event) {
    && (Commits(e) ==> e.tx in w.open)
    && match e
       case Begin(tx, _) => tx !in w.open
       case Submit(tx, id, project, user, _, _, selected, now, _, _, _) =>
         id !in w.tasks && w.open[tx].user == user && IsQueryResult(w.open[tx].rows, project, user, now, selected)
       case Fail(tx, id, _, _) => id in w.tasks ==> w.open[tx].user == w.tasks[id].user
       case Retry(tx, id, selected, now, _, _, _) =>
         id in w.tasks ==>
           && w.open[tx].user == w.tasks[id].user
           && IsQueryResult(w.open[tx].rows, w.tasks[id].project, w.tasks[id].user, now, selected)
       case Link(id, next) =>
         id in w.tasks && next in w.tasks && id != next && id !in w.partner && next !in w.partner
       case Notify(id) => id in w.notices
       case _ => true
  }

  function Close(w: World, tx: nat): World {
    w.(open := w.open - {tx})
  }

  /** A committed charge: rows saved, task written, attempt appended. */
  function Charged(w: World, rows: Table, id: string, task: Task): World {
    w.(table := Spent(w.table, rows, Record(task.deduction)), tasks := w.tasks[id := task],
       attempts := w.attempts + [Attempt(id, Record(task.deduction), false, 0)])
  }

  /** The record of the charge is filled in when it is known. */
  function NewTask(w: World, e: Event, cost: int): Task
    requires e.Submit?
  {
    Task(e.project, e.user, Pending, cost, None, e.isImage, true, false, 0, |w.attempts|)
  }

  function RetriedTask(w: World, task: Task, cost: int): Task {
    task.(status := Pending, retryCount := task.retryCount + 1, creditPoints := cost, isRefunded := false,
          attempt := |w.attempts|)
  }

  function SubmitCharge(w: World, e: Event): Option<Option<map<nat, int>>>
    requires e.Submit? && e.tx in w.open && Stored(w.open[e.tx].rows, e.selected)
  {
    Charge(w.open[e.tx].rows, e.selected, SubmitCost(e), e.isMember)
  }

  function SubmitCost(e: Event): int
    requires e.Submit?
  {
    ImageGenerationCost(e.price, e.isImage, e.isMember, e.freeImages)
  }

  /** What a charge takes once it is committed. */
  function Taken(charge: Option<Option<map<nat, int>>>, commit: Reply): map<nat, int> {
    if charge.Some? && Done(commit) then Record(charge.value) else map[]
  }

  /** The end of a transaction that charges: the task is written with the record of the charge. */
  function Charging(w: World, tx: nat, commit: Reply, id: string, charge: Option<Option<map<nat, int>>>,
                    task: Task): World
    requires tx in w.open
  {
    if charge.None? || !Done(commit) then Close(w, tx)
    else Charged(Close(w, tx), w.open[tx].rows, id, task.(deduction := charge.value))
  }

  function AfterSubmit(w: World, e: Event): World
    requires e.Submit? && e.tx in w.open && Stored(w.open[e.tx].rows, e.selected)
  {
    Charging(w, e.tx, e.commit, e.id, SubmitCharge(w, e), NewTask(w, e, SubmitCost(e)))
  }

  /** Scheduler and executors move a task that is not terminal; some save FAILED themselves, without the
      refund. */
  function AfterProgress(w: World, e: Event): World
    requires e.Progress?
  {
    if e.id !in w.tasks || Terminal(w.tasks[e.id].status) then w
    else w.(tasks := w.tasks[e.id := w.tasks[e.id].(status := e.to)])
  }

  /** A chain of two tasks that exist. */
  function AfterLink(w: World, e: Event): World
    requires e.Link?
  {
    w.(partner := w.partner[e.id := e.next][e.next := e.id])
  }

  /** Once a failure is committed and told, the chain service goes through both tasks of the chain. */
  function NoticesAfter(w: World, id: string): set<string> {
    if id in w.partner then w.notices + {id, w.partner[id]} else w.notices
  }

  /** It marks every one that is not FAILED, whatever its status. */
  function AfterNotify(w: World, e: Event): World
    requires e.Notify?
  {
    if e.id !in w.tasks || w.tasks[e.id].status == Failed then w.(notices := w.notices - {e.id})
    else w.(tasks := w.tasks[e.id := w.tasks[e.id].(status := Failed)], notices := w.notices - {e.id})
  }

  /** FailTask asks for a refund. */
  predicate RefundDue(w: World, e: Event)
    requires e.Fail?
  {
    && e.id in w.tasks && !Terminal(w.tasks[e.id].status)
    && w.tasks[e.id].creditPoints > 0 && !w.tasks[e.id].isRefunded
  }

  /** The refund takes effect, whatever FailTask is told. */
  predicate PaysBack(w: World, e: Event)
    requires e.Fail?
  {
    RefundDue(w, e) && Done(e.refund)
  }

  /** The refund runs in its own transaction: it stays even when saving the task fails. */
  function AfterFail(w: World, e: Event): World
    requires e.Fail? && e.tx in w.open && (e.id in w.tasks ==> w.tasks[e.id].attempt < |w.attempts|)
  {
    if e.id !in w.tasks || Terminal(w.tasks[e.id].status) then Close(w, e.tx)
    else
      var task := w.tasks[e.id];
      var told := RefundDue(w, e) && e.refund.Answered?;
      Close(w, e.tx).(
        table := if PaysBack(w, e) then Repaid(w.table, w.open[e.tx].rows, Record(task.deduction)) else w.table,
        tasks := if Done(e.save) then w.tasks[e.id := FailedTask(task, told)] else w.tasks,
        attempts := w.attempts[task.attempt := FailedAttempt(w.attempts[task.attempt], task, PaysBack(w, e), told,
                                                             Done(e.save))],
        notices := if e.save.Answered? then NoticesAfter(w, e.id) else w.notices)
  }

  function FailedTask(task: Task, told: bool): Task {
    task.(status := Failed, isRefunded := task.isRefunded || told)
  }

  function FailedAttempt(a: Attempt, task: Task, paid: bool, told: bool, saved: bool): Attempt {
    a.(refunds := if paid then a.refunds + 1 else a.refunds,
       marked := if saved then task.isRefunded || told else a.marked)
  }

  predicate Retryable(w: World, e: Event)
    requires e.Retry?
  {
    e.id in w.tasks && w.tasks[e.id].canRetry && w.tasks[e.id].status == Failed
  }

  function RetryCost(w: World, e: Event): int
    requires e.Retry? && e.id in w.tasks
  {
    ImageGenerationCost(w.tasks[e.id].creditPoints, w.tasks[e.id].isImage, false, e.freeImages)
  }

  function RetryCharge(w: World, e: Event): Option<Option<map<nat, int>>>
    requires e.Retry? && e.tx in w.open && e.id in w.tasks && Stored(w.open[e.tx].rows, e.selected)
  {
    Charge(w.open[e.tx].rows, e.selected, RetryCost(w, e), e.isMember)
  }

  function AfterRetry(w: World, e: Event): World
    requires e.Retry? && e.tx in w.open && (e.id in w.tasks ==> Stored(w.open[e.tx].rows, e.selected))
  {
    if !Retryable(w, e) then Close(w, e.tx)
    else
      Charging(w, e.tx, e.commit, e.id, RetryCharge(w, e), RetriedTask(w, w.tasks[e.id], RetryCost(w, e)))
  }

  // ----- the invariant -----

  ghost predicate Inv(w: World) {
    && NonNegative(w.table)
    && (forall id :: id in w.tasks ==> TaskInv(w, id))
    && (forall i :: 0 <= i < |w.attempts| ==> IsCharge(w.table, w.attempts[i].info))
    && (forall tx :: tx in w.open ==> NonNegative(w.open[tx].rows) && SameRows(w.open[tx].rows, w.table))
  }

  ghost predicate IsCharge(t: Table, info: map<nat, int>) {
    info.Keys <= t.Keys && forall k :: k in info ==> info[k] > 0
  }

  /** The stored record of a task is its running attempt, adds up to the stored cost, and names rows of
      the task's user. */
  ghost predicate TaskInv(w: World, id: string)
    requires id in w.tasks
  {
    var task := w.tasks[id];
    && task.attempt < |w.attempts|
    && w.attempts[task.attempt].task == id
    && w.attempts[task.attempt].info == Record(task.deduction)
    && w.attempts[task.attempt].marked == task.isRefunded
    && RecordFits(w.table, task)
    && (task.isRefunded ==> task.status == Failed)
  }

  ghost predicate RecordFits(t: Table, task: Task) {
    && (task.creditPoints > 0 ==> task.deduction.Some?)
    && Sum(Record(task.deduction)) == (if task.creditPoints > 0 then task.creditPoints else 0)
    && IsCharge(t, Record(task.deduction))
    && Owns(t, task.user, Record(task.deduction))
  }

  predicate Owns(t: Table, user: string, info: map<nat, int>) {
    forall k :: k in info && k in t ==> t[k].user == user
  }

  ghost function Next(w: World, e: Event): World
    requires Inv(w) && Enabled(w, e)
  {
    match e
    case Begin(tx, user) => w.(open := w.open[tx := Open(user, w.table)])
    case Submit(_, _, _, _, _, _, _, _, _, _, _) => AfterSubmit(w, e)
    case Link(_, _) => AfterLink(w, e)
    case Progress(_, _) => AfterProgress(w, e)
    case Notify(_) => AfterNotify(w, e)
    case Fail(_, _, _, _) => assert e.id in w.tasks ==> TaskInv(w, e.id); AfterFail(w, e)
    case Retry(_, _, _, _, _, _, _) => AfterRetry(w, e)
  }

  function Start(t: Table): World {
    World(t, map[], [], map[], map[], {})
  }

  lemma ChargeIsSound(t: Table, selected: seq<nat>, cost: int, isMember: bool)
    requires Stored(t, selected) && Distinct(selected) && NonNegative(t)
    ensures var c := Charge(t, selected, cost, isMember);
            c.Some? ==>
              && c.value.Some? == (cost > 0)
              && Sum(Record(c.value)) == (if cost > 0 then cost else 0)
              && (forall k :: k in Record(c.value) ==>
                  k in selected && k in t && 0 < Record(c.value)[k] <= t[k].remaining)
  {
    if cost > 0 {
      DeductionIsSound(t, selected, cost, isMember);
    }
  }

  /** What the query returned belongs to the user, so a charge on it fits the task. */
  lemma ChargeFits(t: Table, rows: Table, selected: seq<nat>, project: string, user: string, now: int,
                   cost: int, isMember: bool, task: Task)
    requires SameRows(rows, t) && NonNegative(rows) && IsQueryResult(rows, project, user, now, selected)
    requires task.user == user && task.creditPoints == cost
    requires Charge(rows, selected, cost, isMember) == Some(task.deduction)
    ensures RecordFits(t, task)
    ensures forall k :: k in Record(task.deduction) ==> Record(task.deduction)[k] <= rows[k].remaining
  {
    ChargeIsSound(rows, selected, cost, isMember);
    forall k | k in Record(task.deduction) ensures t[k].user == user { assert SameRow(rows[k], t[k]); }
  }

  lemma SpentKeepsRows(t: Table, rows: Table, info: map<nat, int>)
    requires SameRows(rows, t) && NonNegative(t)
    requires forall k :: k in info && k in rows ==> info[k] <= rows[k].remaining
    ensures NonNegative(Spent(t, rows, info)) && SameRows(Spent(t, rows, info), t)
  {
  }

  lemma RepaidKeepsRows(t: Table, rows: Table, info: map<nat, int>)
    requires SameRows(rows, t) && NonNegative(t) && NonNegative(rows) && forall k :: k in info ==> info[k] >= 0
    ensures NonNegative(Repaid(t, rows, info)) && SameRows(Repaid(t, rows, info), t)
  {
  }

  lemma SameRowsKeepFit(t: Table, t': Table, task: Task)
    requires SameRows(t', t) && RecordFits(t, task)
    ensures RecordFits(t', task)
  {
    forall k | k in Record(task.deduction) ensures t'[k].user == task.user { assert SameRow(t'[k], t[k]); }
  }

  /** Changing only what rows hold, and closing transactions, keeps the invariant. */
  lemma TableKeepsInv(w: World, t: Table, open: map<nat, Open>)
    requires Inv(w) && NonNegative(t) && SameRows(t, w.table)
    requires forall tx :: tx in open ==> tx in w.open && open[tx] == w.open[tx]
    ensures Inv(w.(table := t, open := open))
  {
    var w' := w.(table := t, open := open);
    forall id | id in w'.tasks ensures TaskInv(w', id) {
      assert TaskInv(w, id);
      SameRowsKeepFit(w.table, t, w.tasks[id]);
    }
    forall tx | tx in open ensures SameRows(open[tx].rows, t) {
      forall id | id in t ensures SameRow(open[tx].rows[id], t[id]) { assert SameRow(t[id], w.table[id]); }
    }
  }

  lemma CloseKeepsInv(w: World, tx: nat)
    requires Inv(w)
    ensures Inv(Close(w, tx))
  {
    TableKeepsInv(w, w.table, w.open - {tx});
  }

  /** A task written together with its new attempt. */
  lemma NewAttemptKeepsInv(w: World, id: string, task: Task)
    requires Inv(w) && RecordFits(w.table, task)
    requires task.attempt == |w.attempts| && !task.isRefunded
    ensures Inv(w.(tasks := w.tasks[id := task],
                   attempts := w.attempts + [Attempt(id, Record(task.deduction), false, 0)]))
  {
    var w' := w.(tasks := w.tasks[id := task],
                 attempts := w.attempts + [Attempt(id, Record(task.deduction), false, 0)]);
    forall k | k in w'.tasks ensures TaskInv(w', k) {
      if k != id {
        assert TaskInv(w, k);
      }
    }
  }

  lemma ChargedKeepsInv(w: World, tx: nat, id: string, task: Task)
    requires Inv(w) && tx in w.open && RecordFits(w.table, task)
    requires task.attempt == |w.attempts| && !task.isRefunded
    requires forall k :: k in Record(task.deduction) ==>
               k in w.open[tx].rows && Record(task.deduction)[k] <= w.open[tx].rows[k].remaining
    ensures Inv(Charged(Close(w, tx), w.open[tx].rows, id, task))
  {
    var rows, info := w.open[tx].rows, Record(task.deduction);
    SpentKeepsRows(w.table, rows, info);
    var t := Spent(w.table, rows, info);
    TableKeepsInv(w, t, w.open - {tx});
    SameRowsKeepFit(w.table, t, task);
    NewAttemptKeepsInv(w.(table := t, open := w.open - {tx}), id, task);
  }

  lemma ChargingShape(w: World, tx: nat, commit: Reply, id: string, charge: Option<Option<map<nat, int>>>, task: Task)
    requires tx in w.open
    ensures var tasks := Charging(w, tx, commit, id, charge, task).tasks;
            if charge.Some? && Done(commit) then tasks == w.tasks[id := task.(deduction := charge.value)]
            else tasks == w.tasks
    ensures Charging(w, tx, commit, id, charge, task).open == w.open - {tx}
    ensures Charging(w, tx, commit, id, charge, task).notices == w.notices
  {
  }

  /** The task row and its attempt after a failure, on a table that is already right. */
  lemma FailedKeepsInv(w: World, id: string, paid: bool, told: bool, saved: bool, notices: set<string>)
    requires Inv(w) && id in w.tasks && w.tasks[id].attempt < |w.attempts|
    ensures var task := w.tasks[id];
            Inv(w.(tasks := if saved then w.tasks[id := FailedTask(task, told)] else w.tasks,
                   attempts := w.attempts[task.attempt := FailedAttempt(w.attempts[task.attempt], task, paid, told,
                                                                        saved)],
                   notices := notices))
  {
    var task := w.tasks[id];
    var w' := w.(tasks := if saved then w.tasks[id := FailedTask(task, told)] else w.tasks,
                 attempts := w.attempts[task.attempt := FailedAttempt(w.attempts[task.attempt], task, paid, told,
                                                                      saved)],
                 notices := notices);
    assert TaskInv(w, id);
    forall k | k in w'.tasks ensures TaskInv(w', k) {
      assert TaskInv(w, k);
    }
  }

  lemma StatusKeepsInv(w: World, id: string, to: Status)
    requires Inv(w) && id in w.tasks && (w.tasks[id].isRefunded ==> to == Failed)
    ensures Inv(w.(tasks := w.tasks[id := w.tasks[id].(status := to)]))
  {
    var w' := w.(tasks := w.tasks[id := w.tasks[id].(status := to)]);
    forall k | k in w'.tasks ensures TaskInv(w', k) {
      assert TaskInv(w, k);
      assert RecordFits(w.table, w.tasks[k]);
    }
  }

  lemma ChainsKeepInv(w: World, partner: map<string, string>, notices: set<string>)
    requires Inv(w)
    ensures Inv(w.(partner := partner, notices := notices))
  {
    var w' := w.(partner := partner, notices := notices);
    forall k | k in w'.tasks ensures TaskInv(w', k) {
      assert TaskInv(w, k);
    }
  }

  lemma NotifyKeepsInv(w: World, e: Event)
    requires Inv(w) && e.Notify?
    ensures Inv(AfterNotify(w, e))
  {
    ChainsKeepInv(w, w.partner, w.notices - {e.id});
    if e.id in w.tasks { StatusKeepsInv(w.(notices := w.notices - {e.id}), e.id, Failed); }
  }

  lemma BeginKeepsInv(w: World, e: Event)
    requires Inv(w) && Enabled(w, e) && e.Begin?
    ensures Inv(Next(w, e))
  {
    var w' := Next(w, e);
    forall k | k in w'.tasks ensures TaskInv(w', k) { assert TaskInv(w, k); }
  }

  /** A charge of a task's cost on what the query returned for its user. */
  ghost predicate ChargesFor(rows: Table, selected: seq<nat>, now: int, isMember: bool,
                             charge: Option<Option<map<nat, int>>>, project: string, task: Task) {
    && IsQueryResult(rows, project, task.user, now, selected)
    && charge == Charge(rows, selected, task.creditPoints, isMember)
  }

  lemma ChargingKeepsInv(w: World, tx: nat, commit: Reply, id: string, charge: Option<Option<map<nat, int>>>,
                         task: Task, selected: seq<nat>, now: int, isMember: bool, project: string)
    requires Inv(w) && tx in w.open && ChargesFor(w.open[tx].rows, selected, now, isMember, charge, project, task)
    requires task.attempt == |w.attempts| && !task.isRefunded
    ensures Inv(Charging(w, tx, commit, id, charge, task))
  {
    CloseKeepsInv(w, tx);
    if charge.Some? {
      ChargeFits(w.table, w.open[tx].rows, selected, project, task.user, now, task.creditPoints, isMember,
                 task.(deduction := charge.value));
      ChargedKeepsInv(w, tx, id, task.(deduction := charge.value));
    }
  }

  lemma SubmitKeepsInv(w: World, e: Event)
    requires Inv(w) && Enabled(w, e) && e.Submit?
    ensures Inv(AfterSubmit(w, e))
  {
    ChargingKeepsInv(w, e.tx, e.commit, e.id, SubmitCharge(w, e), NewTask(w, e, SubmitCost(e)), e.selected, e.now,
                     e.isMember, e.project);
  }

  lemma RetryKeepsInv(w: World, e: Event)
    requires Inv(w) && Enabled(w, e) && e.Retry?
    ensures Inv(AfterRetry(w, e))
  {
    if Retryable(w, e) {
      ChargingKeepsInv(w, e.tx, e.commit, e.id, RetryCharge(w, e), RetriedTask(w, w.tasks[e.id], RetryCost(w, e)),
                       e.selected, e.now, e.isMember, w.tasks[e.id].project);
    } else {
      CloseKeepsInv(w, e.tx);
    }
  }

  lemma FailKeepsInv(w: World, e: Event)
    requires Inv(w) && Enabled(w, e) && e.Fail? && (e.id in w.tasks ==> w.tasks[e.id].attempt < |w.attempts|)
    ensures Inv(AfterFail(w, e))
  {
    CloseKeepsInv(w, e.tx);
    if e.id in w.tasks && !Terminal(w.tasks[e.id].status) {
      assert TaskInv(w, e.id);
      var info, rows := Record(w.tasks[e.id].deduction), w.open[e.tx].rows;
      RepaidKeepsRows(w.table, rows, info);
      var t := if PaysBack(w, e) then Repaid(w.table, rows, info) else w.table;
      TableKeepsInv(w, t, w.open - {e.tx});
      FailedKeepsInv(w.(table := t, open := w.open - {e.tx}), e.id, PaysBack(w, e),
                     RefundDue(w, e) && e.refund.Answered?, Done(e.save),
                     if e.save.Answered? then NoticesAfter(w, e.id) else w.notices);
    }
  }
}
