/** The ledger of the task lifecycle: what every row holds after any run of overlapping transactions, and when that is
    the opening balance less the charges. */
module TaskLedger {
  import opened Basics
  import opened MapSum
  import opened Credits
  import opened TaskLifecycle
  import opened TaskRuns

  // ----- exact accounting -----

  /** What an attempt has cost so far: its charge, less every time it was paid back. */
  ghost function Owed(a: Attempt): int {
    Sum(a.info) * (1 - a.refunds)
  }

  ghost function TotalOwed(s: seq<Attempt>): int {
    if s == [] then 0 else TotalOwed(s[..|s| - 1]) + Owed(s[|s| - 1])
  }

  lemma {:induction false} OwedAfterUpdate(s: seq<Attempt>, i: nat, a: Attempt)
    requires i < |s|
    ensures TotalOwed(s[i := a]) == TotalOwed(s) - Owed(s[i]) + Owed(a)
  {
    var n := |s| - 1;
    if i == n {
      assert s[i := a][..n] == s[..n];
    } else {
      assert s[i := a][..n] == s[..n][i := a];
      OwedAfterUpdate(s[..n], i, a);
    }
  }

  lemma OwedAfterAppend(s: seq<Attempt>, a: Attempt)
    ensures TotalOwed(s + [a]) == TotalOwed(s) + Owed(a)
  {
    assert (s + [a])[..|s|] == s;
  }

  /** Per row: the credits of one row that attempts still hold. */
  function Held(s: seq<Attempt>, row: nat): int {
    if s == [] then 0 else Held(s[..|s| - 1], row) + At(s[|s| - 1].info, row) * (1 - s[|s| - 1].refunds)
  }

  lemma {:induction false} HeldAfterUpdate(s: seq<Attempt>, i: nat, a: Attempt, row: nat)
    requires i < |s|
    ensures Held(s[i := a], row) ==
              Held(s, row) - At(s[i].info, row) * (1 - s[i].refunds) + At(a.info, row) * (1 - a.refunds)
  {
    var n := |s| - 1;
    if i == n {
      assert s[i := a][..n] == s[..n];
    } else {
      assert s[i := a][..n] == s[..n][i := a];
      HeldAfterUpdate(s[..n], i, a, row);
    }
  }

  /** Every row is the opening one less what attempts still hold of it. */
  ghost predicate RowsAccounted(t0: Table, t: Table, s: seq<Attempt>) {
    && t.Keys == t0.Keys
    && forall row :: row in t ==> t[row] == Plus(t0[row], -Held(s, row))
  }

  ghost predicate BalanceAccounted(t0: Table, t: Table, s: seq<Attempt>) {
    TotalCredits(t) + TotalOwed(s) == TotalCredits(t0)
  }

  ghost predicate Accounted(t0: Table, w: World) {
    RowsAccounted(t0, w.table, w.attempts) && BalanceAccounted(t0, w.table, w.attempts)
  }

  /** By how much a row is off: what it holds beyond the opening less what attempts still hold. */
  ghost function Drift(t0: Table, t: Table, s: seq<Attempt>, row: nat): int
    requires row in t0 && row in t
  {
    t[row].remaining - t0[row].remaining + Held(s, row)
  }

  lemma OneMoreRefund(c: int, n: int)
    ensures c * (1 - (n + 1)) == c * (1 - n) - c
  {
  }

  /** Attempt i is rewritten with n more refunds. */
  ghost predicate Rewritten(s: seq<Attempt>, s': seq<Attempt>, i: nat, n: nat) {
    && i < |s| == |s'| && s' == s[i := s'[i]]
    && s'[i].info == s[i].info && s'[i].refunds == s[i].refunds + n
  }

  // ----- what each kind of step does to the ledger -----

  lemma HeldAfterAppend(s: seq<Attempt>, id: string, info: map<nat, int>, row: nat)
    ensures Held(s + [Attempt(id, info, false, 0)], row) == Held(s, row) + At(info, row)
  {
    var a := Attempt(id, info, false, 0);
    assert (s + [a])[..|s|] == s;
  }

  lemma HeldAfterRewrite(s: seq<Attempt>, s': seq<Attempt>, i: nat, n: nat, row: nat)
    requires Rewritten(s, s', i, n) && n <= 1
    ensures Held(s', row) == Held(s, row) - n * At(s[i].info, row)
  {
    HeldAfterUpdate(s, i, s'[i], row);
    OneMoreRefund(At(s[i].info, row), s[i].refunds);
  }

  lemma ChargeDrift(t0: Table, t: Table, rows: Table, s: seq<Attempt>, id: string, info: map<nat, int>, row: nat)
    requires row in t0 && row in t && row in rows
    ensures Drift(t0, Spent(t, rows, info), s + [Attempt(id, info, false, 0)], row) ==
              Drift(t0, t, s, row) + if row in info then rows[row].remaining - t[row].remaining else 0
  {
    HeldAfterAppend(s, id, info, row);
  }

  lemma RefundDrift(t0: Table, t: Table, rows: Table, s: seq<Attempt>, s': seq<Attempt>, i: nat, row: nat)
    requires row in t0 && row in t && row in rows && Rewritten(s, s', i, 1)
    ensures Drift(t0, Repaid(t, rows, s[i].info), s', row) ==
              Drift(t0, t, s, row) + if row in s[i].info then rows[row].remaining - t[row].remaining else 0
  {
    HeldAfterRewrite(s, s', i, 1, row);
  }

  lemma ChargeAccounted(t0: Table, t: Table, s: seq<Attempt>, id: string, info: map<nat, int>)
    requires RowsAccounted(t0, t, s) && BalanceAccounted(t0, t, s) && info.Keys <= t.Keys
    ensures RowsAccounted(t0, Less(t, info), s + [Attempt(id, info, false, 0)])
    ensures BalanceAccounted(t0, Less(t, info), s + [Attempt(id, info, false, 0)])
  {
    LessTotal(t, info);
    OwedAfterAppend(s, Attempt(id, info, false, 0));
    ChargeRowsAccounted(t0, t, s, id, info);
  }

  lemma ChargeRowsAccounted(t0: Table, t: Table, s: seq<Attempt>, id: string, info: map<nat, int>)
    requires RowsAccounted(t0, t, s)
    ensures RowsAccounted(t0, Less(t, info), s + [Attempt(id, info, false, 0)])
  {
    forall row | row in t ensures Less(t, info)[row] == Plus(t0[row], -Held(s + [Attempt(id, info, false, 0)], row)) {
      HeldAfterAppend(s, id, info, row);
    }
  }

  lemma RefundAccounted(t0: Table, t: Table, s: seq<Attempt>, s': seq<Attempt>, i: nat)
    requires RowsAccounted(t0, t, s) && BalanceAccounted(t0, t, s) && Rewritten(s, s', i, 1) && s[i].info.Keys <= t.Keys
    ensures RowsAccounted(t0, More(t, s[i].info), s') && BalanceAccounted(t0, More(t, s[i].info), s')
  {
    MoreTotal(t, s[i].info);
    OwedAfterUpdate(s, i, s'[i]);
    OneMoreRefund(Sum(s[i].info), s[i].refunds);
    forall row | row in t ensures More(t, s[i].info)[row] == Plus(t0[row], -Held(s', row)) {
      HeldAfterRewrite(s, s', i, 1, row);
    }
  }

  lemma MarkAccounted(t0: Table, t: Table, s: seq<Attempt>, s': seq<Attempt>, i: nat)
    requires RowsAccounted(t0, t, s) && BalanceAccounted(t0, t, s) && Rewritten(s, s', i, 0)
    ensures RowsAccounted(t0, t, s') && BalanceAccounted(t0, t, s')
  {
    OwedAfterUpdate(s, i, s'[i]);
    forall row | row in t ensures Held(s', row) == Held(s, row) { HeldAfterRewrite(s, s', i, 0, row); }
  }

  // ----- a commit on rows that were read before -----

  /** The record of what a step writes to the rows. */
  ghost function Written(w: World, e: Event): map<nat, int>
    requires Inv(w) && Enabled(w, e)
  {
    if e.Submit? then Taken(SubmitCharge(w, e), e.commit)
    else if e.Retry? && Retryable(w, e) then Taken(RetryCharge(w, e), e.commit)
    else if e.Fail? && PaysBack(w, e) then Record(w.tasks[e.id].deduction)
    else map[]
  }

  ghost function ReadRows(w: World, e: Event): Table
    requires Enabled(w, e)
  {
    if Commits(e) then w.open[e.tx].rows else w.table
  }

  /** No row the step writes has changed since its transaction read it. */
  ghost predicate Fresh(w: World, e: Event)
    requires Inv(w) && Enabled(w, e)
  {
    FreshOn(ReadRows(w, e), w.table, Written(w, e))
  }

  /** What others did to a row between the read and the commit, and the commit undoes. */
  ghost function Undone(w: World, e: Event, row: nat): int
    requires Inv(w) && Enabled(w, e) && row in w.table
  {
    if row in Written(w, e) then ReadRows(w, e)[row].remaining - w.table[row].remaining else 0
  }

  ghost predicate Quiet(w: World, w': World) {
    w'.table == w.table && (w'.attempts == w.attempts || exists i :: Rewritten(w.attempts, w'.attempts, i, 0))
  }

  lemma RepaidNothing(t: Table, rows: Table)
    ensures Repaid(t, rows, map[]) == t
  {
  }

  lemma SpentNothing(t: Table, rows: Table)
    ensures Spent(t, rows, map[]) == t
  {
  }

  /** The step charges info on rows, or leaves the ledger alone. */
  ghost predicate ChargesOrNot(w: World, w': World, rows: Table, id: string, info: map<nat, int>) {
    || (w'.table == w.table && w'.attempts == w.attempts && info == map[])
    || (w'.table == Spent(w.table, rows, info) && w'.attempts == w.attempts + [Attempt(id, info, false, 0)])
  }

  lemma ChargingStep(w: World, tx: nat, commit: Reply, id: string, charge: Option<Option<map<nat, int>>>, task: Task)
    requires tx in w.open
    ensures ChargesOrNot(w, Charging(w, tx, commit, id, charge, task), w.open[tx].rows, id, Taken(charge, commit))
  {
  }

  lemma ChargeStep(w: World, e: Event)
    requires Inv(w) && Enabled(w, e) && (e.Submit? || e.Retry?)
    ensures ChargesOrNot(w, Next(w, e), ReadRows(w, e), e.id, Written(w, e))
  {
    if e.Submit? {
      ChargingStep(w, e.tx, e.commit, e.id, SubmitCharge(w, e), NewTask(w, e, SubmitCost(e)));
    } else if Retryable(w, e) {
      ChargingStep(w, e.tx, e.commit, e.id, RetryCharge(w, e), RetriedTask(w, w.tasks[e.id], RetryCost(w, e)));
    }
  }

  lemma FailStep(w: World, e: Event)
    requires Inv(w) && Enabled(w, e) && e.Fail?
    ensures if PaysBack(w, e) then
              var i := w.tasks[e.id].attempt;
              && Rewritten(w.attempts, Next(w, e).attempts, i, 1) && Written(w, e) == w.attempts[i].info
              && Next(w, e).table == Repaid(w.table, ReadRows(w, e), w.attempts[i].info)
            else Quiet(w, Next(w, e)) && Written(w, e) == map[]
  {
    assert e.id in w.tasks ==> TaskInv(w, e.id);
    AfterFailLedger(w, e);
  }

  lemma AfterFailLedger(w: World, e: Event)
    requires e.Fail? && e.tx in w.open && (e.id in w.tasks ==> w.tasks[e.id].attempt < |w.attempts|)
    ensures AfterFail(w, e).table ==
              if PaysBack(w, e) then Repaid(w.table, w.open[e.tx].rows, Record(w.tasks[e.id].deduction)) else w.table
    ensures if e.id in w.tasks && !Terminal(w.tasks[e.id].status) then
              Rewritten(w.attempts, AfterFail(w, e).attempts, w.tasks[e.id].attempt, if PaysBack(w, e) then 1 else 0)
            else AfterFail(w, e).attempts == w.attempts
  {
  }

  /** A step that is no commit leaves the ledger alone. */
  lemma OtherLedger(w: World, e: Event)
    requires Inv(w) && Enabled(w, e) && !Commits(e)
    ensures Next(w, e).table == w.table && Next(w, e).attempts == w.attempts
  {
    match e
    case Begin(tx, user) => assert Next(w, e) == w.(open := w.open[tx := Open(user, w.table)]);
    case Link(_, _) => assert Next(w, e) == AfterLink(w, e);
    case Progress(_, _) => assert Next(w, e) == AfterProgress(w, e);
    case Notify(_) => assert Next(w, e) == AfterNotify(w, e);
    case _ =>
  }

  lemma QuietDrift(t0: Table, w: World, w': World, row: nat)
    requires Quiet(w, w') && row in t0 && row in w.table
    ensures Drift(t0, w'.table, w'.attempts, row) == Drift(t0, w.table, w.attempts, row)
  {
    if w'.attempts != w.attempts {
      var i :| Rewritten(w.attempts, w'.attempts, i, 0);
      HeldAfterRewrite(w.attempts, w'.attempts, i, 0, row);
    }
  }

  /** In any step, faults and overlaps included, a row goes off by exactly what the commit undoes of others. */
  lemma StepDrift(t0: Table, w: World, e: Event, row: nat)
    requires Inv(w) && Enabled(w, e) && row in t0 && row in w.table
    ensures row in Next(w, e).table
    ensures Drift(t0, Next(w, e).table, Next(w, e).attempts, row) ==
              Drift(t0, w.table, w.attempts, row) + Undone(w, e, row)
  {
    ReadsEveryRow(w, e);
    if e.Submit? || e.Retry? {
      ChargeStep(w, e);
      ChargeDrift(t0, w.table, ReadRows(w, e), w.attempts, e.id, Written(w, e), row);
    } else if e.Fail? {
      FailDrift(t0, w, e, row);
    } else {
      OtherLedger(w, e);
    }
  }

  lemma FailDrift(t0: Table, w: World, e: Event, row: nat)
    requires Inv(w) && Enabled(w, e) && e.Fail? && row in t0 && row in w.table
    ensures row in Next(w, e).table
    ensures Drift(t0, Next(w, e).table, Next(w, e).attempts, row) ==
              Drift(t0, w.table, w.attempts, row) + Undone(w, e, row)
  {
    FailStep(w, e);
    ReadsEveryRow(w, e);
    if PaysBack(w, e) {
      RefundDrift(t0, w.table, ReadRows(w, e), w.attempts, Next(w, e).attempts, w.tasks[e.id].attempt, row);
    } else {
      QuietDrift(t0, w, Next(w, e), row);
    }
  }

  lemma FreshChargeKeepsAccounts(t0: Table, w: World, e: Event)
    requires Inv(w) && Enabled(w, e) && Accounted(t0, w) && Fresh(w, e) && (e.Submit? || e.Retry?)
    ensures Accounted(t0, Next(w, e))
  {
    ChargeStep(w, e);
    FreshSpent(w.table, ReadRows(w, e), Written(w, e));
    if Next(w, e).attempts != w.attempts {
      WrittenIsCharge(w, e);
      ChargeAccounted(t0, w.table, w.attempts, e.id, Written(w, e));
    }
  }

  lemma FreshFailKeepsAccounts(t0: Table, w: World, e: Event)
    requires Inv(w) && Enabled(w, e) && Accounted(t0, w) && Fresh(w, e) && e.Fail?
    ensures Accounted(t0, Next(w, e))
  {
    FailStep(w, e);
    if PaysBack(w, e) {
      FreshRepaid(w.table, ReadRows(w, e), Written(w, e));
      RefundAccounted(t0, w.table, w.attempts, Next(w, e).attempts, w.tasks[e.id].attempt);
    } else if Next(w, e).attempts != w.attempts {
      var i :| Rewritten(w.attempts, Next(w, e).attempts, i, 0);
      MarkAccounted(t0, w.table, w.attempts, Next(w, e).attempts, i);
    }
  }

  lemma FreshKeepsAccounts(t0: Table, w: World, e: Event)
    requires Inv(w) && Enabled(w, e) && Accounted(t0, w) && Fresh(w, e)
    ensures Accounted(t0, Next(w, e))
  {
    if e.Submit? || e.Retry? {
      FreshChargeKeepsAccounts(t0, w, e);
    } else if e.Fail? {
      FreshFailKeepsAccounts(t0, w, e);
    } else {
      OtherLedger(w, e);
    }
  }

  lemma TakenIsCharge(w: World, tx: nat, commit: Reply, charge: Option<Option<map<nat, int>>>, task: Task,
                      selected: seq<nat>, now: int, isMember: bool, project: string)
    requires Inv(w) && tx in w.open && ChargesFor(w.open[tx].rows, selected, now, isMember, charge, project, task)
    ensures IsCharge(w.table, Taken(charge, commit)) && Owns(w.table, task.user, Taken(charge, commit))
  {
    if charge.Some? {
      ChargeFits(w.table, w.open[tx].rows, selected, project, task.user, now, task.creditPoints, isMember,
                 task.(deduction := charge.value));
    }
  }

  /** A step writes rows of its transaction's user. */
  lemma WrittenIsCharge(w: World, e: Event)
    requires Inv(w) && Enabled(w, e)
    ensures IsCharge(w.table, Written(w, e))
    ensures Commits(e) ==> Owns(w.table, w.open[e.tx].user, Written(w, e))
  {
    if e.Submit? {
      TakenIsCharge(w, e.tx, e.commit, SubmitCharge(w, e), NewTask(w, e, SubmitCost(e)), e.selected, e.now, e.isMember,
                    e.project);
    } else if e.Retry? && Retryable(w, e) {
      TakenIsCharge(w, e.tx, e.commit, RetryCharge(w, e), RetriedTask(w, w.tasks[e.id], RetryCost(w, e)),
                    e.selected, e.now, e.isMember, w.tasks[e.id].project);
    } else if e.Fail? && PaysBack(w, e) {
      assert TaskInv(w, e.id);
    }
  }

  lemma NoDrift(t0: Table, t: Table, s: seq<Attempt>, row: nat)
    requires RowsAccounted(t0, t, s) && row in t
    ensures Drift(t0, t, s, row) == 0
  {
  }

  lemma DriftBreaksAccounts(t0: Table, t: Table, s: seq<Attempt>, row: nat)
    requires row in t0 && row in t && Drift(t0, t, s, row) != 0
    ensures !RowsAccounted(t0, t, s)
  {
  }

  lemma StaleRow(w: World, e: Event) returns (row: nat)
    requires Inv(w) && Enabled(w, e) && !Fresh(w, e)
    ensures row in w.table && Undone(w, e, row) != 0
  {
    var rows := ReadRows(w, e);
    row :| row in Written(w, e) && row in rows && row in w.table && rows[row] != w.table[row];
    assert SameRow(rows[row], w.table[row]);
  }

  /** A commit keeps the accounts exactly when no row it writes changed since its transaction read it. */
  lemma AccountedIffFresh(t0: Table, w: World, e: Event)
    requires Inv(w) && Enabled(w, e) && Accounted(t0, w)
    ensures Accounted(t0, Next(w, e)) <==> Fresh(w, e)
  {
    if Fresh(w, e) {
      FreshKeepsAccounts(t0, w, e);
    } else {
      var row := StaleRow(w, e);
      StepDrift(t0, w, e, row);
      NoDrift(t0, w.table, w.attempts, row);
      DriftBreaksAccounts(t0, Next(w, e).table, Next(w, e).attempts, row);
    }
  }

  // ----- main results: overlapping transactions -----

  /** What the commits of a run undo of others in one row. */
  ghost function TotalUndone(w: World, es: seq<Event>, row: nat): int
    requires Inv(w) && IsRun(w, es) && row in w.table
    decreases |es|
  {
    if es == [] then 0
    else
      NextKeepsInv(w, es[0]);
      StepDrift(w.table, w, es[0], row);
      Undone(w, es[0], row) + TotalUndone(Next(w, es[0]), es[1..], row)
  }

  /** In every run, with overlaps and every fault, each row is the opening one less what attempts still
      hold, plus exactly what stale commits undid. */
  lemma {:induction false} LedgerIsOffByUndone(t0: Table, w: World, es: seq<Event>, row: nat)
    requires Inv(w) && IsRun(w, es) && row in t0 && row in w.table
    ensures row in After(w, es).table
    ensures Drift(t0, After(w, es).table, After(w, es).attempts, row) ==
              Drift(t0, w.table, w.attempts, row) + TotalUndone(w, es, row)
    decreases |es|
  {
    if es != [] {
      NextKeepsInv(w, es[0]);
      StepDrift(w.table, w, es[0], row);
      StepDrift(t0, w, es[0], row);
      LedgerIsOffByUndone(t0, Next(w, es[0]), es[1..], row);
    }
  }

  lemma ChargesOrNotTable(w: World, w': World, rows: Table, id: string, info: map<nat, int>)
    requires ChargesOrNot(w, w', rows, id, info)
    ensures w'.table == Spent(w.table, rows, info)
  {
    SpentNothing(w.table, rows);
  }

  /** The rows after any step: those of its record, as read and changed, over the others. */
  lemma TableAfter(w: World, e: Event)
    requires Inv(w) && Enabled(w, e)
    ensures Next(w, e).table ==
              if e.Fail? then Repaid(w.table, ReadRows(w, e), Written(w, e))
              else Spent(w.table, ReadRows(w, e), Written(w, e))
  {
    if e.Submit? || e.Retry? {
      ChargeStep(w, e);
      ChargesOrNotTable(w, Next(w, e), ReadRows(w, e), e.id, Written(w, e));
    } else if e.Fail? {
      FailTable(w, e);
    } else {
      SpentNothing(w.table, ReadRows(w, e));
    }
  }

  lemma FailTable(w: World, e: Event)
    requires Inv(w) && Enabled(w, e) && e.Fail?
    ensures Next(w, e).table == Repaid(w.table, ReadRows(w, e), Written(w, e))
  {
    FailStep(w, e);
    RepaidNothing(w.table, ReadRows(w, e));
  }

  lemma SavedRow(t: Table, rows: Table, info: map<nat, int>, row: nat)
    requires row in t && row in rows
    ensures row in Spent(t, rows, info) && row in Repaid(t, rows, info)
    ensures Spent(t, rows, info)[row] == if row in info then Plus(rows[row], -info[row]) else t[row]
    ensures Repaid(t, rows, info)[row] == if row in info then Plus(rows[row], info[row]) else t[row]
  {
  }

  lemma ReadsEveryRow(w: World, e: Event)
    requires Inv(w) && Enabled(w, e)
    ensures ReadRows(w, e).Keys == w.table.Keys
  {
  }

  lemma WrittenRow(w: World, e: Event, row: nat)
    requires Inv(w) && Enabled(w, e) && row in w.table
    ensures row in Next(w, e).table && Next(w, e).table[row] ==
              if row !in Written(w, e) then w.table[row]
              else Plus(ReadRows(w, e)[row], if e.Fail? then Written(w, e)[row] else -Written(w, e)[row])
  {
    TableAfter(w, e);
    ReadsEveryRow(w, e);
    SavedRow(w.table, ReadRows(w, e), Written(w, e), row);
  }

  lemma OpenAfter(w: World, e: Event)
    requires Inv(w) && Enabled(w, e)
    ensures Next(w, e).open == if e.Begin? then w.open[e.tx := Open(e.user, w.table)]
                               else if Commits(e) then w.open - {e.tx} else w.open
  {
    if e.Submit? || e.Retry? {
      ChargeLeaves(w, e);
    } else if e.Fail? {
      FailOpen(w, e);
    } else {
      OtherOpen(w, e);
    }
  }

  lemma OtherOpen(w: World, e: Event)
    requires Inv(w) && Enabled(w, e) && !Commits(e)
    ensures Next(w, e).open == if e.Begin? then w.open[e.tx := Open(e.user, w.table)] else w.open
  {
    match e
    case Begin(tx, user) => assert Next(w, e) == w.(open := w.open[tx := Open(user, w.table)]);
    case Link(_, _) => assert Next(w, e) == AfterLink(w, e);
    case Progress(_, _) => assert Next(w, e) == AfterProgress(w, e);
    case Notify(_) => assert Next(w, e) == AfterNotify(w, e);
    case _ =>
  }

  lemma ChargeLeaves(w: World, e: Event)
    requires Inv(w) && Enabled(w, e) && (e.Submit? || e.Retry?)
    ensures Next(w, e).open == w.open - {e.tx} && Next(w, e).notices == w.notices
  {
    if e.Submit? {
      ChargingShape(w, e.tx, e.commit, e.id, SubmitCharge(w, e), NewTask(w, e, SubmitCost(e)));
    } else {
      RetryLeaves(w, e);
    }
  }

  lemma RetryLeaves(w: World, e: Event)
    requires Inv(w) && Enabled(w, e) && e.Retry?
    ensures Next(w, e).open == w.open - {e.tx} && Next(w, e).notices == w.notices
  {
    if Retryable(w, e) {
      ChargingShape(w, e.tx, e.commit, e.id, RetryCharge(w, e), RetriedTask(w, w.tasks[e.id], RetryCost(w, e)));
    }
  }

  lemma AfterFailShape(w: World, e: Event)
    requires e.Fail? && e.tx in w.open && (e.id in w.tasks ==> w.tasks[e.id].attempt < |w.attempts|)
    ensures AfterFail(w, e).open == w.open - {e.tx}
    ensures AfterFail(w, e).notices ==
              if e.id in w.tasks && !Terminal(w.tasks[e.id].status) && e.save.Answered? then NoticesAfter(w, e.id)
              else w.notices
    ensures |AfterFail(w, e).attempts| == |w.attempts|
    ensures forall i :: 0 <= i < |w.attempts| ==>
              || AfterFail(w, e).attempts[i] == w.attempts[i]
              || (e.id in w.tasks && !Terminal(w.tasks[e.id].status) && w.tasks[e.id].attempt == i)
  {
  }

  lemma FailOpen(w: World, e: Event)
    requires Inv(w) && Enabled(w, e) && e.Fail?
    ensures Next(w, e).open == w.open - {e.tx}
  {
    assert e.id in w.tasks ==> TaskInv(w, e.id);
    AfterFailShape(w, e);
  }

  /** A transaction read a row when it was before, and others have changed it by change since: the commit
      takes all of that back out, and the row ends as if only this transaction had been there. */
  lemma OverlapUndoesFirst(w: World, e: Event, row: nat, before: Row, change: int)
    requires Inv(w) && Enabled(w, e) && Commits(e) && row in w.table
    requires row in w.open[e.tx].rows && w.open[e.tx].rows[row] == before && w.table[row] == Plus(before, change)
    ensures row in Next(w, e).table
    ensures row in Written(w, e) ==>
              && Undone(w, e, row) == -change
              && Next(w, e).table[row] == Plus(before, if e.Fail? then Written(w, e)[row] else -Written(w, e)[row])
  {
    WrittenRow(w, e, row);
  }

  /** What a commit on a fresh row changes for the transactions that read it before: its charge or its
      refund, never nothing. */
  lemma FreshCommitChanges(w: World, e: Event, row: nat)
    requires Inv(w) && Enabled(w, e) && Commits(e) && row in w.table
    ensures row in w.open[e.tx].rows && row in Next(w, e).table
    ensures row in Written(w, e) && w.open[e.tx].rows[row] == w.table[row] ==>
              && Written(w, e)[row] > 0
              && Next(w, e).table[row] ==
                   Plus(w.table[row], if e.Fail? then Written(w, e)[row] else -Written(w, e)[row])
  {
    KeysStay(w, e);
    ReadsEveryRow(w, e);
    if w.open[e.tx].rows[row] == w.table[row] { OverlapUndoesFirst(w, e, row, w.table[row], 0); }
    WrittenIsCharge(w, e);
  }

  lemma OneRowKind(t: Table, kind: CreditType)
    requires 0 in t
    ensures OfKinds(t, [0], {kind}) == if t[0].kind == kind then [0] else []
  {
    assert [0][1..] == [];
    assert OfKinds(t, [], {kind}) == [];
  }

  /** A charge that fits one purchased row is taken from it. */
  lemma OneRowCharge(t: Table, amount: nat)
    requires 0 in t && t[0].kind == Purchased && 0 < amount <= t[0].remaining
    ensures Charge(t, [0], amount, false) == Some(Some(map[0 := amount]))
  {
    assert [0][1..] == [];
    OneRowKind(t, DailyFree);
    OneRowKind(t, Purchased);
    OneRowKind(t, MembershipGrant);
    OneRowKind(t, EventGrant);
    assert [0] + [] + [] == [0];
    assert Paid(t, [0]) == [0];
    assert Total(t, [0]) == t[0].remaining && Total(t, []) == 0;
    assert Take(t, [], 0) == map[];
    assert Take(t, [0], amount) == map[0 := amount];
    assert Deduction(t, [0], amount, false) == Some(map[0 := amount]);
  }

  function Purchase(tx: nat, id: string, price: int): Event {
    Submit(tx, id, "p", "u", price, false, [0], 0, false, false, Answered)
  }

  function OneRow(a: int): Table {
    map[0 := Row("p", "u", Purchased, a, 10)]
  }

  lemma PurchaseIsEnabled(w: World, tx: nat, id: string, price: int, a: nat)
    requires tx in w.open && w.open[tx] == Open("u", OneRow(a)) && id !in w.tasks && a > 0
    ensures Enabled(w, Purchase(tx, id, price))
  {
    assert IsQueryResult(OneRow(a), "p", "u", 0, [0]);
  }

  lemma PurchaseWrites(w: World, tx: nat, id: string, price: nat, a: nat)
    requires Inv(w) && tx in w.open && w.open[tx] == Open("u", OneRow(a)) && 0 < price <= a
    requires Enabled(w, Purchase(tx, id, price))
    ensures Written(w, Purchase(tx, id, price)) == map[0 := price]
  {
    OneRowCharge(OneRow(a), price);
  }

  lemma TasksAfterPurchase(w: World, tx: nat, id: string, price: nat)
    requires Inv(w) && Enabled(w, Purchase(tx, id, price))
    ensures Next(w, Purchase(tx, id, price)).tasks.Keys <= w.tasks.Keys + {id}
  {
  }

  /** One such transaction from a state where it is still on the opening row. */
  lemma PurchaseStep(w: World, tx: nat, id: string, price: nat, a: nat)
    requires Inv(w) && tx in w.open && id !in w.tasks && 0 in w.table
    requires w.open[tx] == Open("u", OneRow(a)) && 0 < price <= a
    ensures Enabled(w, Purchase(tx, id, price)) && Inv(Next(w, Purchase(tx, id, price)))
    ensures var w' := Next(w, Purchase(tx, id, price));
            && w'.attempts == w.attempts + [Attempt(id, map[0 := price], false, 0)]
            && 0 in w'.table && w'.table[0].remaining == a - price
            && w'.open == w.open - {tx}
            && w'.tasks.Keys <= w.tasks.Keys + {id}
  {
    var e := Purchase(tx, id, price);
    PurchaseIsEnabled(w, tx, id, price, a);
    PurchaseWrites(w, tx, id, price, a);
    TasksAfterPurchase(w, tx, id, price);
    NextKeepsInv(w, e);
    ChargeStep(w, e);
    WrittenRow(w, e, 0);
    OpenAfter(w, e);
  }

  /** Two submits of one user that overlap: both tasks are charged, the row pays for the second only. */
  lemma TwoSubmitsPayOnce(a: nat, x: nat, y: nat)
    requires 0 < x <= a && 0 < y <= a
    ensures var es := [Begin(0, "u"), Begin(1, "u"), Purchase(0, "s", x), Purchase(1, "t", y)];
            && Inv(Start(OneRow(a))) && IsRun(Start(OneRow(a)), es)
            && var w := After(Start(OneRow(a)), es);
               0 in w.table && w.table[0].remaining == a - y && Held(w.attempts, 0) == x + y
  {
    var w0 := Start(OneRow(a));
    var w1 := BeginStep(w0, 0, "u");
    var w2 := BeginStep(w1, 1, "u");
    TwoPurchases(w2, a, x, y);
    StepRun(w1, Begin(1, "u"), [Purchase(0, "s", x), Purchase(1, "t", y)]);
    StepRun(w0, Begin(0, "u"), [Begin(1, "u"), Purchase(0, "s", x), Purchase(1, "t", y)]);
  }

  lemma BeginStep(w: World, tx: nat, user: string) returns (begun: World)
    requires Inv(w) && tx !in w.open
    ensures Enabled(w, Begin(tx, user)) && begun == Next(w, Begin(tx, user)) && Inv(begun)
    ensures begun == w.(open := w.open[tx := Open(user, w.table)])
  {
    NextKeepsInv(w, Begin(tx, user));
    begun := Next(w, Begin(tx, user));
  }

  lemma TwoPurchases(w: World, a: nat, x: nat, y: nat)
    requires Inv(w) && 0 < x <= a && 0 < y <= a
    requires w == World(OneRow(a), map[], [], map[0 := Open("u", OneRow(a)), 1 := Open("u", OneRow(a))], map[], {})
    ensures IsRun(w, [Purchase(0, "s", x), Purchase(1, "t", y)])
    ensures var after := After(w, [Purchase(0, "s", x), Purchase(1, "t", y)]);
            0 in after.table && after.table[0].remaining == a - y && Held(after.attempts, 0) == x + y
  {
    PurchaseStep(w, 0, "s", x, a);
    var w1 := Next(w, Purchase(0, "s", x));
    PurchaseStep(w1, 1, "t", y, a);
    TwoSteps(w, Purchase(0, "s", x), Purchase(1, "t", y));
    HeldByTwo(x, y);
  }

  lemma HeldByTwo(x: int, y: int)
    ensures Held([] + [Attempt("s", map[0 := x], false, 0)] + [Attempt("t", map[0 := y], false, 0)], 0) == x + y
  {
    HeldAfterAppend([], "s", map[0 := x], 0);
    HeldAfterAppend([] + [Attempt("s", map[0 := x], false, 0)], "t", map[0 := y], 0);
  }

  lemma TwoSteps(w: World, e: Event, f: Event)
    requires Inv(w) && Enabled(w, e) && Inv(Next(w, e)) && Enabled(Next(w, e), f) && Inv(Next(Next(w, e), f))
    ensures IsRun(w, [e, f]) && After(w, [e, f]) == Next(Next(w, e), f)
  {
    StepRun(Next(w, e), f, []);
    StepRun(w, e, [f]);
    assert [f] + [] == [f] && [e] + [f] == [e, f];
  }

  lemma StepRun(w: World, e: Event, es: seq<Event>)
    requires Inv(w) && Enabled(w, e) && Inv(Next(w, e)) && IsRun(Next(w, e), es)
    ensures IsRun(w, [e] + es) && After(w, [e] + es) == After(Next(w, e), es)
  {
    assert ([e] + es)[1..] == es;
  }

  // ----- main results: one transaction at a time for each user -----

  /** The condition a caller can keep: no transaction is begun for a user who has one open. */
  predicate Alone(w: World, e: Event) {
    e.Begin? ==> forall tx :: tx in w.open ==> w.open[tx].user != e.user
  }

  ghost predicate IsSerial(w: World, es: seq<Event>)
    requires Inv(w) && IsRun(w, es)
    decreases |es|
  {
    es == [] || (Alone(w, es[0]) && IsSerial(Step(w, es[0]), es[1..]))
  }

  predicate UserFresh(o: Open, t: Table) {
    forall row :: row in t && row in o.rows && t[row].user == o.user ==> o.rows[row] == t[row]
  }

  /** Every open transaction still has the latest rows of its user. */
  predicate OwnFresh(w: World) {
    && (forall tx :: tx in w.open ==> UserFresh(w.open[tx], w.table))
    && (forall a, b :: a in w.open && b in w.open && a != b ==> w.open[a].user != w.open[b].user)
  }

  lemma OthersUntouched(w: World, e: Event, o: Open)
    requires Inv(w) && Enabled(w, e) && UserFresh(o, w.table)
    requires Commits(e) ==> w.open[e.tx].user != o.user
    ensures UserFresh(o, Next(w, e).table)
  {
    WrittenIsCharge(w, e);
    KeysStay(w, e);
    forall row | row in Next(w, e).table && row in o.rows && Next(w, e).table[row].user == o.user
      ensures o.rows[row] == Next(w, e).table[row]
    {
      WrittenRow(w, e, row);
      assert row in Written(w, e) ==> SameRow(ReadRows(w, e)[row], w.table[row]);
    }
  }

  lemma KeysStay(w: World, e: Event)
    requires Inv(w) && Enabled(w, e)
    ensures Next(w, e).table.Keys == w.table.Keys
  {
    TableAfter(w, e);
  }

  lemma SerialKeepsOwnFresh(w: World, e: Event)
    requires Inv(w) && Enabled(w, e) && OwnFresh(w) && Alone(w, e)
    ensures OwnFresh(Next(w, e))
  {
    OpenAfter(w, e);
    forall tx | tx in Next(w, e).open ensures UserFresh(Next(w, e).open[tx], Next(w, e).table) {
      if tx in w.open { OthersUntouched(w, e, w.open[tx]); }
    }
  }

  lemma OwnFreshIsFresh(w: World, e: Event)
    requires Inv(w) && Enabled(w, e) && OwnFresh(w)
    ensures Fresh(w, e)
  {
    WrittenIsCharge(w, e);
  }

  lemma {:induction false} SerialKeepsAccounts(t0: Table, w: World, es: seq<Event>)
    requires Inv(w) && IsRun(w, es) && IsSerial(w, es) && OwnFresh(w) && Accounted(t0, w)
    ensures Accounted(t0, After(w, es))
    decreases |es|
  {
    if es != [] {
      NextKeepsInv(w, es[0]);
      OwnFreshIsFresh(w, es[0]);
      FreshKeepsAccounts(t0, w, es[0]);
      SerialKeepsOwnFresh(w, es[0]);
      SerialKeepsAccounts(t0, Next(w, es[0]), es[1..]);
    }
  }

  /** With one transaction at a time for each user, every row and the balance are the opening ones less
      what the attempts still hold, in every run and with every other fault. */
  lemma LedgerIsExact(t0: Table, es: seq<Event>)
    requires NonNegative(t0) && IsRun(Start(t0), es) && IsSerial(Start(t0), es)
    ensures Accounted(t0, After(Start(t0), es))
  {
    SerialKeepsAccounts(t0, Start(t0), es);
  }
}
