/** The credit service: deduction over the user's rows, refund, and the transaction journal. */
module Credits {
  import opened Basics
  import opened MapSum

  datatype CreditType = Purchased | MembershipGrant | DailyFree | EventGrant | OtherType(name: string)

  /** One record of remaining credits. */
  datatype Row = Row(project: string, user: string, kind: CreditType, remaining: int, expiresAt: int)

  type Table = map<nat, Row>

  /** One line of the journal. */
  datatype Change = Change(row: nat, amount: int, balanceAfter: int, source: string)

  // ----- reading the rows -----

  predicate NonNegative(t: Table) {
    forall id :: id in t ==> t[id].remaining >= 0
  }

  predicate Stored(t: Table, ids: seq<nat>) {
    forall id :: id in ids ==> id in t
  }

  predicate Distinct(ids: seq<nat>) {
    forall i, j :: 0 <= i < j < |ids| ==> ids[i] != ids[j]
  }

  predicate Eligible(r: Row, project: string, user: string, now: int) {
    r.project == project && r.user == user && r.remaining > 0 && r.expiresAt > now
  }

  /** What the query returns: the user's unexpired rows with credit, each once, soonest expiry first. */
  ghost predicate IsQueryResult(t: Table, project: string, user: string, now: int, ids: seq<nat>) {
    && Distinct(ids)
    && (forall id :: id in ids <==> id in t && Eligible(t[id], project, user, now))
    && (forall i, j :: 0 <= i < j < |ids| && ids[i] in t && ids[j] in t ==> t[ids[i]].expiresAt <= t[ids[j]].expiresAt)
  }

  function Total(t: Table, ids: seq<nat>): int
    requires Stored(t, ids)
  {
    if ids == [] then 0 else t[ids[0]].remaining + Total(t, ids[1..])
  }

  predicate IsFree(k: CreditType) { k == DailyFree }

  /** The rows whose type is among kinds, in the given order. */
  function OfKinds(t: Table, ids: seq<nat>, kinds: set<CreditType>): (r: seq<nat>)
    requires Stored(t, ids)
    ensures Stored(t, r)
  {
    if ids == [] then []
    else
      var rest := OfKinds(t, ids[1..], kinds);
      if t[ids[0]].kind in kinds then [ids[0]] + rest else rest
  }

  function NotFree(t: Table, ids: seq<nat>): (r: seq<nat>)
    requires Stored(t, ids)
    ensures Stored(t, r)
  {
    if ids == [] then []
    else
      var rest := NotFree(t, ids[1..]);
      if IsFree(t[ids[0]].kind) then rest else [ids[0]] + rest
  }

  /** Purchased, then membership, then event credits. */
  function Paid(t: Table, ids: seq<nat>): (r: seq<nat>)
    requires Stored(t, ids)
    ensures Stored(t, r)
  {
    OfKinds(t, ids, {Purchased}) + OfKinds(t, ids, {MembershipGrant}) + OfKinds(t, ids, {EventGrant})
  }

  // ----- what a deduction takes -----

  function Take(t: Table, ids: seq<nat>, amount: int): (info: map<nat, int>)
    requires Stored(t, ids)
  {
    if ids == [] || amount == 0 then map[]
    else
      var d := Min(amount, t[ids[0]].remaining);
      if d == 0 then Take(t, ids[1..], amount)
      else Take(t, ids[1..], amount - d)[ids[0] := d]
  }

  /** Which rows a deduction may draw on; None is ErrInsufficientCredits. */
  function Pool(t: Table, ids: seq<nat>, amount: int, isMember: bool): (r: Option<seq<nat>>)
    requires Stored(t, ids)
    ensures r.Some? ==> Stored(t, r.value)
  {
    if isMember then
      if Total(t, NotFree(t, ids)) < amount then None else Some(NotFree(t, ids))
      else if amount <= Total(t, OfKinds(t, ids, {DailyFree})) then Some(OfKinds(t, ids, {DailyFree}))
    else if amount <= Total(t, Paid(t, ids)) then Some(Paid(t, ids))
    else None
  }

  function Deduction(t: Table, ids: seq<nat>, amount: int, isMember: bool): Option<map<nat, int>>
    requires Stored(t, ids)
  {
    match Pool(t, ids, amount, isMember)
    case None => None
    case Some(pool) => Some(Take(t, pool, amount))
  }

  function Less(t: Table, info: map<nat, int>): Table {
    map id | id in t :: if id in info then t[id].(remaining := t[id].remaining - info[id]) else t[id]
  }

  function More(t: Table, info: map<nat, int>): Table {
    map id | id in t :: if id in info then t[id].(remaining := t[id].remaining + info[id]) else t[id]
  }

  ghost function Balances(t: Table): map<nat, int> {
    map id | id in t :: t[id].remaining
  }

  ghost function TotalCredits(t: Table): int {
    Sum(Balances(t))
  }

  // ----- what a transaction read and what it writes -----

  /** The same row, whatever it still holds. */
  predicate SameRow(a: Row, b: Row) {
    a.(remaining := 0) == b.(remaining := 0)
  }

  predicate SameRows(a: Table, b: Table) {
    a.Keys == b.Keys && forall id :: id in a ==> SameRow(a[id], b[id])
  }

  /** The rows of info are still as the transaction read them. */
  predicate FreshOn(rows: Table, t: Table, info: map<nat, int>) {
    forall id :: id in info && id in rows && id in t ==> rows[id] == t[id]
  }

  /** A row is saved whole, with what was read as the base: earlier writes of others are overwritten. */
  function Saved(t: Table, rows: Table, change: map<nat, int>): (r: Table)
    ensures r.Keys == t.Keys
  {
    map id | id in t :: if id in change && id in rows then Plus(rows[id], change[id]) else t[id]
  }

  function Plus(row: Row, amount: int): Row {
    row.(remaining := row.remaining + amount)
  }

  function Negated(info: map<nat, int>): (r: map<nat, int>)
    ensures r.Keys == info.Keys
  {
    map id | id in info :: -info[id]
  }

  function Spent(t: Table, rows: Table, info: map<nat, int>): Table {
    Saved(t, rows, Negated(info))
  }

  function Repaid(t: Table, rows: Table, info: map<nat, int>): Table {
    Saved(t, rows, info)
  }

  /** On fresh rows a charge and a refund are the plain difference and sum. */
  lemma FreshSpent(t: Table, rows: Table, info: map<nat, int>)
    requires rows.Keys == t.Keys && FreshOn(rows, t, info)
    ensures Spent(t, rows, info) == Less(t, info)
  {
  }

  lemma FreshRepaid(t: Table, rows: Table, info: map<nat, int>)
    requires rows.Keys == t.Keys && FreshOn(rows, t, info)
    ensures Repaid(t, rows, info) == More(t, info)
  {
  }

  // ----- the journal -----

  function Net(j: seq<Change>, id: nat): int {
    if j == [] then 0 else Net(j[..|j| - 1], id) + if j[|j| - 1].row == id then j[|j| - 1].amount else 0
  }

  function LastBalance(j: seq<Change>, id: nat): Option<int> {
    if j == [] then None
    else if j[|j| - 1].row == id then Some(j[|j| - 1].balanceAfter)
    else LastBalance(j[..|j| - 1], id)
  }

  /** The last line of a row states its balance. */
  predicate Current(t: Table, j: seq<Change>) {
    forall id :: id in t ==> LastBalance(j, id) in {None, Some(t[id].remaining)}
  }

  /** Started from t0, the journal explains every balance. */
  predicate Explains(t0: Table, t: Table, j: seq<Change>) {
    t.Keys == t0.Keys && forall id :: id in t ==> t[id] == Plus(t0[id], Net(j, id))
  }

  function Line(id: nat, row: Row, amount: int, source: string): Change {
    Change(id, amount, row.remaining + amount, source)
  }

  lemma LineKeepsCurrent(t: Table, j: seq<Change>, id: nat, row: Row, amount: int, source: string)
    requires Current(t, j)
    ensures Current(t[id := Plus(row, amount)], j + [Line(id, row, amount, source)])
  {
    var j' := j + [Line(id, row, amount, source)];
    assert j'[..|j'| - 1] == j;
  }

  /** A line explains the change of its row exactly when the row was still as read. */
  lemma LineExplainsIff(t0: Table, t: Table, j: seq<Change>, id: nat, row: Row, amount: int, source: string)
    requires Explains(t0, t, j) && id in t
    ensures Explains(t0, t[id := Plus(row, amount)], j + [Line(id, row, amount, source)]) <==> row == t[id]
  {
    var t' := t[id := Plus(row, amount)];
    var j' := j + [Line(id, row, amount, source)];
    assert j'[..|j'| - 1] == j;
    forall k | k in t' && k != id ensures t'[k] == Plus(t0[k], Net(j', k)) { assert Net(j', k) == Net(j, k); }
    assert Plus(t0[id], Net(j', id)) == Plus(t[id], amount);
    assert Plus(row, amount) == Plus(t[id], amount) <==> row == t[id] by { PlusCancels(row, t[id], amount); }
  }

  lemma PlusCancels(a: Row, b: Row, amount: int)
    ensures Plus(a, amount) == Plus(b, amount) <==> a == b
  {
    assert a == Plus(Plus(a, amount), -amount) && b == Plus(Plus(b, amount), -amount);
  }

  // ----- one row at a time -----

  lemma OneMoreSaved(t: Table, rows: Table, change: map<nat, int>, id: nat, d: int)
    requires id in t && id !in change
    ensures Saved(t, rows, change[id := d]) ==
              if id in rows then Saved(t, rows, change)[id := Plus(rows[id], d)] else Saved(t, rows, change)
  {
  }

  lemma OneMoreSpent(t: Table, rows: Table, info: map<nat, int>, id: nat, d: int)
    requires id in t && id in rows && id !in info
    ensures Spent(t, rows, info[id := d]) == Spent(t, rows, info)[id := Plus(rows[id], -d)]
  {
    assert Negated(info[id := d]) == Negated(info)[id := -d];
    OneMoreSaved(t, rows, Negated(info), id, -d);
  }

  lemma InsertMovesAcross(info: map<nat, int>, rest: map<nat, int>, id: nat, d: int)
    requires id !in rest
    ensures info + rest[id := d] == info[id := d] + rest
  {
  }

  /** The deduction loop after i rows: what is recorded, what the rows look like, what is left. */
  ghost predicate Deducting(t0: Table, rows: Table, t: Table, ids: seq<nat>, amount: int, i: nat, left: int,
                            info: map<nat, int>) {
    && Stored(rows, ids) && Distinct(ids) && NonNegative(rows) && rows.Keys == t0.Keys
    && i <= |ids| && left >= 0
    && (forall k :: k in info ==> k in ids[..i])
    && t == Spent(t0, rows, info)
    && Take(rows, ids, amount) == info + Take(rows, ids[i..], left)
  }

  lemma DeductingStarts(t0: Table, rows: Table, ids: seq<nat>, amount: nat)
    requires Stored(rows, ids) && Distinct(ids) && NonNegative(rows) && rows.Keys == t0.Keys
    ensures Deducting(t0, rows, t0, ids, amount, 0, amount, map[])
  {
    assert Spent(t0, rows, map[]) == t0;
    assert ids[0..] == ids;
  }

  lemma DeductingStep(t0: Table, rows: Table, t: Table, ids: seq<nat>, amount: int, i: nat, left: int,
                      info: map<nat, int>)
    requires Deducting(t0, rows, t, ids, amount, i, left, info) && i < |ids| && left != 0
    ensures ids[i] in t && ids[i] !in info && t[ids[i]] == t0[ids[i]]
    ensures var id := ids[i]; var d := Min(left, rows[id].remaining);
            if d == 0 then Deducting(t0, rows, t, ids, amount, i + 1, left, info)
            else Deducting(t0, rows, t[id := Plus(rows[id], -d)], ids, amount, i + 1, left - d, info[id := d])
  {
    var id := ids[i];
    assert id !in info;
    var d := Min(left, rows[id].remaining);
    assert ids[..i + 1] == ids[..i] + [id];
    TakeStep(rows, ids, i, left, info);
    if d != 0 { OneMoreSpent(t0, rows, info, id, d); }
  }

  lemma TakeStep(rows: Table, ids: seq<nat>, i: nat, left: int, info: map<nat, int>)
    requires Stored(rows, ids) && Distinct(ids) && NonNegative(rows) && i < |ids| && left > 0
    ensures var id := ids[i]; var d := Min(left, rows[id].remaining);
            info + Take(rows, ids[i..], left) ==
              if d == 0 then info + Take(rows, ids[i + 1..], left)
              else info[id := d] + Take(rows, ids[i + 1..], left - d)
  {
    var id := ids[i];
    var d := Min(left, rows[id].remaining);
    assert ids[i..][1..] == ids[i + 1..];
    if d != 0 {
      TakeStaysInside(rows, ids[i + 1..], left - d);
      assert id !in ids[i + 1..];
      InsertMovesAcross(info, Take(rows, ids[i + 1..], left - d), id, d);
    }
  }

  lemma DeductingEnds(t0: Table, rows: Table, t: Table, ids: seq<nat>, amount: int, i: nat, left: int,
                      info: map<nat, int>)
    requires Deducting(t0, rows, t, ids, amount, i, left, info) && (i == |ids| || left == 0)
    ensures info == Take(rows, ids, amount) && t == Spent(t0, rows, info)
  {
    assert Take(rows, ids[i..], left) == map[];
  }

  /** The loop that skips daily credits, after i rows. */
  ghost predicate Skipping(t: Table, ids: seq<nat>, i: nat, available: seq<nat>, total: int) {
    && i <= |ids| && Stored(t, ids)
    && NotFree(t, ids) == available + NotFree(t, ids[i..])
    && total + Total(t, NotFree(t, ids[i..])) == Total(t, NotFree(t, ids))
  }

  lemma SkippingStep(t: Table, ids: seq<nat>, i: nat, available: seq<nat>, total: int)
    requires Skipping(t, ids, i, available, total) && i < |ids|
    ensures if IsFree(t[ids[i]].kind) then Skipping(t, ids, i + 1, available, total)
            else Skipping(t, ids, i + 1, available + [ids[i]], total + t[ids[i]].remaining)
  {
    var rest := NotFree(t, ids[i + 1..]);
    assert ids[i..][1..] == ids[i + 1..];
    if !IsFree(t[ids[i]].kind) {
      assert NotFree(t, ids[i..]) == [ids[i]] + rest && ([ids[i]] + rest)[1..] == rest;
      assert available + ([ids[i]] + rest) == available + [ids[i]] + rest;
    }
  }

  /** Works on the rows a transaction has read; the table may have moved on since. */
  class CreditService {
    var table: Table
    var journal: seq<Change>
    ghost const opening: Table

    ghost predicate Valid()
      reads this
    {
      NonNegative(table) && Current(table, journal)
    }

    /** The journal accounts for every credit since the opening. */
    ghost predicate Exact()
      reads this
    {
      Explains(opening, table, journal)
    }

    constructor (table: Table)
      requires NonNegative(table)
      ensures Valid() && Exact() && this.table == table && journal == []
    {
      this.table, this.journal, this.opening := table, [], table;
    }

    /** Saves a row as read with amount more in it, and writes the journal line. */
    method Record(id: nat, row: Row, amount: int, source: string)
      requires Valid() && id in table && row.remaining + amount >= 0
      modifies `table, `journal
      ensures Valid()
      ensures table == old(table)[id := Plus(row, amount)]
      ensures journal == old(journal) + [Line(id, row, amount, source)]
      ensures old(Exact()) ==> (Exact() <==> row == old(table)[id])
    {
      LineKeepsCurrent(table, journal, id, row, amount, source);
      if Exact() { LineExplainsIff(opening, table, journal, id, row, amount, source); }
      table := table[id := row.(remaining := row.remaining + amount)];
      journal := journal + [Change(id, amount, row.remaining + amount, source)];
    }

    /** One turn of the deduction loop: takes what row i can give, at most left. exact: the journal was. */
    method DeductRow(rows: Table, ids: seq<nat>, i: nat, left: int, info: map<nat, int>, source: string,
                     ghost t0: Table, ghost amount: int, ghost exact: bool)
      returns (left': int, info': map<nat, int>)
      requires Valid() && Deducting(t0, rows, table, ids, amount, i, left, info) && i < |ids| && left != 0
      requires exact && FreshOn(rows, t0, info) ==> Exact()
      modifies `table, `journal
      ensures Valid() && Deducting(t0, rows, table, ids, amount, i + 1, left', info')
      ensures exact && FreshOn(rows, t0, info') ==> Exact()
    {
      DeductingStep(t0, rows, table, ids, amount, i, left, info);
      var id := ids[i];
      var deduction := Min(left, rows[id].remaining);
      if deduction == 0 {
        return left, info;
      }
      Record(id, rows[id], -deduction, source);
      left', info' := left - deduction, info[id := deduction];
      assert FreshOn(rows, t0, info') ==> FreshOn(rows, t0, info) && rows[id] == t0[id] by {
        assert forall k :: k in info ==> k in info';
      }
    }

    method PerformDeduction(rows: Table, ids: seq<nat>, amount: nat, source: string) returns (info: map<nat, int>)
      requires Valid() && NonNegative(rows) && rows.Keys == table.Keys && Stored(rows, ids) && Distinct(ids)
      modifies `table, `journal
      ensures Valid()
      ensures info == Take(rows, ids, amount)
      ensures table == Spent(old(table), rows, info)
      ensures old(Exact()) && FreshOn(rows, old(table), info) ==> Exact()
    {
      info := map[];
      var amountToDeduct := amount;
      ghost var t0, exact := table, Exact();
      DeductingStarts(t0, rows, ids, amount);
      var i := 0;
      while i < |ids| && amountToDeduct != 0
        invariant Valid() && Deducting(t0, rows, table, ids, amount, i, amountToDeduct, info)
        invariant exact && FreshOn(rows, t0, info) ==> Exact()
      {
        amountToDeduct, info := DeductRow(rows, ids, i, amountToDeduct, info, source, t0, amount, exact);
        i := i + 1;
      }
      DeductingEnds(t0, rows, table, ids, amount, i, amountToDeduct, info);
    }

    /** rows is the table as the transaction reads it, selected what the query of GetUserAmounts returns
        on it. An error leaves everything as it was. */
    method DeductCreditsWithTx(rows: Table, selected: seq<nat>, amount: nat, isMember: bool, source: string)
      returns (r: Option<map<nat, int>>)
      requires Valid() && NonNegative(rows) && rows.Keys == table.Keys && Stored(rows, selected) && Distinct(selected)
      modifies `table, `journal
      ensures Valid()
      ensures r == Deduction(rows, selected, amount, isMember)
      ensures r.None? ==> table == old(table) && journal == old(journal)
      ensures r.Some? ==> table == Spent(old(table), rows, r.value)
      ensures old(Exact()) && (r.Some? ==> FreshOn(rows, old(table), r.value)) ==> Exact()
    {
      if isMember {
        r := DeductCreditsForMember(rows, selected, amount, source);
      } else {
        r := DeductCreditsForNonMember(rows, selected, amount, source);
      }
    }

    static method SkipFree(rows: Table, selected: seq<nat>) returns (available: seq<nat>, totalBalance: int)
      requires Stored(rows, selected)
      ensures available == NotFree(rows, selected) && totalBalance == Total(rows, available)
    {
      available, totalBalance := [], 0;
      for i := 0 to |selected|
        invariant Skipping(rows, selected, i, available, totalBalance)
      {
        var ua := selected[i];
        SkippingStep(rows, selected, i, available, totalBalance);
        if IsFree(rows[ua].kind) {
          continue;
        }
        available := available + [ua];
        totalBalance := totalBalance + rows[ua].remaining;
      }
      assert NotFree(rows, selected[|selected|..]) == [];
    }

    method DeductCreditsForMember(rows: Table, selected: seq<nat>, amount: nat, source: string)
      returns (r: Option<map<nat, int>>)
      requires Valid() && NonNegative(rows) && rows.Keys == table.Keys && Stored(rows, selected) && Distinct(selected)
      modifies `table, `journal
      ensures Valid()
      ensures r == Deduction(rows, selected, amount, true)
      ensures r.None? ==> table == old(table) && journal == old(journal)
      ensures r.Some? ==> table == Spent(old(table), rows, r.value)
      ensures old(Exact()) && (r.Some? ==> FreshOn(rows, old(table), r.value)) ==> Exact()
    {
      var available, totalBalance := SkipFree(rows, selected);
      if totalBalance < amount {
        return None;
      }
      NotFreeMembers(rows, selected);
      var info := PerformDeduction(rows, available, amount, source);
      r := Some(info);
    }

    static method OneKind(rows: Table, selected: seq<nat>, kind: CreditType) returns (ids: seq<nat>, total: int)
      requires Stored(rows, selected)
      ensures ids == OfKinds(rows, selected, {kind}) && total == Total(rows, ids)
    {
      ids, total := [], 0;
      for i := 0 to |selected|
        invariant OfKinds(rows, selected, {kind}) == ids + OfKinds(rows, selected[i..], {kind})
        invariant total + Total(rows, OfKinds(rows, selected[i..], {kind})) ==
                    Total(rows, OfKinds(rows, selected, {kind}))
      {
        var ua := selected[i];
        assert selected[i..][1..] == selected[i + 1..];
        if rows[ua].kind == kind {
          ids, total := ids + [ua], total + rows[ua].remaining;
        }
      }
    }

    method DeductCreditsForNonMember(rows: Table, selected: seq<nat>, amount: nat, source: string)
      returns (r: Option<map<nat, int>>)
      requires Valid() && NonNegative(rows) && rows.Keys == table.Keys && Stored(rows, selected) && Distinct(selected)
      modifies `table, `journal
      ensures Valid()
      ensures r == Deduction(rows, selected, amount, false)
      ensures r.None? ==> table == old(table) && journal == old(journal)
      ensures r.Some? ==> table == Spent(old(table), rows, r.value)
      ensures old(Exact()) && (r.Some? ==> FreshOn(rows, old(table), r.value)) ==> Exact()
    {
      var dailyFree, dailyFreeTotal := OneKind(rows, selected, DailyFree);
      var purchased, purchasedTotal := OneKind(rows, selected, Purchased);
      var membership, membershipTotal := OneKind(rows, selected, MembershipGrant);
      var eventGrant, eventGrantTotal := OneKind(rows, selected, EventGrant);
      if amount <= dailyFreeTotal {
        OfKindsMembers(rows, selected, {DailyFree});
        var info := PerformDeduction(rows, dailyFree, amount, source);
        return Some(info);
      }
      TotalOfConcat(rows, purchased, membership);
      TotalOfConcat(rows, purchased + membership, eventGrant);
      if amount <= purchasedTotal + membershipTotal + eventGrantTotal {
        PaidMembers(rows, selected);
        var info := PerformDeduction(rows, purchased + membership + eventGrant, amount, source);
        return Some(info);
      }
      r := None;
    }

    /** info is the task's deduction record, None for a task that was never charged; rows is what the
        refund's own transaction read. Rows it did not find are skipped. */
    method RefundCredits(rows: Table, info: Option<map<nat, int>>, source: string)
      requires Valid() && NonNegative(rows) && rows.Keys <= table.Keys
      requires info.Some? ==> forall id :: id in info.value ==> info.value[id] >= 0
      modifies `table, `journal
      ensures Valid()
      ensures table == if info.None? then old(table) else Repaid(old(table), rows, info.value)
      ensures old(Exact()) && (info.Some? ==> FreshOn(rows, old(table), info.value)) ==> Exact()
    {
      if info.None? {
        return;
      }
      ghost var t0, exact := table, Exact();
      ghost var done: map<nat, int> := map[];
      var todo := info.value.Keys;
      assert table == Repaid(t0, rows, done);
      while todo != {}
        invariant Valid() && todo <= info.value.Keys && done.Keys == info.value.Keys - todo
        invariant forall id :: id in done ==> done[id] == info.value[id]
        invariant table == Repaid(t0, rows, done)
        invariant exact && FreshOn(rows, t0, done) ==> Exact()
      {
        var id :| id in todo;
        RefundRow(rows, id, info.value[id], source, t0, done, exact);
        done := done[id := info.value[id]];
        todo := todo - {id};
      }
      assert done == info.value;
    }

    /** One turn of the refund loop. */
    method RefundRow(rows: Table, id: nat, amount: int, source: string, ghost t0: Table, ghost done: map<nat, int>,
                     ghost exact: bool)
      requires Valid() && NonNegative(rows) && rows.Keys <= table.Keys && amount >= 0 && id !in done
      requires table == Repaid(t0, rows, done)
      requires exact && FreshOn(rows, t0, done) ==> Exact()
      modifies `table, `journal
      ensures Valid() && table == Repaid(t0, rows, done[id := amount])
      ensures exact && FreshOn(rows, t0, done[id := amount]) ==> Exact()
    {
      assert FreshOn(rows, t0, done[id := amount]) ==>
               FreshOn(rows, t0, done) && (id in rows ==> rows[id] == t0[id]) by {
        assert forall k :: k in done ==> k in done[id := amount];
      }
      if id in rows {
        OneMoreSaved(t0, rows, done, id, amount);
        Record(id, rows[id], amount, source);
      } else {
        assert Repaid(t0, rows, done[id := amount]) == Repaid(t0, rows, done);
      }
    }
  }

  // ----- properties of a deduction -----

  lemma {:induction false} OfKindsMembers(t: Table, ids: seq<nat>, kinds: set<CreditType>)
    requires Stored(t, ids)
    ensures forall id :: id in OfKinds(t, ids, kinds) <==> id in ids && t[id].kind in kinds
    ensures Distinct(ids) ==> Distinct(OfKinds(t, ids, kinds))
  {
    if ids != [] {
      OfKindsMembers(t, ids[1..], kinds);
    }
  }

  lemma {:induction false} NotFreeMembers(t: Table, ids: seq<nat>)
    requires Stored(t, ids)
    ensures forall id :: id in NotFree(t, ids) <==> id in ids && !IsFree(t[id].kind)
    ensures Distinct(ids) ==> Distinct(NotFree(t, ids))
  {
    if ids != [] {
      NotFreeMembers(t, ids[1..]);
    }
  }

  lemma PaidMembers(t: Table, ids: seq<nat>)
    requires Stored(t, ids)
    ensures forall id :: id in Paid(t, ids) <==> id in ids && t[id].kind in {Purchased, MembershipGrant, EventGrant}
    ensures Distinct(ids) ==> Distinct(Paid(t, ids))
  {
    OfKindsMembers(t, ids, {Purchased});
    OfKindsMembers(t, ids, {MembershipGrant});
    OfKindsMembers(t, ids, {EventGrant});
    if Distinct(ids) {
      DistinctConcat(OfKinds(t, ids, {Purchased}), OfKinds(t, ids, {MembershipGrant}));
      DistinctConcat(OfKinds(t, ids, {Purchased}) + OfKinds(t, ids, {MembershipGrant}), OfKinds(t, ids, {EventGrant}));
    }
  }

  lemma DistinctConcat(a: seq<nat>, b: seq<nat>)
    requires Distinct(a) && Distinct(b) && forall id :: id in a ==> id !in b
    ensures Distinct(a + b)
  {
    forall i, j | 0 <= i < j < |a + b|
      ensures (a + b)[i] != (a + b)[j]
    {
      if i < |a| <= j {
        assert a[i] in a && b[j - |a|] in b;
      }
    }
  }

  lemma {:induction false} TotalOfConcat(t: Table, a: seq<nat>, b: seq<nat>)
    requires Stored(t, a) && Stored(t, b)
    ensures Total(t, a + b) == Total(t, a) + Total(t, b)
  {
    if a == [] {
      assert a + b == b;
    } else {
      assert (a + b)[1..] == a[1..] + b;
      TotalOfConcat(t, a[1..], b);
    }
  }

  lemma {:induction false} TakeStaysInside(t: Table, ids: seq<nat>, amount: int)
    requires Stored(t, ids) && NonNegative(t) && amount >= 0
    ensures forall id :: id in Take(t, ids, amount) ==>
              id in ids && id in t && 0 < Take(t, ids, amount)[id] <= t[id].remaining
  {
    if ids != [] && amount != 0 {
      var d := Min(amount, t[ids[0]].remaining);
      TakeStaysInside(t, ids[1..], amount - d);
    }
  }

  /** The records of a deduction sum to the charge, or to everything there was. */
  lemma {:induction false} TakeSum(t: Table, ids: seq<nat>, amount: int)
    requires Stored(t, ids) && Distinct(ids) && NonNegative(t) && amount >= 0
    ensures Sum(Take(t, ids, amount)) == Min(amount, Total(t, ids))
    ensures Total(t, ids) >= 0
  {
    if ids != [] {
      var d := Min(amount, t[ids[0]].remaining);
      TakeSum(t, ids[1..], amount - d);
      TakeStaysInside(t, ids[1..], amount - d);
      if amount != 0 && d != 0 {
        SumInsert(Take(t, ids[1..], amount - d), ids[0], d);
      }
    }
  }

  /** A later row is touched only when every earlier one has been emptied. */
  lemma {:induction false} TakeDrainsInOrder(t: Table, ids: seq<nat>, amount: int, i: nat, j: nat)
    requires Stored(t, ids) && Distinct(ids) && NonNegative(t) && amount >= 0 && i < j < |ids|
    requires ids[j] in Take(t, ids, amount)
    ensures At(Take(t, ids, amount), ids[i]) == t[ids[i]].remaining
  {
    var d := Min(amount, t[ids[0]].remaining);
    TakeStaysInside(t, ids[1..], amount - d);
    if i > 0 {
      TakeDrainsInOrder(t, ids[1..], amount - d, i - 1, j - 1);
    }
  }

  lemma PoolIsSound(t: Table, ids: seq<nat>, amount: nat, isMember: bool)
    requires Stored(t, ids) && Distinct(ids)
    ensures var pool := Pool(t, ids, amount, isMember);
            pool.Some? ==>
              && Distinct(pool.value) && Total(t, pool.value) >= amount
              && (forall id :: id in pool.value ==> id in ids)
              && ((forall id :: id in pool.value ==> IsFree(t[id].kind)) ||
                  (forall id :: id in pool.value ==> !IsFree(t[id].kind)))
              && (isMember ==> forall id :: id in pool.value ==> !IsFree(t[id].kind))
  {
    if isMember {
      NotFreeMembers(t, ids);
    } else {
      OfKindsMembers(t, ids, {DailyFree});
      PaidMembers(t, ids);
    }
  }

  /** A deduction is all or nothing, never overdraws a row, and keeps the daily free credits apart. */
  lemma DeductionIsSound(t: Table, ids: seq<nat>, amount: nat, isMember: bool)
    requires Stored(t, ids) && Distinct(ids) && NonNegative(t)
    ensures Deduction(t, ids, amount, isMember).None? <==>
              if isMember then Total(t, NotFree(t, ids)) < amount
              else Total(t, OfKinds(t, ids, {DailyFree})) < amount && Total(t, Paid(t, ids)) < amount
    ensures Deduction(t, ids, amount, isMember).Some? ==>
              var info := Deduction(t, ids, amount, isMember).value;
              && Sum(info) == amount
              && (forall id :: id in info ==> id in ids && id in t && 0 < info[id] <= t[id].remaining)
              && (isMember ==> forall id :: id in info ==> !IsFree(t[id].kind))
              && ((forall id :: id in info ==> IsFree(t[id].kind)) || (forall id :: id in info ==> !IsFree(t[id].kind)))
  {
    PoolIsSound(t, ids, amount, isMember);
    var pool := Pool(t, ids, amount, isMember);
    if pool.Some? {
      TakeSum(t, pool.value, amount);
      TakeStaysInside(t, pool.value, amount);
    }
  }

  lemma LessTotal(t: Table, info: map<nat, int>)
    requires info.Keys <= t.Keys
    ensures TotalCredits(Less(t, info)) == TotalCredits(t) - Sum(info)
  {
    SumOfPointwise(Balances(Less(t, info)), info, Balances(t));
  }

  lemma MoreTotal(t: Table, info: map<nat, int>)
    requires info.Keys <= t.Keys
    ensures TotalCredits(More(t, info)) == TotalCredits(t) + Sum(info)
  {
    SumOfPointwise(Balances(t), info, Balances(More(t, info)));
  }

  /** Refunding the record of a deduction restores every row. */
  lemma RefundUndoesDeduction(t: Table, ids: seq<nat>, amount: nat, isMember: bool)
    requires Stored(t, ids) && Distinct(ids) && NonNegative(t) && Deduction(t, ids, amount, isMember).Some?
    ensures var info := Deduction(t, ids, amount, isMember).value;
            More(Less(t, info), info) == t && TotalCredits(Less(t, info)) == TotalCredits(t) - amount
  {
    DeductionIsSound(t, ids, amount, isMember);
    var info := Deduction(t, ids, amount, isMember).value;
    LessTotal(t, info);
    assert More(Less(t, info), info) == t;
  }

  // ----- which rows a deduction draws on, and in what order -----

  ghost function Holdings(t: Table, ids: set<nat>): map<nat, int> {
    map id | id in ids && id in t :: t[id].remaining
  }

  /** What the rows of a set hold, in no order. */
  ghost function TotalOver(t: Table, ids: set<nat>): int {
    Sum(Holdings(t, ids))
  }

  ghost function DailyRows(t: Table, ids: seq<nat>): set<nat> {
    set id | id in ids && id in t && t[id].kind == DailyFree
  }

  ghost function OtherRows(t: Table, ids: seq<nat>): set<nat> {
    set id | id in ids && id in t && t[id].kind != DailyFree
  }

  ghost function PaidRows(t: Table, ids: seq<nat>): set<nat> {
    set id | id in ids && id in t &&
             (t[id].kind == Purchased || t[id].kind == MembershipGrant || t[id].kind == EventGrant)
  }

  lemma {:induction false} TotalInAnyOrder(t: Table, ids: seq<nat>, s: set<nat>)
    requires Stored(t, ids) && Distinct(ids) && forall id :: id in s <==> id in ids
    ensures Total(t, ids) == TotalOver(t, s)
  {
    if ids == [] {
      OverNothing(t, s);
    } else {
      assert forall id :: id in ids <==> id == ids[0] || id in ids[1..];
      TotalInAnyOrder(t, ids[1..], s - {ids[0]});
      OverOneMore(t, s, ids[0]);
    }
  }

  lemma OverNothing(t: Table, s: set<nat>)
    requires s == {}
    ensures TotalOver(t, s) == 0
  {
    assert Holdings(t, s) == map[];
  }

  lemma OverOneMore(t: Table, s: set<nat>, id: nat)
    requires id in s && id in t
    ensures TotalOver(t, s) == t[id].remaining + TotalOver(t, s - {id})
  {
    SumInsert(Holdings(t, s - {id}), id, t[id].remaining);
    assert Holdings(t, s) == Holdings(t, s - {id})[id := t[id].remaining];
  }

  lemma OtherTotal(t: Table, ids: seq<nat>)
    requires Stored(t, ids) && Distinct(ids)
    ensures Total(t, NotFree(t, ids)) == TotalOver(t, OtherRows(t, ids))
    ensures forall id :: id in NotFree(t, ids) <==> id in OtherRows(t, ids)
  {
    NotFreeMembers(t, ids);
    TotalInAnyOrder(t, NotFree(t, ids), OtherRows(t, ids));
  }

  lemma DailyTotal(t: Table, ids: seq<nat>)
    requires Stored(t, ids) && Distinct(ids)
    ensures Total(t, OfKinds(t, ids, {DailyFree})) == TotalOver(t, DailyRows(t, ids))
    ensures forall id :: id in OfKinds(t, ids, {DailyFree}) <==> id in DailyRows(t, ids)
  {
    OfKindsMembers(t, ids, {DailyFree});
    TotalInAnyOrder(t, OfKinds(t, ids, {DailyFree}), DailyRows(t, ids));
  }

  lemma PaidTotal(t: Table, ids: seq<nat>)
    requires Stored(t, ids) && Distinct(ids)
    ensures Total(t, Paid(t, ids)) == TotalOver(t, PaidRows(t, ids))
    ensures forall id :: id in Paid(t, ids) <==> id in PaidRows(t, ids)
  {
    PaidMembers(t, ids);
    TotalInAnyOrder(t, Paid(t, ids), PaidRows(t, ids));
  }

  /** The rows drawn on: a member's are all but the daily ones; another user's are the daily ones exactly
      when these cover the amount, and else the paid kinds when those do. */
  lemma DeductionChoosesRows(t: Table, ids: seq<nat>, amount: nat, isMember: bool)
    requires Stored(t, ids) && Distinct(ids) && NonNegative(t) && amount > 0
    ensures Deduction(t, ids, amount, isMember).Some? <==>
              if isMember then amount <= TotalOver(t, OtherRows(t, ids))
              else amount <= TotalOver(t, DailyRows(t, ids)) || amount <= TotalOver(t, PaidRows(t, ids))
    ensures Deduction(t, ids, amount, isMember).Some? ==>
              forall id :: id in Deduction(t, ids, amount, isMember).value ==>
                id in (if isMember then OtherRows(t, ids)
                       else if amount <= TotalOver(t, DailyRows(t, ids)) then DailyRows(t, ids) else PaidRows(t, ids))
  {
    OtherTotal(t, ids);
    DailyTotal(t, ids);
    PaidTotal(t, ids);
    var pool := Pool(t, ids, amount, isMember);
    if pool.Some? { TakeStaysInside(t, pool.value, amount); }
  }

  lemma {:induction false} OfKindsOrder(t: Table, ids: seq<nat>, kinds: set<CreditType>, i: nat, j: nat)
    returns (x: nat, y: nat)
    requires Stored(t, ids) && i <= j < |ids| && t[ids[i]].kind in kinds && t[ids[j]].kind in kinds
    ensures x < |OfKinds(t, ids, kinds)| && y < |OfKinds(t, ids, kinds)|
    ensures OfKinds(t, ids, kinds)[x] == ids[i] && OfKinds(t, ids, kinds)[y] == ids[j]
    ensures i < j ==> x < y
    decreases |ids|
  {
    var d := if t[ids[0]].kind in kinds then 1 else 0;
    if i > 0 {
      x, y := OfKindsOrder(t, ids[1..], kinds, i - 1, j - 1);
      x, y := x + d, y + d;
    } else if j > 0 {
      x, y := OfKindsOrder(t, ids[1..], kinds, j - 1, j - 1);
      x, y := 0, y + 1;
    } else {
      x, y := 0, 0;
    }
  }

  lemma {:induction false} NotFreeOrder(t: Table, ids: seq<nat>, i: nat, j: nat) returns (x: nat, y: nat)
    requires Stored(t, ids) && i <= j < |ids| && t[ids[i]].kind != DailyFree && t[ids[j]].kind != DailyFree
    ensures x < |NotFree(t, ids)| && y < |NotFree(t, ids)|
    ensures NotFree(t, ids)[x] == ids[i] && NotFree(t, ids)[y] == ids[j]
    ensures i < j ==> x < y
    decreases |ids|
  {
    var d := if IsFree(t[ids[0]].kind) then 0 else 1;
    if i > 0 {
      x, y := NotFreeOrder(t, ids[1..], i - 1, j - 1);
      x, y := x + d, y + d;
    } else if j > 0 {
      x, y := NotFreeOrder(t, ids[1..], j - 1, j - 1);
      x, y := 0, y + 1;
    } else {
      x, y := 0, 0;
    }
  }

  /** The paid kinds in the order they are spent. */
  function Rank(k: CreditType): int {
    match k
    case Purchased => 0
    case MembershipGrant => 1
    case EventGrant => 2
    case _ => 3
  }

  /** Where row i of the list stands among the paid rows. */
  lemma PaidAt(t: Table, ids: seq<nat>, i: nat) returns (x: nat)
    requires Stored(t, ids) && i < |ids| && Rank(t[ids[i]].kind) < 3
    ensures x < |Paid(t, ids)| && Paid(t, ids)[x] == ids[i]
    ensures var p, m := |OfKinds(t, ids, {Purchased})|, |OfKinds(t, ids, {MembershipGrant})|;
            match Rank(t[ids[i]].kind) case 0 => x < p case 1 => p <= x < p + m case _ => p + m <= x
  {
    var y;
    x, y := OfKindsOrder(t, ids, {t[ids[i]].kind}, i, i);
    var p, m := |OfKinds(t, ids, {Purchased})|, |OfKinds(t, ids, {MembershipGrant})|;
    x := match Rank(t[ids[i]].kind) case 0 => x case 1 => p + x case _ => p + m + x;
  }

  /** Positions of two paid rows, the first of which is spent first. */
  lemma PaidOrder(t: Table, ids: seq<nat>, i: nat, j: nat) returns (x: nat, y: nat)
    requires Stored(t, ids) && i < |ids| && j < |ids| && Rank(t[ids[j]].kind) < 3
    requires Rank(t[ids[i]].kind) < Rank(t[ids[j]].kind) || (t[ids[i]].kind == t[ids[j]].kind && i < j)
    ensures x < y < |Paid(t, ids)| && Paid(t, ids)[x] == ids[i] && Paid(t, ids)[y] == ids[j]
  {
    if t[ids[i]].kind == t[ids[j]].kind {
      x, y := OfKindsOrder(t, ids, {t[ids[i]].kind}, i, j);
      var p, m := |OfKinds(t, ids, {Purchased})|, |OfKinds(t, ids, {MembershipGrant})|;
      var offset := match Rank(t[ids[i]].kind) case 0 => 0 case 1 => p case _ => p + m;
      x, y := x + offset, y + offset;
    } else {
      x := PaidAt(t, ids, i);
      y := PaidAt(t, ids, j);
    }
  }

  /** Row i of the list is spent before row j. */
  predicate SpentBefore(t: Table, ids: seq<nat>, i: nat, j: nat, isMember: bool)
    requires Stored(t, ids) && i < |ids| && j < |ids|
  {
    var a, b := t[ids[i]].kind, t[ids[j]].kind;
    if isMember then i < j && a != DailyFree
    else (a == b && i < j) || (b == MembershipGrant && a == Purchased)
         || (b == EventGrant && (a == Purchased || a == MembershipGrant))
  }

  /** A row is touched only when every row spent before it has been emptied: inside a kind, and for members
      among all but the daily rows, by the order of the list; across kinds purchased, membership, event. */
  lemma DeductionDrainsInOrder(t: Table, ids: seq<nat>, amount: nat, isMember: bool, i: nat, j: nat)
    requires Stored(t, ids) && Distinct(ids) && NonNegative(t) && i < |ids| && j < |ids|
    requires Deduction(t, ids, amount, isMember).Some? && ids[j] in Deduction(t, ids, amount, isMember).value
    requires SpentBefore(t, ids, i, j, isMember)
    ensures At(Deduction(t, ids, amount, isMember).value, ids[i]) == t[ids[i]].remaining
  {
    PoolIsSound(t, ids, amount, isMember);
    var x, y := PoolOrder(t, ids, amount, isMember, i, j);
    TakeDrainsInOrder(t, Pool(t, ids, amount, isMember).value, amount, x, y);
  }

  lemma PoolOrder(t: Table, ids: seq<nat>, amount: nat, isMember: bool, i: nat, j: nat) returns (x: nat, y: nat)
    requires Stored(t, ids) && Distinct(ids) && NonNegative(t) && i < |ids| && j < |ids|
    requires Deduction(t, ids, amount, isMember).Some? && ids[j] in Deduction(t, ids, amount, isMember).value
    requires SpentBefore(t, ids, i, j, isMember)
    ensures var pool := Pool(t, ids, amount, isMember);
            pool.Some? && x < y < |pool.value| && pool.value[x] == ids[i] && pool.value[y] == ids[j]
  {
    var pool := Pool(t, ids, amount, isMember).value;
    TakeStaysInside(t, pool, amount);
    if isMember {
      NotFreeMembers(t, ids);
      x, y := NotFreeOrder(t, ids, i, j);
    } else if amount <= Total(t, OfKinds(t, ids, {DailyFree})) {
      OfKindsMembers(t, ids, {DailyFree});
      x, y := OfKindsOrder(t, ids, {DailyFree}, i, j);
    } else {
      PaidMembers(t, ids);
      x, y := PaidOrder(t, ids, i, j);
    }
  }

  /** On what the query returned: only live rows of the user are charged, and of two of one kind the one that
      expires first is emptied first; for members of any two that are not daily ones. */
  lemma SoonestExpiryFirst(t: Table, ids: seq<nat>, project: string, user: string, now: int, amount: nat,
                           isMember: bool, a: nat, b: nat)
    requires IsQueryResult(t, project, user, now, ids) && NonNegative(t)
    requires Deduction(t, ids, amount, isMember).Some? && b in Deduction(t, ids, amount, isMember).value
    ensures b in t && t[b].project == project && t[b].user == user && t[b].expiresAt > now
    ensures a in t && t[a].project == project && t[a].user == user && now < t[a].expiresAt < t[b].expiresAt &&
            (t[a].kind == t[b].kind || (isMember && t[a].kind != DailyFree)) ==>
              At(Deduction(t, ids, amount, isMember).value, a) == t[a].remaining
  {
    DeductionIsSound(t, ids, amount, isMember);
    if a in t && t[a].project == project && t[a].user == user && now < t[a].expiresAt < t[b].expiresAt &&
       (t[a].kind == t[b].kind || (isMember && t[a].kind != DailyFree))
    {
      if t[a].remaining > 0 {
        assert Eligible(t[a], project, user, now);
        var i :| 0 <= i < |ids| && ids[i] == a;
        var j :| 0 <= j < |ids| && ids[j] == b;
        DeductionDrainsInOrder(t, ids, amount, isMember, i, j);
      } else {
        assert a !in ids;
      }
    }
  }
}
