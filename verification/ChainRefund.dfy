/** Refunds of a two-step chain, charged once and paid back in proportion. The float ratio of the
    source is an exact fraction num/den here. */
module ChainRefund {
  import opened Basics
  import opened MapSum
  import opened Credits

  predicate Charged(records: map<nat, int>) {
    forall k :: k in records ==> records[k] > 0
  }

  function Share(amount: int, num: int, den: int): int
    requires den > 0
  {
    amount * num / den
  }

  /** Shares rounded down, zero shares dropped. */
  function PartialRecords(records: map<nat, int>, num: int, den: int): map<nat, int>
    requires den > 0
  {
    map k | k in records && Share(records[k], num, den) > 0 :: Share(records[k], num, den)
  }

  /** What the second step cost: its price, else the configured price of its API, else half the chain. */
  function SecondStepCredits(workflowCredits: int, apiIden: string, configured: Option<int>, totalCost: nat): int {
    if workflowCredits > 0 then workflowCredits
    else if apiIden != "" && configured.Some? then configured.value
    else totalCost / 2
  }

  /** The records refunded when the second step fails without a chain service: the ratio is clipped at 1. */
  function SecondStepRefund(records: map<nat, int>, secondStep: int, totalCost: nat): map<nat, int> {
    if secondStep <= 0 || records == map[] then map[]
    else if secondStep > totalCost || totalCost == 0 then PartialRecords(records, 1, 1)
    else PartialRecords(records, secondStep, totalCost)
  }

  method CalculatePartialRefundInfo(records: map<nat, int>, num: int, den: int) returns (partial: map<nat, int>)
    requires den > 0
    ensures partial == PartialRecords(records, num, den)
  {
    partial := map[];
    var todo := records.Keys;
    while todo != {}
      invariant todo <= records.Keys
      invariant forall k :: k in partial <==> k in records && k !in todo && Share(records[k], num, den) > 0
      invariant forall k :: k in partial ==> partial[k] == Share(records[k], num, den)
    {
      var amountID :| amountID in todo;
      var partialAmount := Share(records[amountID], num, den);
      if partialAmount > 0 {
        partial := partial[amountID := partialAmount];
      }
      todo := todo - {amountID};
    }
  }

  // ----- rounding -----

  lemma ShareBounds(amount: int, num: int, den: int)
    requires den > 0 && amount >= 0 && num >= 0
    ensures amount * num - (den - 1) <= den * Share(amount, num, den) <= amount * num
    ensures Share(amount, num, den) >= 0
  {
    var p := amount * num;
    assert p >= 0;
    assert p == den * (p / den) + p % den;
  }

  lemma ShareWithinAmount(amount: int, num: int, den: int)
    requires den > 0 && amount >= 0 && 0 <= num <= den
    ensures Share(amount, num, den) <= amount
  {
    ShareBounds(amount, num, den);
    assert amount * num <= amount * den;
    Cancel(den, Share(amount, num, den), amount);
  }

  lemma Cancel(d: int, x: int, y: int)
    requires d > 0 && d * x <= d * y
    ensures x <= y
  {
    assert d * (x - y) <= 0;
  }

  lemma OneMoreShare(num: int, den: int, record: int, share: int, a: int, b: int, n: int)
    requires num * a - n * (den - 1) <= den * b <= num * a
    requires record * num - (den - 1) <= den * share <= record * num
    ensures num * (record + a) - (n + 1) * (den - 1) <= den * (share + b) <= num * (record + a)
  {
    assert num * (record + a) == record * num + num * a;
    assert den * (share + b) == den * share + den * b;
    assert (n + 1) * (den - 1) == n * (den - 1) + (den - 1);
  }

  lemma {:induction false} SharesSum(records: map<nat, int>, shares: map<nat, int>, s: set<nat>, num: int, den: int)
    requires den > 0 && num >= 0 && s <= records.Keys && s <= shares.Keys
    requires forall k :: k in s ==> records[k] >= 0 && shares[k] == Share(records[k], num, den)
    ensures num * SumOn(records, s) - |s| * (den - 1) <= den * SumOn(shares, s) <= num * SumOn(records, s)
    decreases |s|
  {
    if s != {} {
      var k :| k in s;
      SharesSum(records, shares, s - {k}, num, den);
      SumOnRemove(records, s, k);
      SumOnRemove(shares, s, k);
      ShareBounds(records[k], num, den);
      OneMoreShare(num, den, records[k], shares[k], SumOn(records, s - {k}), SumOn(shares, s - {k}), |s - {k}|);
    }
  }

  /** Refunding amount out of a charge of total records: at most amount, and short by less than one
      credit a record. */
  lemma PartialRefundBounds(records: map<nat, int>, amount: int, total: int)
    requires Charged(records) && total == Sum(records) > 0 && amount >= 0
    ensures amount - |records| < Sum(PartialRecords(records, amount, total)) <= amount
  {
    var shares := map k | k in records :: Share(records[k], amount, total);
    SharesSum(records, shares, records.Keys, amount, total);
    forall k | k in records ensures shares[k] >= 0 { ShareBounds(records[k], amount, total); }
    SumOnExtend(PartialRecords(records, amount, total), shares, records.Keys);
    var n, r := |records|, SumOn(shares, records.Keys);
    NotEmpty(records);
    assert |records.Keys| == n;
    Squeeze(n, total, amount, r);
  }

  lemma NotEmpty(records: map<nat, int>)
    requires Sum(records) > 0
    ensures |records| > 0
  {
    assert |records| == 0 ==> records.Keys == {};
  }

  lemma Spread(total: int, amount: int, n: int)
    ensures total * (amount - n) == amount * total - n * (total - 1) - n
  {
  }

  lemma Squeeze(n: int, total: int, amount: int, r: int)
    requires n >= 1 && total >= 1
    requires amount * total - n * (total - 1) <= total * r <= amount * total
    ensures amount - n < r <= amount
  {
    Cancel(total, r, amount);
    Spread(total, amount, n);
    Cancel(total, amount - n, r);
    assert r != amount - n;
  }

  // ----- main results -----

  /** The clipped refund of the second step: never more than a record gave, in total at most
      min(s, T), and more than min(s, T) - n. */
  lemma SecondStepRefundBounds(records: map<nat, int>, s: int)
    requires Charged(records) && Sum(records) > 0 && s > 0
    ensures var refund := SecondStepRefund(records, s, Sum(records));
            && refund.Keys <= records.Keys
            && (forall k :: k in refund ==> 0 < refund[k] <= records[k])
            && Min(s, Sum(records)) - |records| < Sum(refund) <= Min(s, Sum(records))
  {
    var total := Sum(records);
    if s > total {
      assert PartialRecords(records, 1, 1) == records;
      NotEmpty(records);
    } else {
      PartialRefundBounds(records, s, total);
      forall k | k in records ensures Share(records[k], s, total) <= records[k] {
        ShareWithinAmount(records[k], s, total);
      }
    }
  }

  /** From price to refund: a second step that costs nothing gives nothing back; one that has a price,
      of its own or configured, gives it back up to the charge and within n; one without any gives
      half the charge back, within n. */
  lemma FallbackRefundBounds(records: map<nat, int>, workflowCredits: int, apiIden: string, configured: Option<int>)
    requires Charged(records) && Sum(records) > 0
    ensures var total, n := Sum(records), |records|;
            var s := SecondStepCredits(workflowCredits, apiIden, configured, total);
            var refunded := Sum(SecondStepRefund(records, s, total));
            && (workflowCredits > 0 ==> Min(workflowCredits, total) - n < refunded <= Min(workflowCredits, total))
            && (workflowCredits <= 0 && apiIden != "" && configured.Some? ==>
                  if configured.value <= 0 then refunded == 0
                  else Min(configured.value, total) - n < refunded <= Min(configured.value, total))
            && (workflowCredits <= 0 && (apiIden == "" || configured.None?) ==>
                2 * refunded <= total <= 2 * (refunded + n))
  {
    var s := SecondStepCredits(workflowCredits, apiIden, configured, Sum(records));
    if s > 0 {
      SecondStepRefundBounds(records, s);
    } else {
      assert Sum(map[]) == 0;
      NotEmpty(records);
    }
  }

  /** Both tasks of a chain carry the record of the whole charge. When one of them fails, its own
      refund pays all of it back if the task has a positive cost stored, and the chain's refund of
      amount out of the charge comes on top, with a ratio that is not clipped. */
  function ChainFailure(t: Table, records: map<nat, int>, stored: int, amount: int, total: nat): Table
    requires total > 0
  {
    var own := if stored > 0 then More(t, records) else t;
    if amount > 0 then More(own, PartialRecords(records, amount, total)) else own
  }

  /** The fallback without the chain service: the task's own refund again depends on its stored cost, and
      the ratio is clipped. */
  function SecondStepFailure(t: Table, records: map<nat, int>, stored: int, s: int, total: nat): Table {
    More(if stored > 0 then More(t, records) else t, SecondStepRefund(records, s, total))
  }

  /** A refund of amount stays within the charge exactly when amount does, or what it exceeds the charge
      by adds no whole credit to any record. */
  lemma PartialWithinChargeIff(records: map<nat, int>, amount: int, total: int)
    requires Charged(records) && total == Sum(records) > 0 && amount > 0
    ensures Sum(PartialRecords(records, amount, total)) <= total <==>
              amount <= total || forall k :: k in records ==> records[k] * (amount - total) < total
  {
    if amount <= total {
      PartialRefundBounds(records, amount, total);
    } else {
      var extra := PartialRecords(records, amount - total, total);
      forall k | k in records ensures Share(records[k], amount, total) == records[k] + At(extra, k) > 0 {
        ShareBeyond(records[k], amount - total, total);
        ShareBounds(records[k], amount - total, total);
      }
      SumOfPointwise(records, extra, PartialRecords(records, amount, total));
      NoShareIffSmall(records, amount - total, total);
      if k :| k in extra { PositiveSum(extra, k); } else { assert extra == map[]; }
    }
  }

  lemma ShareBeyond(amount: int, excess: int, den: int)
    requires den > 0
    ensures Share(amount, den + excess, den) == amount + Share(amount, excess, den)
  {
    assert amount * (den + excess) == amount * den + amount * excess;
    WholePart(amount, amount * excess, den);
  }

  lemma WholePart(n: int, x: int, d: int)
    requires d > 0
    ensures (n * d + x) / d == n + x / d
  {
    var q, r := x / d, x % d;
    assert n * d + x == d * (n + q) + r;
    Quotient(n * d + x, d, n + q, r);
  }

  lemma Quotient(x: int, d: int, q: int, r: int)
    requires d > 0 && 0 <= r < d && x == d * q + r
    ensures x / d == q
  {
    var p := x / d;
    assert x == d * p + x % d;
    assert d * (p - q) == r - x % d;
    Between(d, p - q);
  }

  lemma Between(d: int, z: int)
    requires d > 0 && -d < d * z < d
    ensures z == 0
  {
    assert z >= 1 ==> d * z >= d;
    assert z <= -1 ==> d * z <= -d;
  }

  lemma ChainFailureTotal(t: Table, records: map<nat, int>, stored: int, amount: int)
    requires Charged(records) && Sum(records) > 0 && records.Keys <= t.Keys
    ensures TotalCredits(ChainFailure(t, records, stored, amount, Sum(records))) ==
              TotalCredits(t) + (if stored > 0 then Sum(records) else 0)
              + if amount > 0 then Sum(PartialRecords(records, amount, Sum(records))) else 0
  {
    MoreTotal(t, records);
    var own := if stored > 0 then More(t, records) else t;
    MoreTotal(own, PartialRecords(records, amount, Sum(records)));
  }

  /** The two refunds of a failed chain task stay within the charge exactly when the chain's is nothing;
      or it adds no whole credit to any record; or the task itself got nothing and the chain's is
      within the charge, or exceeds it by too little to add a whole credit. */
  lemma ChainFailureWithinChargeIff(t: Table, records: map<nat, int>, stored: int, amount: int)
    requires Charged(records) && Sum(records) > 0 && records.Keys <= t.Keys
    ensures TotalCredits(ChainFailure(t, records, stored, amount, Sum(records))) <= TotalCredits(t) + Sum(records) <==>
              || amount <= 0
              || (stored > 0 && forall k :: k in records ==> records[k] * amount < Sum(records))
              || (stored <= 0 && amount <= Sum(records))
              || (stored <= 0 && forall k :: k in records ==> records[k] * (amount - Sum(records)) < Sum(records))
  {
    ChainFailureTotal(t, records, stored, amount);
    if amount > 0 {
      if stored > 0 {
        NoShareIffSmall(records, amount, Sum(records));
        var shares := PartialRecords(records, amount, Sum(records));
        if k :| k in shares { PositiveSum(shares, k); } else { assert shares == map[]; }
      } else {
        PartialWithinChargeIff(records, amount, Sum(records));
      }
    }
  }

  /** The first step: it has its listed price stored, or nothing when images are free for the user, and
      the charge was that and the second price. On failure the chain asks for both listed prices. The
      two refunds stay within the charge exactly when nothing was paid for the first step and its
      listed price adds no whole credit to any record. */
  lemma FirstStepWithinChargeIff(t: Table, records: map<nat, int>, stored: int, first: int, second: int)
    requires Charged(records) && Sum(records) == stored + second > 0 && records.Keys <= t.Keys
    requires stored == first || stored == 0
    ensures TotalCredits(ChainFailure(t, records, stored, first + second, Sum(records))) <=
              TotalCredits(t) + Sum(records) <==>
              stored <= 0 && (first <= 0 || forall k :: k in records ==> records[k] * first < second)
  {
    ChainFailureWithinChargeIff(t, records, stored, first + second);
    if stored > 0 {
      var k := SomeRecord(records);
      AtLeast(records[k], Sum(records));
    }
  }

  lemma SomeRecord(records: map<nat, int>) returns (k: nat)
    requires Sum(records) > 0
    ensures k in records
  {
    NotEmpty(records);
    assert records.Keys != {};
    k :| k in records;
  }

  /** A first step that was paid for is refunded twice in full: every row gains its record twice. */
  lemma FirstStepFailurePaysTwice(t: Table, records: map<nat, int>, first: int, second: int)
    requires Charged(records) && first > 0 && Sum(records) == first + second > 0 && records.Keys <= t.Keys
    ensures ChainFailure(t, records, first, first + second, Sum(records)) == More(More(t, records), records)
    ensures TotalCredits(ChainFailure(t, records, first, first + second, Sum(records))) ==
              TotalCredits(t) + 2 * Sum(records)
  {
    WholeShares(records, Sum(records));
    ChainFailureTotal(t, records, first, first + second);
  }

  /** A first step that was free for a member: the chain still refunds its listed price with the rest. */
  lemma FreeFirstStepOverpays(t: Table)
    requires 1 in t
    ensures TotalCredits(ChainFailure(t, map[1 := 10], 0, 10 + 10, 10)) == TotalCredits(t) + 20
  {
    var records: map<nat, int> := map[1 := 10];
    SumInsert(map[], 1, 10);
    assert records == map[][1 := 10];
    assert PartialRecords(records, 20, 10) == map[1 := 20];
    SumInsert(map[], 1, 20);
    assert map[1 := 20] == map[][1 := 20];
    ChainFailureTotal(t, records, 0, 20);
  }

  /** The second step with the chain service, whatever its price: its own refund and its share stay
      within the charge exactly when every share rounds to nothing. */
  lemma SecondStepPaysOverIffShare(t: Table, records: map<nat, int>, s: int)
    requires Charged(records) && Sum(records) > 0 && records.Keys <= t.Keys
    ensures TotalCredits(ChainFailure(t, records, s, s, Sum(records))) <= TotalCredits(t) + Sum(records) <==>
              s <= 0 || forall k :: k in records ==> records[k] * s < Sum(records)
  {
    ChainFailureWithinChargeIff(t, records, s, s);
  }

  /** The second step with the fallback, which may price a step that has no cost stored: within the charge
      exactly when the task itself got nothing, or every share rounds to nothing. */
  lemma FallbackWithinChargeIff(t: Table, records: map<nat, int>, stored: int, s: int)
    requires Charged(records) && Sum(records) > 0 && records.Keys <= t.Keys
    ensures TotalCredits(SecondStepFailure(t, records, stored, s, Sum(records))) <= TotalCredits(t) + Sum(records) <==>
              stored <= 0 || s <= 0 || forall k :: k in records ==> records[k] * s < Sum(records)
  {
    var own := if stored > 0 then More(t, records) else t;
    MoreTotal(t, records);
    NotEmpty(records);
    if s > 0 {
      SecondStepRefundBounds(records, s);
      NoSecondRefundIff(records, s);
    } else {
      assert Sum(map[]) == 0;
    }
    MoreTotal(own, SecondStepRefund(records, s, Sum(records)));
  }

  lemma NoSecondRefundIff(records: map<nat, int>, s: int)
    requires Charged(records) && Sum(records) > 0 && s > 0
    ensures Sum(SecondStepRefund(records, s, Sum(records))) <= 0 <==>
              forall k :: k in records ==> records[k] * s < Sum(records)
  {
    if s > Sum(records) {
      DearStepRefundsAll(records, s);
    } else {
      NoShareIffSmall(records, s, Sum(records));
      var refund := PartialRecords(records, s, Sum(records));
      if k :| k in refund { PositiveSum(refund, k); } else { assert refund == map[]; }
    }
  }

  /** The first step with the fallback gets its own refund and nothing else: the charge comes back when it had
      a cost stored, and none of it when it was free. */
  function FirstStepFallback(t: Table, records: map<nat, int>, stored: int): Table {
    if stored > 0 then More(t, records) else t
  }

  lemma FirstStepFallbackIff(t: Table, records: map<nat, int>, stored: int)
    requires Charged(records) && Sum(records) > 0 && records.Keys <= t.Keys
    ensures TotalCredits(FirstStepFallback(t, records, stored)) == TotalCredits(t) + Sum(records) <==> stored > 0
    ensures TotalCredits(FirstStepFallback(t, records, stored)) == TotalCredits(t) <==> stored <= 0
  {
    MoreTotal(t, records);
  }

  // ----- a chain task that fails again and again -----

  /** A retried task is charged anew; when it fails it gets that charge back, and the chain, which does
      not ask whether it failed before, pays its share of the original charge again. */
  function FailsAgain(t: Table, records: map<nat, int>, retry: map<nat, int>, amount: int, total: nat): Table
    requires total > 0
  {
    var own := More(Less(t, retry), retry);
    if amount > 0 then More(own, PartialRecords(records, amount, total)) else own
  }

  /** The first failure, and one for every retry. */
  function FailureRun(t: Table, records: map<nat, int>, stored: int, amount: int, total: nat,
                      retries: seq<map<nat, int>>): Table
    requires total > 0
  {
    if retries == [] then ChainFailure(t, records, stored, amount, total)
    else
      var n := |retries| - 1;
      FailsAgain(FailureRun(t, records, stored, amount, total, retries[..n]), records, retries[n], amount, total)
  }

  /** What the chain pays for one failure. */
  ghost function ChainShare(records: map<nat, int>, amount: int): int
    requires Sum(records) > 0
  {
    if amount > 0 then Sum(PartialRecords(records, amount, Sum(records))) else 0
  }

  lemma FailsAgainTotal(t: Table, records: map<nat, int>, retry: map<nat, int>, amount: int)
    requires Sum(records) > 0 && records.Keys <= t.Keys
    ensures FailsAgain(t, records, retry, amount, Sum(records)).Keys == t.Keys
    ensures TotalCredits(FailsAgain(t, records, retry, amount, Sum(records))) ==
              TotalCredits(t) + ChainShare(records, amount)
  {
    assert More(Less(t, retry), retry) == t;
    MoreTotal(t, PartialRecords(records, amount, Sum(records)));
  }

  lemma {:induction false} FailureRunTotal(t: Table, records: map<nat, int>, stored: int, amount: int,
                                           retries: seq<map<nat, int>>)
    requires Charged(records) && Sum(records) > 0 && records.Keys <= t.Keys
    ensures FailureRun(t, records, stored, amount, Sum(records), retries).Keys == t.Keys
    ensures TotalCredits(FailureRun(t, records, stored, amount, Sum(records), retries)) ==
              TotalCredits(t) + (if stored > 0 then Sum(records) else 0) + (|retries| + 1) * ChainShare(records, amount)
  {
    if retries == [] {
      ChainFailureTotal(t, records, stored, amount);
    } else {
      var n := |retries| - 1;
      FailureRunTotal(t, records, stored, amount, retries[..n]);
      var before := FailureRun(t, records, stored, amount, Sum(records), retries[..n]);
      FailsAgainTotal(before, records, retries[n], amount);
      Distribute(n + 1, ChainShare(records, amount));
    }
  }

  lemma Distribute(n: int, s: int)
    ensures n * s + s == (n + 1) * s
  {
  }

  lemma ChainShareIff(records: map<nat, int>, amount: int)
    requires Charged(records) && Sum(records) > 0
    ensures ChainShare(records, amount) >= 0
    ensures ChainShare(records, amount) > 0 <==>
              amount > 0 && exists k :: k in records && records[k] * amount >= Sum(records)
  {
    if amount > 0 {
      var shares := PartialRecords(records, amount, Sum(records));
      NoShareIffSmall(records, amount, Sum(records));
      if k :| k in shares { PositiveSum(shares, k); } else { assert shares == map[]; }
    }
  }

  lemma OverIffPositive(share: int, n: int, total: int)
    requires share >= 0 && n >= total > 0
    ensures (n + 1) * share > 0 <==> share > 0
    ensures (n + 1) * share > total <==> share > 0
  {
    if share >= 1 { AtLeast(share, n + 1); }
  }

  /** However small the share: if there is one, as many retries as credits were charged, all failing, pay
      back more than the charge. */
  lemma EnoughFailuresPayOver(t: Table, records: map<nat, int>, stored: int, amount: int, retries: seq<map<nat, int>>)
    requires Charged(records) && Sum(records) > 0 && records.Keys <= t.Keys && |retries| >= Sum(records)
    ensures TotalCredits(FailureRun(t, records, stored, amount, Sum(records), retries)) >
              TotalCredits(t) + Sum(records) <==>
                amount > 0 && exists k :: k in records && records[k] * amount >= Sum(records)
  {
    FailureRunTotal(t, records, stored, amount, retries);
    ChainShareIff(records, amount);
    OverIffPositive(ChainShare(records, amount), |retries|, Sum(records));
  }

  lemma DearStepRefundsAll(records: map<nat, int>, s: int)
    requires Charged(records) && s > Sum(records) > 0
    ensures SecondStepRefund(records, s, Sum(records)) == records
    ensures exists k :: k in records && records[k] * s >= Sum(records)
  {
    var k := SomeRecord(records);
    AtLeast(records[k], s);
    SameRecords(PartialRecords(records, 1, 1), records);
  }

  lemma AtLeast(a: int, s: int)
    requires a >= 1 && s >= 0
    ensures a * s >= s
  {
  }

  lemma NoShareIffSmall(records: map<nat, int>, s: int, total: int)
    requires Charged(records) && total > 0 && s > 0
    ensures PartialRecords(records, s, total) == map[] <==> forall k :: k in records ==> records[k] * s < total
  {
    var shares := PartialRecords(records, s, total);
    forall k | k in records ensures k !in shares <==> records[k] * s < total { PositiveShare(records[k], s, total); }
    assert shares == map[] <==> forall k :: k in records ==> k !in shares by {
      assert shares.Keys <= records.Keys;
      if k :| k in shares { assert k in records; } else { assert shares == map[]; }
    }
  }

  lemma PositiveShare(amount: int, num: int, den: int)
    requires den > 0 && amount >= 0 && num >= 0
    ensures Share(amount, num, den) > 0 <==> amount * num >= den
  {
    ShareBounds(amount, num, den);
  }

  lemma PositiveSum(m: map<nat, int>, k: nat)
    requires k in m && Charged(m)
    ensures Sum(m) > 0
  {
    var zero := map x | x in m :: 0;
    SumOnRemove(m, m.Keys, k);
    SumOnMonotone(zero, m, m.Keys - {k});
    SumOnExtend(map[], zero, m.Keys - {k});
  }

  lemma WholeShares(records: map<nat, int>, total: int)
    requires Charged(records) && total > 0
    ensures PartialRecords(records, total, total) == records
  {
    forall k | k in records ensures Share(records[k], total, total) == records[k] { WholeShare(records[k], total); }
    SameRecords(PartialRecords(records, total, total), records);
  }

  lemma WholeShare(amount: int, total: int)
    requires total > 0 && amount >= 0
    ensures Share(amount, total, total) == amount
  {
    ShareBounds(amount, total, total);
    Squeeze(1, total, amount, Share(amount, total, total));
  }

  lemma SameRecords(a: map<nat, int>, b: map<nat, int>)
    requires a.Keys == b.Keys && forall k :: k in b ==> a[k] == b[k]
    ensures a == b
  {
  }
}
