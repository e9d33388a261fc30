/** Daily free credits and the register bonus: rows of the credit table kept unique by a source id that
    is printed from project, user and day. */
module Grants {
  import opened Basics

  const DAILY := "daily_free_"
  const REGISTER := "register_bonus_"
  const REGISTER_AMOUNT := 5
  const DEFAULT_AMOUNT := 30

  /** What is meant to be granted at most once. */
  datatype Key = Day(project: string, user: string, day: string) | Bonus(project: string, user: string)

  function Source(k: Key): string {
    match k
    case Day(project, user, day) => DAILY + project + "_" + user + "_" + day
    case Bonus(project, user) => REGISTER + project + "_" + user
  }

  /** Days are printed as yyyy-mm-dd. */
  predicate IsDay(day: string) { |day| == 10 }

  /** key is None for rows other services added. */
  datatype Row = Row(source: string, key: Option<Key>, amount: int)

  datatype Outcome = Granted(amount: int) | NotGranted | Failed

  /** AnswerLost: the transaction committed but the commit reported an error. */
  datatype Fault = NoFault | InsertFails | JournalFails | AnswerLost

  /** Own transaction, or one of the caller's that commits or rolls back later. */
  datatype Tx = Own | Outer(commits: bool)

  datatype Event =
    | Daily(key: Key, enabled: bool, member: bool, configured: Option<int>, tx: Tx, fault: Fault)
    | Register(key: Key, fault: Fault)

  datatype Report = Report(key: Key, outcome: Outcome, kept: bool)

  datatype World = World(rows: seq<Row>, log: seq<Report>)

  predicate HasSource(rows: seq<Row>, source: string) {
    exists i :: 0 <= i < |rows| && rows[i].source == source
  }

  function Amount(configured: Option<int>): (amount: int)
    ensures amount > 0
  {
    if configured.Some? && configured.value > 0 then configured.value else DEFAULT_AMOUNT
  }

  datatype Step = Step(rows: seq<Row>, outcome: Outcome)

  /** Inserting under the unique index on the source. */
  function Add(rows: seq<Row>, row: Row, tx: Tx, fault: Fault): Step {
    if fault.InsertFails? then Step(rows, Failed)
    else if HasSource(rows, row.source) then Step(rows, NotGranted)
    else
      var stays := match tx case Own => !fault.JournalFails? case Outer(commits) => commits;
      Step(if stays then rows + [row] else rows,
           if fault.NoFault? || (fault.AnswerLost? && tx.Outer?) then Granted(row.amount) else Failed)
  }

  predicate Eligible(e: Event) {
    e.Register? || (e.enabled && !e.member)
  }

  function RowOf(e: Event): Row {
    Row(Source(e.key), Some(e.key), if e.Register? then REGISTER_AMOUNT else Amount(e.configured))
  }

  function TxOf(e: Event): Tx { if e.Register? then Own else e.tx }

  function Apply(rows: seq<Row>, e: Event): Step {
    if Eligible(e) then Add(rows, RowOf(e), TxOf(e), e.fault) else Step(rows, NotGranted)
  }

  function Next(w: World, e: Event): World {
    var s := Apply(w.rows, e);
    World(s.rows, w.log + [Report(e.key, s.outcome, TxOf(e) != Outer(false))])
  }

  function After(w: World, es: seq<Event>): World
    decreases |es|
  {
    if es == [] then w else After(Next(w, es[0]), es[1..])
  }

  // ----- the service -----

  class DailyFreeCreditsService {
    var rows: seq<Row>

    method AddCredits(source: string, key: Key, amount: int, tx: Tx, fault: Fault) returns (outcome: Outcome)
      modifies this
      ensures Add(old(rows), Row(source, Some(key), amount), tx, fault) == Step(rows, outcome)
    {
      if fault.InsertFails? { return Failed; }
      for i := 0 to |rows|
        invariant forall k :: 0 <= k < i ==> rows[k].source != source
      {
        if rows[i].source == source { return NotGranted; }
      }
      if fault.JournalFails? {
        if tx == Outer(true) { rows := rows + [Row(source, Some(key), amount)]; }
        return Failed;
      }
      if tx != Outer(false) { rows := rows + [Row(source, Some(key), amount)]; }
      outcome := if fault.AnswerLost? && tx.Own? then Failed else Granted(amount);
    }

    method CheckAndGrantDailyCredits(project: string, user: string, today: string, enabled: bool, vip: bool,
                                     configured: Option<int>, fault: Fault)
      returns (outcome: Outcome)
      modifies this
      ensures Apply(old(rows), Daily(Day(project, user, today), enabled, vip, configured, Own, fault)) ==
                Step(rows, outcome)
    {
      if !enabled { return NotGranted; }
      if vip { return NotGranted; }
      var amount := Amount(configured);
      outcome := AddCredits(DAILY + project + "_" + user + "_" + today, Day(project, user, today), amount, Own, fault);
    }

    method CheckAndGrantDailyCreditsWithTx(project: string, user: string, today: string, enabled: bool, isMember: bool,
                                           configured: Option<int>, fault: Fault, commits: bool)
      returns (outcome: Outcome)
      modifies this
      ensures Apply(old(rows), Daily(Day(project, user, today), enabled, isMember, configured, Outer(commits), fault))
                == Step(rows, outcome)
    {
      if !enabled { return NotGranted; }
      if isMember { return NotGranted; }
      var amount := Amount(configured);
      outcome := AddCredits(DAILY + project + "_" + user + "_" + today, Day(project, user, today), amount,
                            Outer(commits), fault);
    }

    method GrantRegisterBonus(project: string, user: string, fault: Fault) returns (outcome: Outcome)
      modifies this
      ensures Apply(old(rows), Register(Bonus(project, user), fault)) == Step(rows, outcome)
    {
      outcome := AddCredits(REGISTER + project + "_" + user, Bonus(project, user), REGISTER_AMOUNT, Own, fault);
    }
  }

  // ----- source ids -----

  lemma {:induction false} FirstUnderscore(p: string, x: string, q: string, y: string)
    requires UnderscoreFree(p) && UnderscoreFree(q) && p + "_" + x == q + "_" + y
    ensures p == q && x == y
  {
    var s, t := p + "_" + x, q + "_" + y;
    if p == [] || q == [] {
      assert s[0] == t[0];
      assert p == q;
      assert s[1..] == x && t[1..] == y;
    } else {
      assert s[0] == p[0] && t[0] == q[0];
      assert s[1..] == p[1..] + "_" + x && t[1..] == q[1..] + "_" + y;
      FirstUnderscore(p[1..], x, q[1..], y);
    }
  }

  /** Two daily sources are equal exactly when the days are and project_user is; likewise bonuses; and a
      daily source is never a bonus source. */
  lemma SameSourceIff(a: Key, b: Key)
    requires (a.Day? ==> IsDay(a.day)) && (b.Day? ==> IsDay(b.day))
    ensures Source(a) == Source(b) <==>
              && a.Day? == b.Day?
              && a.project + "_" + a.user == b.project + "_" + b.user
              && (a.Day? && b.Day? ==> a.day == b.day)
  {
    var s, t := Source(a), Source(b);
    assert s[0] == (if a.Day? then 'd' else 'r') && t[0] == if b.Day? then 'd' else 'r';
    if a.Day? && b.Day? {
      SameDaily(a, b);
    } else if a.Bonus? && b.Bonus? {
      assert s[|REGISTER|..] == a.project + "_" + a.user && t[|REGISTER|..] == b.project + "_" + b.user;
      assert s == REGISTER + (a.project + "_" + a.user) && t == REGISTER + (b.project + "_" + b.user);
    }
  }

  lemma SameDaily(a: Key, b: Key)
    requires a.Day? && b.Day? && IsDay(a.day) && IsDay(b.day)
    ensures Source(a) == Source(b) <==> a.project + "_" + a.user == b.project + "_" + b.user && a.day == b.day
  {
    var p, q := a.project + "_" + a.user, b.project + "_" + b.user;
    assert Source(a) == DAILY + p + ("_" + a.day) && Source(b) == DAILY + q + ("_" + b.day);
    if Source(a) == Source(b) {
      assert |p| == |q|;
      assert Source(a)[|DAILY|..][..|p|] == p && Source(b)[|DAILY|..][..|q|] == q;
      assert Source(a)[|DAILY| + |p| + 1..] == a.day && Source(b)[|DAILY| + |q| + 1..] == b.day;
    }
  }

  /** With underscore-free project ids a source names its grant. */
  lemma SourceNamesKey(a: Key, b: Key)
    requires UnderscoreFree(a.project) && UnderscoreFree(b.project)
    requires (a.Day? ==> IsDay(a.day)) && (b.Day? ==> IsDay(b.day))
    ensures Source(a) == Source(b) <==> a == b
  {
    SameSourceIff(a, b);
    if Source(a) == Source(b) { FirstUnderscore(a.project, a.user, b.project, b.user); }
  }

  /** With an underscore in a project id two users can share one. */
  lemma SourceClash(day: string)
    requires IsDay(day)
    ensures Source(Day("a", "b_c", day)) == Source(Day("a_b", "c", day))
    ensures Source(Bonus("a", "b_c")) == Source(Bonus("a_b", "c"))
  {
    assert "a" + "_" + "b_c" == "a_b" + "_" + "c";
    SameSourceIff(Day("a", "b_c", day), Day("a_b", "c", day));
    SameSourceIff(Bonus("a", "b_c"), Bonus("a_b", "c"));
  }

  // ----- at most once -----

  predicate Unique(rows: seq<Row>) {
    forall i, j :: 0 <= i < j < |rows| ==> rows[i].source != rows[j].source
  }

  predicate IsGrant(r: Report) { r.outcome.Granted? && r.kept }

  ghost predicate Inv(w: World) {
    && Unique(w.rows)
    && (forall i :: 0 <= i < |w.log| && IsGrant(w.log[i]) ==> HasSource(w.rows, Source(w.log[i].key)))
    && (forall i, j :: 0 <= i < j < |w.log| && IsGrant(w.log[i]) && IsGrant(w.log[j]) ==>
          Source(w.log[i].key) != Source(w.log[j].key))
  }

  /** One call: the rows keep their index and nothing is lost; a lasting grant is a new source. */
  lemma ApplyGrows(rows: seq<Row>, e: Event)
    requires Unique(rows)
    ensures var s := Apply(rows, e);
            && Unique(s.rows)
            && (s.rows == rows || s.rows == rows + [RowOf(e)])
            && (forall x :: HasSource(rows, x) ==> HasSource(s.rows, x))
            && (s.outcome.Granted? ==> !HasSource(rows, Source(e.key)))
            && (s.outcome.Granted? && TxOf(e) != Outer(false) ==> HasSource(s.rows, Source(e.key)))
  {
    var s := Apply(rows, e);
    if s.rows != rows {
      assert !HasSource(rows, Source(e.key));
      assert s.rows == rows + [RowOf(e)] && s.rows[|rows|] == RowOf(e);
      forall x | HasSource(rows, x) ensures HasSource(s.rows, x) {
        var i :| 0 <= i < |rows| && rows[i].source == x;
        assert s.rows[i].source == x;
      }
    }
  }

  lemma NextKeepsInv(w: World, e: Event)
    requires Inv(w)
    ensures Inv(Next(w, e))
  {
    ApplyGrows(w.rows, e);
  }

  lemma {:induction false} RunKeepsInv(w: World, es: seq<Event>)
    requires Inv(w)
    ensures Inv(After(w, es))
    decreases |es|
  {
    if es != [] {
      NextKeepsInv(w, es[0]);
      RunKeepsInv(Next(w, es[0]), es[1..]);
    }
  }

  /** In any sequence of calls, from any table, no grant is reported twice unless the caller's
      transaction around the first report rolled back. */
  lemma GrantedAtMostOnce(rows: seq<Row>, es: seq<Event>, i: nat, j: nat)
    requires Unique(rows)
    requires var log := After(World(rows, []), es).log; i < j < |log| && IsGrant(log[i]) && IsGrant(log[j])
    ensures var log := After(World(rows, []), es).log; log[i].key != log[j].key
    ensures Unique(After(World(rows, []), es).rows)
  {
    RunKeepsInv(World(rows, []), es);
  }

  // ----- who gets how much -----

  /** A granted daily call grants the configured amount if that is positive and thirty otherwise, never to a
      member and never while switched off; a bonus is five. What is granted is what the row holds. */
  lemma GrantedAmount(rows: seq<Row>, e: Event)
    requires Apply(rows, e).outcome.Granted?
    ensures Apply(rows, e).outcome.amount ==
              if e.Register? then 5
              else if e.configured.Some? && e.configured.value > 0 then e.configured.value else 30
    ensures e.Daily? ==> e.enabled && !e.member
    ensures Apply(rows, e).rows ==
              if TxOf(e) == Outer(false) then rows
              else rows + [Row(Source(e.key), Some(e.key), Apply(rows, e).outcome.amount)]
  {
  }

  /** A call that is told of a failure leaves a row exactly when its own commit lost its answer, or the caller's
      transaction commits in spite of a failed journal line. */
  lemma FailedLeavesRowIff(rows: seq<Row>, e: Event)
    requires Apply(rows, e).outcome.Failed?
    ensures Apply(rows, e).rows != rows <==>
              (TxOf(e) == Own && e.fault == AnswerLost) || (TxOf(e) == Outer(true) && e.fault == JournalFails)
  {
    assert rows + [RowOf(e)] != rows;
  }

  /** A caller is told of a grant exactly when it may have one, its source has no row yet, and nothing failed; a
      lost answer can only be that of a commit of its own. */
  lemma GrantedIff(rows: seq<Row>, e: Event)
    ensures Apply(rows, e).outcome.Granted? <==>
              && (e.Daily? ==> e.enabled && !e.member)
              && !HasSource(rows, Source(e.key))
              && (e.fault == NoFault || (e.fault == AnswerLost && e.Daily? && e.tx != Own))
  {
  }

  /** Nothing is inserted for a member, while switched off, or where the source has a row. */
  lemma NotGrantedIff(rows: seq<Row>, e: Event)
    ensures Apply(rows, e).outcome.NotGranted? <==>
              (e.Daily? && (!e.enabled || e.member)) || (!e.fault.InsertFails? && HasSource(rows, Source(e.key)))
    ensures Apply(rows, e).outcome.NotGranted? ==> Apply(rows, e).rows == rows
  {
  }

  // ----- not less than once -----

  predicate NiceKey(k: Key) {
    UnderscoreFree(k.project) && (k.Day? ==> IsDay(k.day))
  }

  /** Rows of other services do not use these formats. */
  predicate ForeignSource(s: string) {
    !(DAILY <= s) && !(REGISTER <= s)
  }

  predicate RowsAreNamed(rows: seq<Row>) {
    forall i :: 0 <= i < |rows| ==>
      if rows[i].key.Some? then NiceKey(rows[i].key.value) && rows[i].source == Source(rows[i].key.value)
      else ForeignSource(rows[i].source)
  }

  predicate HasKey(rows: seq<Row>, k: Key) {
    exists i :: 0 <= i < |rows| && rows[i].key == Some(k)
  }

  lemma StartsWith(s: string, a: string, b: string)
    requires s == a + b
    ensures a <= s
  {
  }

  lemma Regroup(a: string, b: string, c: string, d: string, e: string, f: string)
    ensures a + b + c + d + e + f == a + (b + c + d + e + f)
    ensures a + b + c + d == a + (b + c + d)
  {
  }

  lemma SourcePrefix(k: Key)
    ensures if k.Day? then DAILY <= Source(k) else REGISTER <= Source(k)
  {
    match k
    case Day(project, user, day) =>
      Regroup(DAILY, project, "_", user, "_", day);
      StartsWith(Source(k), DAILY, project + "_" + user + "_" + day);
    case Bonus(project, user) =>
      Regroup(REGISTER, project, "_", user, "", "");
      StartsWith(Source(k), REGISTER, project + "_" + user);
  }

  lemma SourceOnlyOfKey(rows: seq<Row>, k: Key)
    requires RowsAreNamed(rows) && NiceKey(k)
    ensures HasSource(rows, Source(k)) <==> HasKey(rows, k)
  {
    SourcePrefix(k);
    if i :| 0 <= i < |rows| && rows[i].source == Source(k) {
      SourceNamesKey(rows[i].key.value, k);
      assert rows[i].key == Some(k);
    }
    if i :| 0 <= i < |rows| && rows[i].key == Some(k) { assert rows[i].source == Source(k); }
  }

  lemma {:induction false} RunKeepsNames(w: World, es: seq<Event>)
    requires RowsAreNamed(w.rows) && forall e :: e in es ==> NiceKey(e.key)
    ensures RowsAreNamed(After(w, es).rows)
    decreases |es|
  {
    if es != [] {
      assert es[0] in es;
      RunKeepsNames(Next(w, es[0]), es[1..]);
    }
  }

  /** Underscore-free projects: a call that could have been granted and was not finds a row of its own
      project, user and day; otherwise it is granted, with its amount. */
  lemma GrantedIffFirst(rows: seq<Row>, es: seq<Event>, e: Event)
    requires RowsAreNamed(rows) && NiceKey(e.key) && forall x :: x in es ==> NiceKey(x.key)
    requires Eligible(e) && e.fault.NoFault?
    ensures var before := After(World(rows, []), es).rows;
            Apply(before, e).outcome == if HasKey(before, e.key) then NotGranted
                                        else Granted(if e.Register? then 5
                                                     else if e.configured.Some? && e.configured.value > 0
                                                     then e.configured.value else 30)
  {
    RunKeepsNames(World(rows, []), es);
    SourceOnlyOfKey(After(World(rows, []), es).rows, e.key);
  }

  /** After such a call that commits, there is exactly one row for its project, user and day. */
  lemma ExactlyOneRow(rows: seq<Row>, es: seq<Event>, e: Event)
    requires Unique(rows) && RowsAreNamed(rows) && NiceKey(e.key) && forall x :: x in es ==> NiceKey(x.key)
    requires Eligible(e) && e.fault.NoFault? && TxOf(e) != Outer(false)
    ensures var after := Apply(After(World(rows, []), es).rows, e).rows;
            HasKey(after, e.key) &&
            forall i, j :: 0 <= i < j < |after| ==> !(after[i].key == after[j].key == Some(e.key))
  {
    var before := After(World(rows, []), es).rows;
    var after := Apply(before, e).rows;
    RunKeepsInv(World(rows, []), es);
    RunKeepsNames(World(rows, []), es);
    ApplyGrows(before, e);
    SourceOnlyOfKey(before, e.key);
    if after != before { assert after[|before|].key == Some(e.key); }
    forall i, j | 0 <= i < j < |after| ensures !(after[i].key == after[j].key == Some(e.key)) {
      assert after[i].source != after[j].source;
    }
  }
}
