/** The subscription popup: a sliding-window script over a sorted set whose members are their own
    scores, with a time to live on the key. Members are whole seconds a caller read before it sent the
    script; the key expires on the store's clock, in milliseconds. */
module PopupLimiter {
  import opened Basics

  datatype ZSet = ZSet(members: set<int>, expiresAt: Option<int>)

  const EMPTY := ZSet({}, None)

  /** A call: the second its caller read, and the store time at which its script runs. */
  datatype Call = Call(now: int, at: int)

  predicate Expired(z: ZSet, at: int) {
    z.expiresAt.Some? && at >= z.expiresAt.value
  }

  function Live(z: ZSet, at: int): ZSet {
    if Expired(z, at) then EMPTY else z
  }

  function Prune(members: set<int>, until: int): set<int> {
    set x | x in members && x > until
  }

  datatype Reply = Reply(z: ZSet, show: bool)

  function Script(z: ZSet, c: Call, window: int, max: int): Reply {
    var kept := Prune(Live(z, c.at).members, c.now - window);
    if |kept| < max then Reply(ZSet(kept + {c.now}, Some(c.at + 1000 * window)), true)
    else Reply(ZSet(kept, Live(z, c.at).expiresAt), false)
  }

  // ----- runs -----

  function Last(calls: seq<Call>): Call
    requires calls != []
  {
    calls[|calls| - 1]
  }

  function Front(calls: seq<Call>): seq<Call>
    requires calls != []
  {
    calls[..|calls| - 1]
  }

  /** The key, and the history of grants: their seconds and the last of them. */
  datatype State = State(z: ZSet, grants: set<int>, last: Option<Call>)

  const START := State(EMPTY, {}, None)

  function Step(s: State, c: Call, window: int, max: int): State {
    var r := Script(s.z, c, window, max);
    if r.show then State(r.z, s.grants + {c.now}, Some(c)) else s.(z := r.z)
  }

  /** After the calls, in the order their scripts run. */
  function Run(calls: seq<Call>, window: int, max: int): State {
    if calls == [] then START else Step(Run(Front(calls), window, max), Last(calls), window, max)
  }

  function Granted(calls: seq<Call>, window: int, max: int): set<int> {
    Run(calls, window, max).grants
  }

  /** What the last call is told. */
  predicate Shown(calls: seq<Call>, window: int, max: int)
    requires calls != []
  {
    Script(Run(Front(calls), window, max).z, Last(calls), window, max).show
  }

  /** The grants of the window that ends with second t. */
  function Window(grants: set<int>, t: int, window: int): set<int> {
    set g | g in grants && t - window < g <= t
  }

  /** The same limiter on a key that never expires. */
  function PlainAfter(calls: seq<Call>, window: int, max: int): set<int> {
    if calls == [] then {}
    else
      var kept := Prune(PlainAfter(Front(calls), window, max), Last(calls).now - window);
      if |kept| < max then kept + {Last(calls).now} else kept
  }

  predicate PlainShown(calls: seq<Call>, window: int, max: int)
    requires calls != []
  {
    |Prune(PlainAfter(Front(calls), window, max), Last(calls).now - window)| < max
  }

  // ----- the two conditions -----

  /** Scripts run in the order of the seconds they carry. */
  predicate OrderedSeconds(calls: seq<Call>) {
    forall i, j :: 0 <= i < j < |calls| ==> calls[i].now <= calls[j].now
  }

  /** The store's clock does not go back. */
  predicate OrderedTimes(calls: seq<Call>) {
    forall i, j :: 0 <= i < j < |calls| ==> calls[i].at <= calls[j].at
  }

  /** A script that runs when the key has expired carries a second past the last grant's window. */
  predicate TimelyCall(last: Option<Call>, c: Call, window: int) {
    last.Some? && c.at >= last.value.at + 1000 * window ==> c.now >= last.value.now + window
  }

  predicate Timely(calls: seq<Call>, window: int, max: int) {
    calls == [] || (Timely(Front(calls), window, max) &&
                    TimelyCall(Run(Front(calls), window, max).last, Last(calls), window))
  }

  // ----- what one call keeps -----

  /** The key holds exactly the grants of the window, and carries the expiry of the last grant. */
  ghost predicate Tracks(s: State, now: int, window: int) {
    && (forall g :: g in s.grants ==> g <= now && s.last.Some? && g <= s.last.value.now)
    && s.z.members == Prune(s.grants, now - window)
    && (s.z.expiresAt.Some? ==> s.last.Some? && s.z.expiresAt.value == s.last.value.at + 1000 * window)
  }

  ghost predicate Capped(grants: set<int>, window: int, max: int) {
    forall t :: |Window(grants, t, window)| <= max
  }

  /** Whether the key expired or not, a timely call sees the grants of its own window. */
  lemma KeptIsWindow(s: State, before: int, c: Call, window: int)
    requires window >= 1 && before <= c.now && Tracks(s, before, window) && TimelyCall(s.last, c, window)
    ensures Prune(Live(s.z, c.at).members, c.now - window) == Window(s.grants, c.now, window)
  {
  }

  /** One more grant, in the newest second, where the window had room. */
  lemma GrantKeepsCap(grants: set<int>, now: int, window: int, max: int)
    requires Capped(grants, window, max) && forall g :: g in grants ==> g <= now
    requires |Window(grants, now, window)| < max
    ensures Capped(grants + {now}, window, max)
  {
    forall t ensures |Window(grants + {now}, t, window)| <= max {
      if t - window < now <= t {
        SubsetSize(Window(grants + {now}, t, window), Window(grants, now, window) + {now});
      } else {
        assert Window(grants + {now}, t, window) == Window(grants, t, window);
      }
    }
  }

  lemma WindowIsPrune(grants: set<int>, now: int, window: int)
    requires window >= 1 && forall g :: g in grants ==> g <= now
    ensures Window(grants, now, window) == Prune(grants, now - window)
    ensures Window(grants, now, window) + {now} == Prune(grants + {now}, now - window)
  {
  }

  lemma StepTracks(s: State, before: int, c: Call, window: int, max: int)
    requires window >= 1 && max >= 1 && before <= c.now && Tracks(s, before, window) && TimelyCall(s.last, c, window)
    ensures Script(s.z, c, window, max).show <==> |Window(s.grants, c.now, window)| < max
    ensures Tracks(Step(s, c, window, max), c.now, window)
  {
    KeptIsWindow(s, before, c, window);
    WindowIsPrune(s.grants, c.now, window);
  }

  // ----- every timely run -----

  lemma {:induction false} RunTracks(calls: seq<Call>, window: int, max: int)
    requires OrderedSeconds(calls) && Timely(calls, window, max) && calls != [] && window >= 1 && max >= 1
    ensures Tracks(Run(calls, window, max), Last(calls).now, window)
    ensures Shown(calls, window, max) <==> |Window(Granted(Front(calls), window, max), Last(calls).now, window)| < max
    decreases |calls|
  {
    var front, c := Front(calls), Last(calls);
    if front == [] {
      NothingKept(c.now - window);
      StepTracks(START, c.now, c, window, max);
    } else {
      RunTracks(front, window, max);
      assert Last(front).now <= c.now;
      StepTracks(Run(front, window, max), Last(front).now, c, window, max);
    }
  }

  /** No window of the configured length, whenever it ends, holds more than max granted seconds. */
  lemma {:induction false} WindowsAreCapped(calls: seq<Call>, window: int, max: int)
    requires OrderedSeconds(calls) && Timely(calls, window, max) && window >= 1 && max >= 1
    ensures Capped(Granted(calls, window, max), window, max)
    decreases |calls|
  {
    if calls == [] {
      assert forall t :: Window({}, t, window) == {};
    } else {
      WindowsAreCapped(Front(calls), window, max);
      RunTracks(calls, window, max);
      if Shown(calls, window, max) {
        FrontGrantsBefore(calls, window, max);
        GrantKeepsCap(Granted(Front(calls), window, max), Last(calls).now, window, max);
      }
    }
  }

  lemma FrontGrantsBefore(calls: seq<Call>, window: int, max: int)
    requires OrderedSeconds(calls) && Timely(calls, window, max) && calls != [] && window >= 1 && max >= 1
    ensures forall g :: g in Granted(Front(calls), window, max) ==> g <= Last(calls).now
  {
    if Front(calls) != [] { RunTracks(Front(calls), window, max); }
  }

  /** A call is denied exactly when max granted seconds already lie in its window. */
  lemma DeniedIffWindowFull(calls: seq<Call>, window: int, max: int)
    requires OrderedSeconds(calls) && Timely(calls, window, max) && calls != [] && window >= 1 && max >= 1
    ensures !Shown(calls, window, max) <==>
              |Window(Granted(Front(calls), window, max), Last(calls).now, window)| == max
  {
    RunTracks(calls, window, max);
    WindowsAreCapped(Front(calls), window, max);
  }

  /** The time to live never changes an answer. */
  lemma {:induction false} ExpiryNeverMatters(calls: seq<Call>, window: int, max: int)
    requires OrderedSeconds(calls) && Timely(calls, window, max) && calls != [] && window >= 1 && max >= 1
    ensures Shown(calls, window, max) <==> PlainShown(calls, window, max)
    ensures Run(calls, window, max).z.members == PlainAfter(calls, window, max)
    decreases |calls|
  {
    var front, c := Front(calls), Last(calls);
    if front == [] {
      NothingKept(c.now - window);
    } else {
      ExpiryNeverMatters(front, window, max);
      RunTracks(front, window, max);
      assert Last(front).now <= c.now;
      var s := Run(front, window, max);
      KeptIsWindow(s, Last(front).now, c, window);
      assert Prune(s.z.members, c.now - window) == Window(s.grants, c.now, window);
    }
  }

  /** Scripts that run at once, with one distance between the clocks, meet both conditions: so the cap,
      the denial rule and the irrelevance of the expiry hold for them, seconds truncated as they are. */
  lemma {:induction false} InstantCallsAreTimely(calls: seq<Call>, skew: int, window: int, max: int)
    requires OrderedTimes(calls) && forall i :: 0 <= i < |calls| ==> calls[i].now == (calls[i].at + skew) / 1000
    requires window >= 1
    ensures OrderedSeconds(calls) && Timely(calls, window, max)
    decreases |calls|
  {
    if calls != [] {
      InstantCallsAreTimely(Front(calls), skew, window, max);
      LastGrantIsCall(Front(calls), window, max);
    }
  }

  lemma {:induction false} LastGrantIsCall(calls: seq<Call>, window: int, max: int)
    ensures Run(calls, window, max).last.Some? ==> Run(calls, window, max).last.value in calls
    decreases |calls|
  {
    if calls != [] { LastGrantIsCall(Front(calls), window, max); }
  }

  // ----- without the conditions -----

  /** From a key that holds its window, the next call is answered wrongly exactly when the key has
      expired under a window that is full. */
  lemma WrongAnswerIff(s: State, before: int, c: Call, window: int, max: int)
    requires window >= 1 && max >= 1 && before <= c.now && Tracks(s, before, window)
    ensures (Script(s.z, c, window, max).show <==> |Window(s.grants, c.now, window)| < max) <==>
              !(Expired(s.z, c.at) && |Window(s.grants, c.now, window)| >= max)
  {
    NothingKept(c.now - window);
    assert Prune(s.z.members, c.now - window) == Window(s.grants, c.now, window);
  }

  function Range(lo: int, hi: int): (r: set<int>)
    ensures forall x :: x in r <==> lo <= x <= hi
    decreases hi - lo + 1
  {
    if lo > hi then {} else Range(lo, hi - 1) + {hi}
  }

  lemma {:induction false} RangeSize(lo: int, hi: int)
    requires lo <= hi + 1
    ensures |Range(lo, hi)| == hi - lo + 1
    decreases hi - lo + 1
  {
    if lo <= hi { RangeSize(lo, hi - 1); }
  }

  lemma NothingKept(until: int)
    ensures Prune({}, until) == {}
  {
  }

  lemma AllKept(members: set<int>, until: int)
    requires forall x :: x in members ==> x > until
    ensures Prune(members, until) == members
  {
  }

  function AfterGrant(s: State, c: Call, window: int, kept: set<int>): State {
    State(ZSet(kept + {c.now}, Some(c.at + 1000 * window)), s.grants + {c.now}, Some(c))
  }

  /** A call that prunes nothing and finds room. */
  lemma RoomBeside(s: State, c: Call, window: int, max: int)
    requires !Expired(s.z, c.at) && (forall x :: x in s.z.members ==> x > c.now - window) && |s.z.members| < max
    ensures Step(s, c, window, max) == AfterGrant(s, c, window, s.z.members)
  {
    AllKept(s.z.members, c.now - window);
  }

  /** A call that finds the key expired or prunes all of it. */
  lemma RoomAlone(s: State, c: Call, window: int, max: int)
    requires max >= 1 && (Expired(s.z, c.at) || forall x :: x in s.z.members ==> x <= c.now - window)
    ensures Step(s, c, window, max) == AfterGrant(s, c, window, {})
  {
    NothingKept(c.now - window);
    assert Prune(Live(s.z, c.at).members, c.now - window) == {};
  }

  /** A call that prunes nothing and finds no room. */
  lemma NoRoom(s: State, c: Call, window: int, max: int)
    requires !Expired(s.z, c.at) && (forall x :: x in s.z.members ==> x > c.now - window) && |s.z.members| >= max
    ensures !Script(s.z, c, window, max).show && Step(s, c, window, max) == s
  {
    AllKept(s.z.members, c.now - window);
  }

  lemma RangeUp(lo: int, hi: int)
    requires lo <= hi + 1
    ensures Range(lo, hi) + {hi + 1} == Range(lo, hi + 1)
  {
  }

  lemma RangeDown(lo: int, hi: int)
    requires lo <= hi + 1
    ensures Range(lo, hi) + {lo - 1} == Range(lo - 1, hi)
  {
  }

  lemma RunSnoc(calls: seq<Call>, c: Call, window: int, max: int)
    ensures Run(calls + [c], window, max) == Step(Run(calls, window, max), c, window, max)
    ensures Timely(calls + [c], window, max) <==>
              Timely(calls, window, max) && TimelyCall(Run(calls, window, max).last, c, window)
  {
    FrontOfSnoc(calls, c);
  }

  lemma FrontOfSnoc(calls: seq<Call>, c: Call)
    ensures Front(calls + [c]) == calls && Last(calls + [c]) == c
  {
  }

  /** A window has no more seconds than its length. */
  lemma WideCapHolds(grants: set<int>, window: int, max: int)
    requires 0 <= window <= max
    ensures Capped(grants, window, max)
  {
    forall t ensures |Window(grants, t, window)| <= max {
      RangeSize(t - window + 1, t);
      SubsetSize(Window(grants, t, window), Range(t - window + 1, t));
    }
  }

  /** Calls in the seconds 1 to k, each run at once. */
  function Steady(k: nat): (calls: seq<Call>)
    ensures |calls| == k
  {
    seq(k, i => Call(i + 1, 1000 * (i + 1)))
  }

  /** What those calls leave: all granted as long as there is room. */
  function SteadyState(k: nat, window: int): State {
    if k == 0 then START
    else State(ZSet(Range(1, k), Some(1000 * k + 1000 * window)), Range(1, k), Some(Call(k, 1000 * k)))
  }

  lemma SteadyStep(k: nat, window: int, max: int)
    requires k < max <= window
    ensures Step(SteadyState(k, window), Call(k + 1, 1000 * (k + 1)), window, max) == SteadyState(k + 1, window)
    ensures TimelyCall(SteadyState(k, window).last, Call(k + 1, 1000 * (k + 1)), window)
  {
    RangeSize(1, k);
    RoomBeside(SteadyState(k, window), Call(k + 1, 1000 * (k + 1)), window, max);
    RangeUp(1, k);
  }

  lemma {:induction false} SteadyRun(k: nat, window: int, max: int)
    requires k <= max <= window
    ensures Run(Steady(k), window, max) == SteadyState(k, window) && Timely(Steady(k), window, max)
  {
    if k > 0 {
      SteadyRun(k - 1, window, max);
      assert Steady(k) == Steady(k - 1) + [Call(k, 1000 * k)];
      RunSnoc(Steady(k - 1), Call(k, 1000 * k), window, max);
      SteadyStep(k - 1, window, max);
    }
  }

  /** One call late: max grants, then a second still inside their window whose script runs when the key
      has expired. */
  lemma LateCallBreaksCap(window: int, max: int)
    requires 1 <= max < window
    ensures var calls := Steady(max) + [Call(window, 1000 * (max + window))];
            OrderedSeconds(calls) && OrderedTimes(calls) && !Capped(Granted(calls, window, max), window, max)
  {
    var late := Call(window, 1000 * (max + window));
    SteadyRun(max, window, max);
    RunSnoc(Steady(max), late, window, max);
    LateIsGranted(window, max);
    FullWindow(Range(1, max) + {window}, window, max);
    LateIsOrdered(window, max);
  }

  lemma LateIsGranted(window: int, max: int)
    requires 1 <= max < window
    ensures Step(SteadyState(max, window), Call(window, 1000 * (max + window)), window, max).grants ==
              Range(1, max) + {window}
  {
    RoomAlone(SteadyState(max, window), Call(window, 1000 * (max + window)), window, max);
  }

  lemma LateIsOrdered(window: int, max: int)
    requires 1 <= max < window
    ensures OrderedSeconds(Steady(max) + [Call(window, 1000 * (max + window))])
    ensures OrderedTimes(Steady(max) + [Call(window, 1000 * (max + window))])
  {
  }

  lemma FullWindow(grants: set<int>, window: int, max: int)
    requires 1 <= max < window && Range(1, max) + {window} <= grants
    ensures !Capped(grants, window, max)
  {
    RangeSize(1, max);
    SubsetSize(Range(1, max) + {window}, Window(grants, window, window));
  }

  /** Ordered seconds alone keep the cap exactly when it is at least as wide as the window. */
  lemma LateRunsBreakCapIff(window: int, max: int)
    requires window >= 1 && max >= 1
    ensures (exists calls ::
               OrderedSeconds(calls) && OrderedTimes(calls) && !Capped(Granted(calls, window, max), window, max))
              <==> max < window
  {
    if max < window {
      LateCallBreaksCap(window, max);
    } else {
      forall calls: seq<Call> ensures Capped(Granted(calls, window, max), window, max) {
        WideCapHolds(Granted(calls, window, max), window, max);
      }
    }
  }

  /** Seconds 0, -1, -2 and so on, all run at one instant. */
  function Backwards(k: nat): (calls: seq<Call>)
    ensures |calls| == k && forall i :: 0 <= i < k ==> calls[i] == Call(0 - i, 0)
  {
    if k == 0 then [] else Backwards(k - 1) + [Call(1 - k, 0)]
  }

  function BackwardsState(k: nat, window: int): State {
    if k == 0 then START
    else State(ZSet(Range(1 - k, 0), Some(1000 * window)), Range(1 - k, 0), Some(Call(1 - k, 0)))
  }

  lemma BackwardsStep(k: nat, window: int, max: int)
    requires k < max && window >= 1
    ensures Step(BackwardsState(k, window), Call(0 - k, 0), window, max) == BackwardsState(k + 1, window)
    ensures TimelyCall(BackwardsState(k, window).last, Call(0 - k, 0), window)
  {
    RangeSize(1 - k, 0);
    RoomBeside(BackwardsState(k, window), Call(0 - k, 0), window, max);
    RangeDown(1 - k, 0);
  }

  /** The calls seen so far lead to a state. */
  predicate Reaches(calls: seq<Call>, s: State, window: int, max: int) {
    Run(calls, window, max) == s && Timely(calls, window, max)
  }

  lemma RunOnce(calls: seq<Call>, c: Call, s: State, s': State, window: int, max: int)
    requires Reaches(calls, s, window, max)
    requires Step(s, c, window, max) == s' && TimelyCall(s.last, c, window)
    ensures Reaches(calls + [c], s', window, max)
  {
    RunSnoc(calls, c, window, max);
  }

  lemma {:induction false} BackwardsRun(k: nat, window: int, max: int)
    requires k <= max && window >= 1
    ensures Reaches(Backwards(k), BackwardsState(k, window), window, max)
  {
    if k == 0 {
      NoCalls(window, max);
    } else {
      BackwardsRun(k - 1, window, max);
      BackwardsStep(k - 1, window, max);
      RunOnce(Backwards(k - 1), Call(1 - k, 0), BackwardsState(k - 1, window), BackwardsState(k, window), window, max);
    }
  }

  lemma NoCalls(window: int, max: int)
    ensures Reaches([], START, window, max)
  {
  }

  /** For every window and cap, timely scripts that run out of order deny a call whose window is empty. */
  lemma OutOfOrderDenies(window: int, max: int)
    requires window >= 1 && max >= 1
    ensures var calls := Backwards(max) + [Call(0 - max, 0)];
            && OrderedTimes(calls) && Timely(calls, window, max) && !Shown(calls, window, max)
            && Window(Granted(Front(calls), window, max), Last(calls).now, window) == {}
  {
    var c := Call(0 - max, 0);
    BackwardsRun(max, window, max);
    RunSnoc(Backwards(max), c, window, max);
    FrontOfSnoc(Backwards(max), c);
    BackwardsFull(window, max);
    BackwardsOrdered(max);
  }

  lemma BackwardsOrdered(k: nat)
    ensures OrderedTimes(Backwards(k) + [Call(0 - k, 0)])
  {
  }

  lemma BackwardsFull(window: int, max: int)
    requires window >= 1 && max >= 1
    ensures var s, c := BackwardsState(max, window), Call(0 - max, 0);
            && !Script(s.z, c, window, max).show && TimelyCall(s.last, c, window)
            && Window(s.grants, c.now, window) == {}
  {
    RangeSize(1 - max, 0);
    NoRoom(BackwardsState(max, window), Call(0 - max, 0), window, max);
    EmptyWindow(Range(1 - max, 0), 0 - max, window);
  }

  lemma EmptyWindow(grants: set<int>, t: int, window: int)
    requires forall g :: g in grants ==> g > t
    ensures Window(grants, t, window) == {}
  {
  }

  /** A newer second prunes grants that an older second's window still contains. */
  lemma OutOfOrderBreaksCap(window: int, max: int)
    requires 2 <= max < window
    ensures var calls := Steady(max) + [Call(window + max, 1000 * max)] + [Call(window, 1000 * max)];
            OrderedTimes(calls) && Timely(calls, window, max) && !Capped(Granted(calls, window, max), window, max)
  {
    var newer, older := Call(window + max, 1000 * max), Call(window, 1000 * max);
    SteadyRun(max, window, max);
    RunSnoc(Steady(max), newer, window, max);
    RunSnoc(Steady(max) + [newer], older, window, max);
    NewerPrunes(window, max);
    OlderIsGranted(window, max);
    SteadyOrdered(max, newer, older);
    FullWindow(Range(1, max) + {newer.now} + {window}, window, max);
  }

  lemma SteadyOrdered(k: nat, c: Call, d: Call)
    requires 1000 * k <= c.at <= d.at
    ensures OrderedTimes(Steady(k) + [c] + [d])
  {
  }

  function Newer(window: int, max: nat): State {
    AfterGrant(SteadyState(max, window), Call(window + max, 1000 * max), window, {})
  }

  lemma NewerPrunes(window: int, max: int)
    requires 2 <= max < window
    ensures Step(SteadyState(max, window), Call(window + max, 1000 * max), window, max) == Newer(window, max)
    ensures TimelyCall(SteadyState(max, window).last, Call(window + max, 1000 * max), window)
  {
    RoomAlone(SteadyState(max, window), Call(window + max, 1000 * max), window, max);
  }

  lemma OlderIsGranted(window: int, max: int)
    requires 2 <= max < window
    ensures Step(Newer(window, max), Call(window, 1000 * max), window, max).grants ==
              Range(1, max) + {window + max} + {window}
    ensures TimelyCall(Newer(window, max).last, Call(window, 1000 * max), window)
  {
    assert Newer(window, max).z.members == {window + max};
    RoomBeside(Newer(window, max), Call(window, 1000 * max), window, max);
  }

  /** Grants at least a window apart. */
  predicate Apart(grants: set<int>, window: int) {
    forall g, h :: g in grants && h in grants && g < h ==> g + window <= h
  }

  /** The key holds the last grant, which is the newest. */
  ghost predicate HoldsLast(s: State, window: int) {
    && s.z == (if s.last.None? then EMPTY else ZSet({s.last.value.now}, Some(s.last.value.at + 1000 * window)))
    && (forall g :: g in s.grants ==> s.last.Some? && g <= s.last.value.now)
  }

  lemma ApartExtends(grants: set<int>, now: int, window: int)
    requires Apart(grants, window) && window >= 1 && forall g :: g in grants ==> g + window <= now
    ensures Apart(grants + {now}, window)
  {
  }

  /** With a cap of one, timely runs keep grants a window apart even out of order. */
  lemma {:induction false} SingleGrantsApart(calls: seq<Call>, window: int)
    requires Timely(calls, window, 1) && window >= 1
    ensures Apart(Granted(calls, window, 1), window) && HoldsLast(Run(calls, window, 1), window)
    decreases |calls|
  {
    if calls != [] {
      SingleGrantsApart(Front(calls), window);
      SingleStep(Run(Front(calls), window, 1), Last(calls), window);
    }
  }

  lemma SingleStep(s: State, c: Call, window: int)
    requires window >= 1 && TimelyCall(s.last, c, window) && HoldsLast(s, window) && Apart(s.grants, window)
    ensures HoldsLast(Step(s, c, window, 1), window) && Apart(Step(s, c, window, 1).grants, window)
  {
    if s.last.Some? && !Expired(s.z, c.at) && c.now < s.last.value.now + window {
      NoRoom(s, c, window, 1);
    } else {
      RoomAlone(s, c, window, 1);
      assert {} + {c.now} == {c.now};
      ApartExtends(s.grants, c.now, window);
    }
  }

  lemma ApartIsCapped(grants: set<int>, window: int)
    requires Apart(grants, window) && window >= 1
    ensures Capped(grants, window, 1)
  {
    forall t ensures |Window(grants, t, window)| <= 1 {
      var w := Window(grants, t, window);
      if g :| g in w {
        forall h | h in w ensures h == g { }
        assert w == {g};
      } else {
        assert w == {};
      }
    }
  }

  /** Timely scripts out of order can break the cap exactly when it is at least two and below the window. */
  lemma OutOfOrderBreaksCapIff(window: int, max: int)
    requires window >= 1 && max >= 1
    ensures (exists calls ::
               OrderedTimes(calls) && Timely(calls, window, max) && !Capped(Granted(calls, window, max), window, max))
              <==> 2 <= max < window
  {
    if 2 <= max < window {
      OutOfOrderBreaksCap(window, max);
    } else {
      forall calls: seq<Call> | Timely(calls, window, max) ensures Capped(Granted(calls, window, max), window, max) {
        if max == 1 {
          SingleGrantsApart(calls, window);
          ApartIsCapped(Granted(calls, window, max), window);
        } else {
          WideCapHolds(Granted(calls, window, max), window, max);
        }
      }
    }
  }

  // ----- the service -----

  datatype PopConfig = PopConfig(maxPopCount: int, dayInterval: int)

  datatype Answer = Show(show: bool) | ConfigError | StoreError

  datatype Fate = Runs | NeverArrives | AnswerLost

  const KEY_PREFIX := "visionai:user:pop_subscribe_page"

  class ConfigService {
    var keys: map<string, ZSet>

    function Key(userID: string): string {
      KEY_PREFIX + ":" + userID
    }

    function At(key: string): ZSet
      reads this
    {
      if key in keys then keys[key] else EMPTY
    }

    /** The script, command by command. */
    method Eval(key: string, now: int, at: int, windowSeconds: int, maxCount: int) returns (show: bool)
      modifies this
      ensures var r := Script(old(At(key)), Call(now, at), windowSeconds, maxCount);
              show == r.show && keys == old(keys)[key := r.z]
    {
      var z := Live(At(key), at);
      z := z.(members := Prune(z.members, now - windowSeconds));
      var count := |z.members|;
      show := count < maxCount;
      if show {
        z := z.(members := z.members + {now});
        z := z.(expiresAt := Some(at + 1000 * windowSeconds));
      }
      keys := keys[key := z];
    }

    /** now is read before the script is sent; at is when it runs. */
    method ShouldPopSubscribe(config: Option<PopConfig>, userID: string, now: int, at: int, fate: Fate)
      returns (answer: Answer)
      modifies this
      ensures config.None? || config.value.dayInterval <= 0 ==> answer == ConfigError && keys == old(keys)
      ensures config.Some? && config.value.dayInterval > 0 && config.value.maxPopCount <= 0 ==>
                answer == Show(false) && keys == old(keys)
      ensures config.Some? && config.value.dayInterval > 0 && config.value.maxPopCount > 0 ==>
                var r := Script(old(At(Key(userID))), Call(now, at),
                                config.value.dayInterval * 86_400, config.value.maxPopCount);
                && answer == (if fate.Runs? then Show(r.show) else StoreError)
                && keys == (if fate.NeverArrives? then old(keys) else old(keys)[Key(userID) := r.z])
    {
      if config.None? || config.value.dayInterval <= 0 { return ConfigError; }
      if config.value.maxPopCount <= 0 { return Show(false); }
      var windowSeconds := config.value.dayInterval * 24 * 3600;
      if fate.NeverArrives? { return StoreError; }
      var show := Eval(Key(userID), now, at, windowSeconds, config.value.maxPopCount);
      answer := if fate.AnswerLost? then StoreError else Show(show);
    }
  }

  /** Two users have different keys, so a call changes the key of its own user only. */
  lemma KeysDiffer(s: ConfigService, a: string, b: string)
    ensures s.Key(a) == s.Key(b) <==> a == b
  {
    var p := |KEY_PREFIX| + 1;
    assert s.Key(a)[p..] == a && s.Key(b)[p..] == b;
  }

  /** A cap of one: after a grant in second a the next call is shown exactly from second a + window on. */
  lemma ShownAgainAfterWindow(a: int, b: int, window: int)
    requires window >= 1 && a <= b
    ensures var calls := [Call(a, 1000 * a), Call(b, 1000 * b)];
            Shown(calls, window, 1) <==> b >= a + window
  {
    var first, second := Call(a, 1000 * a), Call(b, 1000 * b);
    assert Front([first, second]) == [first] && Front([first]) == [];
    FirstIsGranted(first, window);
    OneLeft(a, b, window);
  }

  lemma FirstIsGranted(c: Call, window: int)
    ensures Run([c], window, 1) == State(ZSet({c.now}, Some(c.at + 1000 * window)), {c.now}, Some(c))
  {
    assert Front([c]) == [];
    assert Prune({}, c.now - window) == {};
    assert {} + {c.now} == {c.now};
  }

  lemma OneLeft(a: int, b: int, window: int)
    requires window >= 1 && a <= b
    ensures Script(ZSet({a}, Some(1000 * a + 1000 * window)), Call(b, 1000 * b), window, 1).show <==> b >= a + window
  {
    if b < a + window {
      assert Prune({a}, b - window) == {a};
    } else {
      assert Prune({}, b - window) == {};
    }
  }
}
