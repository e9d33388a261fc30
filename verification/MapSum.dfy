/** The sum of the values of a finite map, in whatever order a loop visits it. */
module MapSum {

  ghost function SumOn(m: map<nat, int>, s: set<nat>): int
    requires s <= m.Keys
  {
    if s == {} then 0 else var k :| k in s; m[k] + SumOn(m, s - {k})
  }

  ghost function Sum(m: map<nat, int>): int {
    SumOn(m, m.Keys)
  }

  function At(m: map<nat, int>, k: nat): int {
    if k in m then m[k] else 0
  }

  /** Any key may be taken first. */
  lemma {:induction false} SumOnRemove(m: map<nat, int>, s: set<nat>, k: nat)
    requires k in s && s <= m.Keys
    ensures SumOn(m, s) == m[k] + SumOn(m, s - {k})
    decreases |s|
  {
    var c :| c in s && SumOn(m, s) == m[c] + SumOn(m, s - {c});
    if c != k {
      SumOnRemove(m, s - {c}, k);
      SumOnRemove(m, s - {k}, c);
      assert s - {c} - {k} == s - {k} - {c};
    }
  }

  lemma {:induction false} SumOnPointwise(m: map<nat, int>, d: map<nat, int>, r: map<nat, int>, s: set<nat>)
    requires s <= m.Keys && s <= d.Keys && s <= r.Keys
    requires forall k :: k in s ==> r[k] == m[k] + d[k]
    ensures SumOn(r, s) == SumOn(m, s) + SumOn(d, s)
    decreases |s|
  {
    if s != {} {
      var k :| k in s;
      SumOnPointwise(m, d, r, s - {k});
      SumOnRemove(m, s, k);
      SumOnRemove(d, s, k);
      SumOnRemove(r, s, k);
    }
  }

  lemma {:induction false} SumOnMonotone(a: map<nat, int>, b: map<nat, int>, s: set<nat>)
    requires s <= a.Keys && s <= b.Keys && forall k :: k in s ==> a[k] <= b[k]
    ensures SumOn(a, s) <= SumOn(b, s)
    decreases |s|
  {
    if s != {} {
      var k :| k in s;
      SumOnMonotone(a, b, s - {k});
      SumOnRemove(a, s, k);
      SumOnRemove(b, s, k);
    }
  }

  /** Keys that carry zero, or are absent, do not matter. */
  lemma {:induction false} SumOnExtend(a: map<nat, int>, b: map<nat, int>, s: set<nat>)
    requires a.Keys <= s <= b.Keys
    requires forall k :: k in s ==> b[k] == At(a, k)
    ensures SumOn(b, s) == Sum(a)
    decreases |s|
  {
    if k :| k in s - a.Keys {
      SumOnExtend(a, b, s - {k});
      SumOnRemove(b, s, k);
    } else {
      assert s == a.Keys by {
        forall x | x in s ensures x in a.Keys { assert x !in s - a.Keys; }
      }
      SumOnMonotone(a, b, s);
      SumOnMonotone(b, a, s);
    }
  }

  lemma SumInsert(m: map<nat, int>, k: nat, v: int)
    requires k !in m
    ensures Sum(m[k := v]) == Sum(m) + v
  {
    var m' := m[k := v];
    SumOnRemove(m', m'.Keys, k);
    assert m'.Keys - {k} == m.Keys;
    SumOnMonotone(m, m', m.Keys);
    SumOnMonotone(m', m, m.Keys);
  }

  /** Adding one map into another, key by key, adds the sums. */
  lemma SumOfPointwise(m: map<nat, int>, d: map<nat, int>, r: map<nat, int>)
    requires d.Keys <= m.Keys == r.Keys
    requires forall k :: k in m ==> r[k] == m[k] + At(d, k)
    ensures Sum(r) == Sum(m) + Sum(d)
  {
    var full := map k | k in m :: At(d, k);
    SumOnExtend(d, full, m.Keys);
    SumOnPointwise(m, full, r, m.Keys);
  }
}
