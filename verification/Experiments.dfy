/** Product experiments: the first match after sorting by priority, and the product list it shows. */
module Experiments {
  import opened Basics

  type Modification = map<string, string>

  datatype Payload = Payload(inclusions: seq<string>, exclusions: seq<string>, modifications: map<string, Modification>)

  datatype Experiment = Experiment(name: string, priority: int, suffixes: seq<int>, payload: Payload)

  // ----- matching -----

  /** The last byte of the user id, when it is a digit. */
  function LastDigit(userID: string): (d: Option<int>)
    ensures d.Some? ==> 0 <= d.value <= 9 && userID != "" && userID[|userID| - 1] as int == '0' as int + d.value
    ensures d.None? ==> userID == "" || userID[|userID| - 1] !in "0123456789"
  {
    if userID == "" then None
    else
      var c := userID[|userID| - 1];
      if '0' <= c <= '9' then Some(c as int - '0' as int) else None
  }

  predicate CheckRule(userID: string, suffixes: seq<int>) {
    LastDigit(userID).Some? && LastDigit(userID).value in suffixes
  }

  /** A rule matches exactly the users whose id ends with one of its digits. */
  lemma RuleMatchesIff(userID: string, suffixes: seq<int>)
    ensures CheckRule(userID, suffixes) <==>
              exists d :: d in suffixes && 0 <= d <= 9 && userID != "" &&
                userID[|userID| - 1] as int == '0' as int + d
  {
    if CheckRule(userID, suffixes) { assert LastDigit(userID).value in suffixes; }
  }

  predicate ByPriority(s: seq<Experiment>) {
    forall i, j :: 0 <= i < j < |s| ==> s[i].priority >= s[j].priority
  }

  /** Best is a matching experiment that no matching one exceeds in priority. */
  predicate IsBest(userID: string, all: seq<Experiment>, best: Experiment) {
    && best in all && CheckRule(userID, best.suffixes)
    && forall e :: e in all && CheckRule(userID, e.suffixes) ==> e.priority <= best.priority
  }

  predicate Permutation(s: seq<Experiment>, t: seq<Experiment>) {
    multiset(s) == multiset(t)
  }

  lemma SameMembers(s: seq<Experiment>, t: seq<Experiment>)
    requires Permutation(s, t)
    ensures forall e :: e in s <==> e in t
  {
    forall e ensures e in s <==> e in t {
      assert e in multiset(s) <==> e in multiset(t);
    }
  }

  /** In place; the order of equal priorities is not promised. */
  method SortByPriority(a: array<Experiment>)
    modifies a
    ensures ByPriority(a[..]) && Permutation(a[..], old(a[..]))
  {
    for i := 0 to a.Length
      invariant ByPriority(a[..i])
      invariant Permutation(a[..], old(a[..]))
    {
      SinkIn(a, i);
    }
    assert a[..a.Length] == a[..];
  }

  /** Moves element i to its place among the sorted ones before it. */
  method SinkIn(a: array<Experiment>, i: nat)
    requires i < a.Length && ByPriority(a[..i])
    modifies a
    ensures ByPriority(a[..i + 1]) && Permutation(a[..], old(a[..]))
  {
    var j := i;
    assert forall x :: 0 <= x < i ==> a[..i][x] == a[x];
    while j > 0 && a[j].priority > a[j - 1].priority
      invariant 0 <= j <= i
      invariant SortedBut(a[..], i, j)
      invariant Permutation(a[..], old(a[..]))
    {
      ghost var before := a[..];
      a[j - 1], a[j] := a[j], a[j - 1];
      assert a[..] == before[j - 1 := before[j]][j := before[j - 1]];
      SwapPermutes(before, a[..], j - 1, j);
      SwapSorts(before, a[..], i, j);
      j := j - 1;
    }
    InPlace(a[..], i, j);
  }

  /** The first i + 1 elements are sorted except that j may belong further to the front. */
  predicate SortedBut(s: seq<Experiment>, i: nat, j: nat) {
    && j <= i < |s|
    && (forall x, y :: 0 <= x < y <= i && x != j && y != j ==> s[x].priority >= s[y].priority)
    && (forall y :: j < y <= i ==> s[j].priority >= s[y].priority)
  }

  lemma SwapSorts(s: seq<Experiment>, t: seq<Experiment>, i: nat, j: nat)
    requires SortedBut(s, i, j) && j > 0 && s[j].priority > s[j - 1].priority
    requires t == s[j - 1 := s[j]][j := s[j - 1]]
    ensures SortedBut(t, i, j - 1)
  {
    forall x, y | 0 <= x < y <= i && x != j - 1 && y != j - 1 ensures t[x].priority >= t[y].priority {
      assert t[x] == s[if x == j then j - 1 else x] && t[y] == s[if y == j then j - 1 else y];
    }
    forall y | j - 1 < y <= i ensures t[j - 1].priority >= t[y].priority {
      assert t[y] == s[if y == j then j - 1 else y];
    }
  }

  lemma InPlace(s: seq<Experiment>, i: nat, j: nat)
    requires SortedBut(s, i, j) && (j == 0 || s[j].priority <= s[j - 1].priority)
    ensures ByPriority(s[..i + 1])
  {
    forall x, y | 0 <= x < y <= i ensures s[x].priority >= s[y].priority {
      if y == j { assert x < j - 1 ==> s[x].priority >= s[j - 1].priority; }
    }
  }

  lemma SwapPermutes(s: seq<Experiment>, t: seq<Experiment>, i: nat, j: nat)
    requires i < j < |s| && t == s[i := s[j]][j := s[i]]
    ensures Permutation(s, t)
  {
  }

  /** Sort, then take the first that matches: its position, or none. */
  method MatchExperiment(userID: string, experiments: array<Experiment>) returns (found: Option<nat>)
    modifies experiments
    ensures Permutation(experiments[..], old(experiments[..]))
    ensures found.None? <==> forall e :: e in old(experiments[..]) ==> !CheckRule(userID, e.suffixes)
    ensures found.Some? ==> found.value < experiments.Length
                            && IsBest(userID, old(experiments[..]), experiments[found.value])
  {
    SortByPriority(experiments);
    SameMembers(experiments[..], old(experiments[..]));
    ghost var sorted := experiments[..];
    for i := 0 to experiments.Length
      invariant experiments[..] == sorted
      invariant forall k :: 0 <= k < i ==> !CheckRule(userID, sorted[k].suffixes)
    {
      if CheckRule(userID, experiments[i].suffixes) {
        FirstMatchIsBest(userID, sorted, i);
        BestOfPermutation(userID, sorted, old(experiments[..]), sorted[i]);
        return Some(i);
      }
    }
    found := None;
  }

  /** Scanning a list sorted by priority finds a maximum. */
  lemma FirstMatchIsBest(userID: string, sorted: seq<Experiment>, i: nat)
    requires ByPriority(sorted) && i < |sorted| && CheckRule(userID, sorted[i].suffixes)
    requires forall k :: 0 <= k < i ==> !CheckRule(userID, sorted[k].suffixes)
    ensures IsBest(userID, sorted, sorted[i])
  {
    forall e | e in sorted && CheckRule(userID, e.suffixes) ensures e.priority <= sorted[i].priority {
      var k :| 0 <= k < |sorted| && sorted[k] == e;
      assert k >= i;
    }
  }

  lemma BestOfPermutation(userID: string, s: seq<Experiment>, t: seq<Experiment>, best: Experiment)
    requires Permutation(s, t) && IsBest(userID, s, best)
    ensures IsBest(userID, t, best)
  {
    SameMembers(s, t);
  }

  // ----- applying -----

  datatype Fields = Fields(productID: string, attributes: map<string, string>)

  class Product {
    var fields: Fields

    constructor (fields: Fields)
      ensures this.fields == fields
    {
      this.fields := fields;
    }
  }

  function FieldsOf(ps: seq<Product>): (r: seq<Fields>)
    reads ps
    ensures |r| == |ps|
  {
    seq(|ps|, i requires 0 <= i < |ps| reads ps => ps[i].fields)
  }

  predicate Shown(f: Fields, payload: Payload) {
    (payload.inclusions == [] || f.productID in payload.inclusions) && f.productID !in payload.exclusions
  }

  /** The products shown, in base order. */
  function Selected(fs: seq<Fields>, payload: Payload): seq<Fields> {
    if fs == [] then []
    else (if Shown(fs[0], payload) then [fs[0]] else []) + Selected(fs[1..], payload)
  }

  /** Writing the modified attributes over a product and reading the result back, which can fail. */
  type Rewrite = (Fields, Modification) -> Option<Fields>

  function Modified(f: Fields, payload: Payload, rewrite: Rewrite): Option<Fields> {
    if f.productID in payload.modifications then rewrite(f, payload.modifications[f.productID]) else Some(f)
  }

  /** All of them, or the failure of one. */
  function ModifiedAll(fs: seq<Fields>, payload: Payload, rewrite: Rewrite): (r: Option<seq<Fields>>)
    ensures r.Some? ==> |r.value| == |fs|
  {
    if fs == [] then Some([])
    else
      var first := Modified(fs[0], payload, rewrite);
      var rest := ModifiedAll(fs[1..], payload, rewrite);
      if first.None? || rest.None? then None else Some([first.value] + rest.value)
  }

  function Applied(fs: seq<Fields>, payload: Payload, rewrite: Rewrite): Option<seq<Fields>> {
    ModifiedAll(Selected(fs, payload), payload, rewrite)
  }

  function Included(fs: seq<Fields>, payload: Payload): seq<Fields> {
    if fs == [] then []
    else
      (if payload.inclusions == [] || fs[0].productID in payload.inclusions then [fs[0]] else [])
      + Included(fs[1..], payload)
  }

  function Remaining(fs: seq<Fields>, payload: Payload): seq<Fields> {
    if fs == [] then []
    else (if fs[0].productID in payload.exclusions then [] else [fs[0]]) + Remaining(fs[1..], payload)
  }

  /** Two passes select what one does. */
  lemma {:induction false} TwoPasses(fs: seq<Fields>, payload: Payload)
    ensures Remaining(Included(fs, payload), payload) == Selected(fs, payload)
  {
    if fs != [] {
      TwoPasses(fs[1..], payload);
      if payload.inclusions == [] || fs[0].productID in payload.inclusions {
        assert Included(fs, payload)[1..] == Included(fs[1..], payload);
      } else {
        assert Included(fs, payload) == Included(fs[1..], payload);
      }
    }
  }

  lemma {:induction false} IncludedSnoc(fs: seq<Fields>, f: Fields, payload: Payload)
    ensures Included(fs + [f], payload) == Included(fs, payload) +
              if payload.inclusions == [] || f.productID in payload.inclusions then [f] else []
  {
    if fs == [] {
      assert [f][1..] == [];
    } else {
      assert (fs + [f])[1..] == fs[1..] + [f];
      IncludedSnoc(fs[1..], f, payload);
    }
  }

  lemma {:induction false} RemainingSnoc(fs: seq<Fields>, f: Fields, payload: Payload)
    ensures Remaining(fs + [f], payload) ==
              Remaining(fs, payload) + if f.productID in payload.exclusions then [] else [f]
  {
    if fs == [] {
      assert [f][1..] == [];
    } else {
      assert (fs + [f])[1..] == fs[1..] + [f];
      RemainingSnoc(fs[1..], f, payload);
    }
  }

  lemma {:induction false} ModifiedAllIff(fs: seq<Fields>, payload: Payload, rewrite: Rewrite)
    ensures ModifiedAll(fs, payload, rewrite).None? <==>
              exists i :: 0 <= i < |fs| && Modified(fs[i], payload, rewrite).None?
    ensures ModifiedAll(fs, payload, rewrite).Some? ==>
              forall i :: 0 <= i < |fs| ==>
                  Some(ModifiedAll(fs, payload, rewrite).value[i]) == Modified(fs[i], payload, rewrite)
  {
    if fs != [] {
      ModifiedAllIff(fs[1..], payload, rewrite);
      assert forall i :: 0 < i < |fs| ==> fs[i] == fs[1..][i - 1];
      assert forall i :: 0 <= i < |fs| - 1 ==> fs[1..][i] == fs[i + 1];
    }
  }

  /** Fresh copies of the included products. */
  method CopyIncluded(products: seq<Product>, payload: Payload) returns (copies: seq<Product>)
    ensures fresh(copies) && FieldsOf(copies) == Included(FieldsOf(products), payload)
  {
    copies := [];
    ghost var base := FieldsOf(products);
    assert base[..0] == [];
    for i := 0 to |products|
      invariant fresh(copies) && FieldsOf(products) == base
      invariant FieldsOf(copies) == Included(base[..i], payload)
    {
      IncludedSnoc(base[..i], base[i], payload);
      assert base[..i + 1] == base[..i] + [base[i]];
      if payload.inclusions == [] || products[i].fields.productID in payload.inclusions {
        var newP := new Product(products[i].fields);
        copies := copies + [newP];
      }
    }
    assert base[..|base|] == base;
  }

  method DropExcluded(products: seq<Product>, payload: Payload) returns (remaining: seq<Product>)
    ensures forall p :: p in remaining ==> p in products
    ensures FieldsOf(remaining) == Remaining(FieldsOf(products), payload)
  {
    remaining := [];
    var base := FieldsOf(products);
    assert base[..0] == [];
    for i := 0 to |products|
      invariant forall p :: p in remaining ==> p in products
      invariant FieldsOf(remaining) == Remaining(base[..i], payload)
    {
      RemainingSnoc(base[..i], base[i], payload);
      assert base[..i + 1] == base[..i] + [base[i]];
      if products[i].fields.productID !in payload.exclusions {
        remaining := remaining + [products[i]];
      }
    }
    assert base[..|base|] == base;
  }

  /** The base products are only read: nothing that existed before is modified. */
  method ApplyExperiment(products: seq<Product>, payload: Payload, rewrite: Rewrite) returns (r: Option<seq<Product>>)
    ensures Applied(FieldsOf(products), payload, rewrite).None? <==> r.None?
    ensures r.Some? ==> forall p :: p in r.value ==> fresh(p)
    ensures r.Some? ==> Some(FieldsOf(r.value)) == Applied(FieldsOf(products), payload, rewrite)
  {
    ghost var base := FieldsOf(products);
    var copies := CopyIncluded(products, payload);
    var filtered := DropExcluded(copies, payload);
    TwoPasses(base, payload);
    assert FieldsOf(filtered) == Selected(base, payload);
    r := ModifyEach(filtered, payload, rewrite);
    assert FieldsOf(products) == base;
    if r.Some? {
      forall p | p in r.value ensures fresh(p) {
        if p in filtered { assert p in copies; }
      }
    }
  }

  /** Replaces the modified products by new ones. */
  method ModifyEach(products: seq<Product>, payload: Payload, rewrite: Rewrite) returns (r: Option<seq<Product>>)
    ensures ModifiedAll(FieldsOf(products), payload, rewrite).None? <==> r.None?
    ensures r.Some? ==> Some(FieldsOf(r.value)) == ModifiedAll(FieldsOf(products), payload, rewrite)
    ensures r.Some? ==> forall p :: p in r.value ==> p in products || fresh(p)
  {
    var filtered := products;
    ghost var before := FieldsOf(products);
    ModifiedAllIff(before, payload, rewrite);
    for i := 0 to |products|
      invariant |filtered| == |products| && FieldsOf(products) == before
      invariant forall p :: p in filtered ==> p in products || fresh(p)
      invariant forall k :: i <= k < |filtered| ==> filtered[k] == products[k]
      invariant forall k :: 0 <= k < i ==> Some(filtered[k].fields) == Modified(before[k], payload, rewrite)
    {
      var p := filtered[i];
      assert p.fields == before[i];
      if p.fields.productID in payload.modifications {
        var modified := rewrite(p.fields, payload.modifications[p.fields.productID]);
        if modified.None? {
          assert Modified(before[i], payload, rewrite).None?;
          return None;
        }
        var modifiedProduct := new Product(modified.value);
        filtered := filtered[i := modifiedProduct];
      }
    }
    r := Some(filtered);
    assert ModifiedAll(before, payload, rewrite).Some?;
    assert FieldsOf(filtered) == ModifiedAll(before, payload, rewrite).value;
  }

  // ----- what is shown -----

  /** A product of the base list is shown exactly when it is included and not excluded, and what is
      shown keeps the base order and multiplicity. */
  lemma {:induction false} SelectedMembers(fs: seq<Fields>, payload: Payload)
    ensures forall f :: multiset(Selected(fs, payload))[f] ==
              if (payload.inclusions == [] || f.productID in payload.inclusions) && f.productID !in payload.exclusions
              then multiset(fs)[f] else 0
  {
    if fs != [] {
      SelectedMembers(fs[1..], payload);
      assert fs == [fs[0]] + fs[1..];
    }
  }

  /** Shown products stand in the base order. */
  lemma {:induction false} SelectedOrder(fs: seq<Fields>, payload: Payload) returns (at: seq<nat>)
    ensures |at| == |Selected(fs, payload)|
    ensures forall i :: 0 <= i < |at| ==> at[i] < |fs| && fs[at[i]] == Selected(fs, payload)[i]
    ensures forall i, j :: 0 <= i < j < |at| ==> at[i] < at[j]
  {
    if fs == [] {
      at := [];
    } else {
      var rest := SelectedOrder(fs[1..], payload);
      var shifted := seq(|rest|, i requires 0 <= i < |rest| => rest[i] + 1);
      at := if Shown(fs[0], payload) then [0] + shifted else shifted;
    }
  }

  /** What is shown is the selection, in which exactly the products with a modification are rewritten by it. */
  lemma ListedIsRewritten(fs: seq<Fields>, payload: Payload, rewrite: Rewrite, i: nat)
    requires Applied(fs, payload, rewrite).Some? && i < |Selected(fs, payload)|
    ensures |Applied(fs, payload, rewrite).value| == |Selected(fs, payload)|
    ensures var f := Selected(fs, payload)[i];
            if f.productID in payload.modifications
            then Some(Applied(fs, payload, rewrite).value[i]) == rewrite(f, payload.modifications[f.productID])
            else Applied(fs, payload, rewrite).value[i] == f
  {
    ModifiedAllIff(Selected(fs, payload), payload, rewrite);
  }

  /** Without modifications it never fails and shows precisely the selected products. */
  lemma {:induction false} NoModifications(fs: seq<Fields>, payload: Payload, rewrite: Rewrite)
    requires payload.modifications == map[]
    ensures Applied(fs, payload, rewrite) == Some(Selected(fs, payload))
  {
    var selected := Selected(fs, payload);
    ModifiedAllIff(selected, payload, rewrite);
    assert ModifiedAll(selected, payload, rewrite).value == selected;
  }

  /** It fails exactly when the modification of some shown product does. */
  lemma FailsIff(fs: seq<Fields>, payload: Payload, rewrite: Rewrite)
    ensures Applied(fs, payload, rewrite).None? <==>
              exists f :: f in fs && Shown(f, payload) && f.productID in payload.modifications &&
                rewrite(f, payload.modifications[f.productID]).None?
  {
    var selected := Selected(fs, payload);
    ModifiedAllIff(selected, payload, rewrite);
    SelectedMembers(fs, payload);
    forall f ensures f in selected <==> f in fs && Shown(f, payload) {
      assert f in selected <==> multiset(selected)[f] > 0;
      assert f in fs <==> multiset(fs)[f] > 0;
    }
  }
}
