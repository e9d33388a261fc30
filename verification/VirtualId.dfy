/** Ids of virtual workflows: printed as model_direct_NAME_SUFFIX, parsed by splitting at underscores. */
module VirtualId {
  import opened Basics

  const PREFIX := "model_direct_"

  function Split(s: string): (parts: seq<string>)
    ensures parts != []
  {
    if s == [] then [""]
    else
      var rest := Split(s[1..]);
      if s[0] == '_' then [""] + rest else [[s[0]] + rest[0]] + rest[1..]
  }

  function Join(parts: seq<string>): string {
    if parts == [] then ""
    else if |parts| == 1 then parts[0]
    else parts[0] + "_" + Join(parts[1..])
  }

  /** suffix is the first eight characters of a UUID. */
  function Print(name: string, suffix: string): string {
    PREFIX + name + "_" + suffix
  }

  predicate IsVirtual(id: string) { PREFIX <= id }

  /** The model name of a virtual id; None is the format error. */
  function ParseName(id: string): Option<string>
    requires IsVirtual(id)
  {
    var parts := Split(id);
    if |parts| < 3 then None else Some(Join(parts[2..|parts| - 1]))
  }

  // ----- splitting and joining -----

  lemma {:induction false} JoinSplit(s: string)
    ensures Join(Split(s)) == s
  {
    if s != [] {
      var rest := Split(s[1..]);
      JoinSplit(s[1..]);
      if s[0] == '_' {
        assert Split(s)[1..] == rest;
      } else if |rest| > 1 {
        assert Split(s)[1..] == rest[1..];
        assert [s[0]] + rest[0] + "_" + Join(rest[1..]) == [s[0]] + (rest[0] + "_" + Join(rest[1..]));
      }
    }
  }

  lemma {:induction false} SplitOne(s: string)
    requires UnderscoreFree(s)
    ensures Split(s) == [s]
  {
    if s != [] {
      SplitOne(s[1..]);
      assert s == [s[0]] + s[1..];
    }
  }

  lemma {:induction false} SplitConcat(a: string, b: string)
    ensures Split(a + "_" + b) == Split(a) + Split(b)
  {
    var s := a + "_" + b;
    if a == [] {
      assert s[1..] == b;
    } else {
      assert s[1..] == a[1..] + "_" + b && s[0] == a[0];
      SplitConcat(a[1..], b);
    }
  }

  lemma {:induction false} OnePartIff(s: string)
    ensures |Split(s)| == 1 <==> UnderscoreFree(s)
  {
    if s != [] {
      OnePartIff(s[1..]);
      assert s == [s[0]] + s[1..];
    }
  }

  lemma {:induction false} JoinSnoc(parts: seq<string>, last: string)
    requires parts != []
    ensures Join(parts + [last]) == Join(parts) + "_" + last
  {
    if |parts| > 1 {
      JoinSnoc(parts[1..], last);
      assert (parts + [last])[1..] == parts[1..] + [last];
      assert parts[0] + "_" + (Join(parts[1..]) + "_" + last) == parts[0] + "_" + Join(parts[1..]) + "_" + last;
    } else {
      assert (parts + [last])[1..] == [last];
    }
  }

  lemma SplitVirtual(id: string)
    requires IsVirtual(id)
    ensures Split(id) == ["model", "direct"] + Split(id[|PREFIX|..])
  {
    var rest := id[|PREFIX|..];
    assert PREFIX == "model" + "_" + "direct" + "_";
    assert id == PREFIX + rest == "model" + "_" + ("direct" + "_" + rest);
    SplitTwo("model", "direct", rest);
  }

  lemma SplitTwo(a: string, b: string, rest: string)
    requires UnderscoreFree(a) && UnderscoreFree(b)
    ensures Split(a + "_" + (b + "_" + rest)) == [a, b] + Split(rest)
  {
    SplitConcat(a, b + "_" + rest);
    SplitConcat(b, rest);
    SplitOne(a);
    SplitOne(b);
  }

  // ----- main results -----

  /** Every model name comes back, empty or with underscores, behind any underscore-free suffix. */
  lemma ParseUndoesPrint(name: string, suffix: string)
    requires UnderscoreFree(suffix)
    ensures IsVirtual(Print(name, suffix)) && ParseName(Print(name, suffix)) == Some(name)
  {
    var id := Print(name, suffix);
    assert id == PREFIX + (name + "_" + suffix);
    assert id[|PREFIX|..] == name + "_" + suffix;
    SplitVirtual(id);
    SplitConcat(name, suffix);
    SplitOne(suffix);
    var parts := Split(id);
    assert parts == ["model", "direct"] + Split(name) + [suffix];
    assert parts[2..|parts| - 1] == Split(name);
    JoinSplit(name);
  }

  /** The format error cannot happen: the prefix alone already has three parts. */
  lemma FormatErrorUnreachable(id: string)
    requires "model_direct_" <= id
    ensures ParseName(id).Some?
  {
    SplitVirtual(id);
  }

  /** Printing what was parsed gives a virtual id back exactly when it has an underscore behind the
      prefix; otherwise the name read is empty. */
  lemma PrintUndoesParseIff(id: string)
    requires "model_direct_" <= id
    ensures var parts := Split(id);
            && ParseName(id).Some?
            && (Print(ParseName(id).value, parts[|parts| - 1]) == id <==> !UnderscoreFree(id[|PREFIX|..]))
            && (UnderscoreFree(id[|PREFIX|..]) ==> ParseName(id).value == "")
  {
    var rest := id[|PREFIX|..];
    SplitVirtual(id);
    var tail := Split(rest);
    var front, last := tail[..|tail| - 1], tail[|tail| - 1];
    assert Split(id)[2..|Split(id)| - 1] == front;
    PrintIsIdIff(id, Join(front), last);
    NameBeforeLast(rest);
  }

  lemma PrintIsIdIff(id: string, name: string, last: string)
    requires IsVirtual(id)
    ensures Print(name, last) == id <==> name + "_" + last == id[|PREFIX|..]
  {
    assert Print(name, last)[|PREFIX|..] == name + "_" + last;
    assert id == PREFIX + id[|PREFIX|..];
    assert Print(name, last) == PREFIX + (name + "_" + last);
  }

  lemma NameBeforeLast(rest: string)
    ensures var tail := Split(rest);
            var name := Join(tail[..|tail| - 1]);
            if UnderscoreFree(rest) then name == "" else name + "_" + tail[|tail| - 1] == rest
    ensures var tail := Split(rest);
            UnderscoreFree(rest) ==> tail[|tail| - 1] == rest
  {
    var tail := Split(rest);
    OnePartIff(rest);
    JoinSplit(rest);
    if |tail| > 1 {
      var front, last := tail[..|tail| - 1], tail[|tail| - 1];
      assert tail == front + [last];
      JoinSnoc(front, last);
    }
  }
}
