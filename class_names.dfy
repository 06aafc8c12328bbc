/** `cn` from `lib/utils.ts`: the class-name joiner. Its arguments are
    strings, `undefined`, `null` or `false`; the falsy ones are dropped and
    the rest joined with single spaces. */
module ClassNames {

  datatype Arg = Text(s: string) | Undefined | NullArg | False

  /** `Boolean(a)` for an argument: only a non-empty string survives. */
  predicate Kept(a: Arg)
  {
    a.Text? && a.s != ""
  }

  /** `args.filter(Boolean)`: the kept strings in argument order. */
  function Filter(args: seq<Arg>): (r: seq<string>)
    ensures |r| <= |args|
    ensures forall i :: 0 <= i < |r| ==> r[i] != ""
    ensures (forall i :: 0 <= i < |args| ==> !Kept(args[i])) <==> r == []
  {
    if args == [] then []
    else if Kept(args[0]) then [args[0].s] + Filter(args[1..])
    else Filter(args[1..])
  }

  /** Filtering distributes over concatenation: kept arguments keep their
      relative order. */
  lemma {:induction false} FilterAppend(a: seq<Arg>, b: seq<Arg>)
    ensures Filter(a + b) == Filter(a) + Filter(b)
  {
    if a != [] {
      assert (a + b)[1..] == a[1..] + b;
      FilterAppend(a[1..], b);
    } else {
      assert a + b == b;
    }
  }

  /** `parts.join(" ")`. */
  function Join(parts: seq<string>): string
  {
    if |parts| == 0 then ""
    else if |parts| == 1 then parts[0]
    else parts[0] + " " + Join(parts[1..])
  }

  function TotalLength(parts: seq<string>): nat
  {
    if parts == [] then 0 else |parts[0]| + TotalLength(parts[1..])
  }

  /** `cn(...args)`. */
  function Cn(args: seq<Arg>): (r: string)
  {
    Join(Filter(args))
  }

  /** No truthy argument gives the empty string; a single one comes back
      unchanged. */
  lemma CnDegenerate(args: seq<Arg>)
    ensures Filter(args) == [] ==> Cn(args) == ""
    ensures |Filter(args)| == 1 ==> Cn(args) == Filter(args)[0]
  {
  }

  /** The joined length is the sum of the kept lengths plus one space
      between each neighbouring pair. */
  lemma {:induction false} JoinLength(parts: seq<string>)
    requires |parts| >= 1
    ensures |Join(parts)| == TotalLength(parts) + |parts| - 1
  {
    if |parts| > 1 {
      JoinLength(parts[1..]);
    }
  }

  /** The result is empty exactly when no argument is kept. */
  lemma CnEmptyIffNothingKept(args: seq<Arg>)
    ensures Cn(args) == "" <==> forall i :: 0 <= i < |args| ==> !Kept(args[i])
  {
    var parts := Filter(args);
    if parts != [] {
      JoinLength(parts);
      assert TotalLength(parts) >= |parts[0]| > 0;
    }
  }

  /** `s.split(" ")`, building the current piece in `cur`. */
  function SplitFrom(s: string, cur: string): (r: seq<string>)
    ensures |r| >= 1
  {
    if s == [] then [cur]
    else if s[0] == ' ' then [cur] + SplitFrom(s[1..], "")
    else SplitFrom(s[1..], cur + [s[0]])
  }

  function Split(s: string): seq<string>
  {
    SplitFrom(s, "")
  }

  predicate NoSpace(s: string)
  {
    forall i :: 0 <= i < |s| ==> s[i] != ' '
  }

  lemma {:induction false} SplitWord(p: string, rest: string, cur: string)
    requires NoSpace(p)
    ensures SplitFrom(p + rest, cur) == SplitFrom(rest, cur + p)
  {
    if p != [] {
      assert (p + rest)[1..] == p[1..] + rest;
      SplitWord(p[1..], rest, cur + [p[0]]);
      assert cur + [p[0]] + p[1..] == cur + p;
    } else {
      assert p + rest == rest;
      assert cur + p == cur;
    }
  }

  /** Splitting at the spaces undoes the join when no part holds a space. */
  lemma {:induction false} SplitJoin(parts: seq<string>)
    requires |parts| >= 1
    requires forall i :: 0 <= i < |parts| ==> NoSpace(parts[i])
    ensures Split(Join(parts)) == parts
  {
    if |parts| == 1 {
      SplitWord(parts[0], "", "");
      assert parts[0] + "" == parts[0];
      assert "" + parts[0] == parts[0];
    } else {
      var rest := Join(parts[1..]);
      SplitWord(parts[0], " " + rest, "");
      assert parts[0] + " " + rest == parts[0] + (" " + rest);
      assert "" + parts[0] == parts[0];
      assert (" " + rest)[1..] == rest;
      SplitJoin(parts[1..]);
      assert [parts[0]] + parts[1..] == parts;
    }
  }

  /** Round trip of `cn`: when no argument holds a space and at least one is
      kept, the class list splits back into exactly the kept arguments in
      order. */
  lemma CnSplitsBack(args: seq<Arg>)
    requires forall i :: 0 <= i < |args| ==> args[i].Text? ==> NoSpace(args[i].s)
    requires exists i :: 0 <= i < |args| && Kept(args[i])
    ensures Split(Cn(args)) == Filter(args)
  {
    KeptHaveNoSpace(args);
    SplitJoin(Filter(args));
  }

  lemma {:induction false} KeptHaveNoSpace(args: seq<Arg>)
    requires forall i :: 0 <= i < |args| ==> args[i].Text? ==> NoSpace(args[i].s)
    ensures forall j :: 0 <= j < |Filter(args)| ==> NoSpace(Filter(args)[j])
  {
    if args != [] {
      KeptHaveNoSpace(args[1..]);
    }
  }
}
