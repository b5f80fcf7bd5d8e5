/** The class-name joiner `cn`, defined identically in src/pages/Coupon.tsx
    and src/pages/companyRegister.tsx: `classes.filter(Boolean).join(' ')`. */
module ClassNames {

  /** One argument of `cn`: `string | undefined | null | false`. */
  datatype ClassArg = Str(s: string) | Undefined | Null | False

  /** `Boolean(arg)`: only a non-empty string is truthy. */
  predicate Truthy(a: ClassArg) {
    a.Str? && a.s != ""
  }

  /** `classes.filter(Boolean)`, with each kept string unwrapped. */
  function Kept(args: seq<ClassArg>): (r: seq<string>)
    ensures |r| <= |args|
    ensures forall k :: 0 <= k < |r| ==> r[k] != ""
  {
    if |args| == 0 then []
    else (if Truthy(args[0]) then [args[0].s] else []) + Kept(args[1..])
  }

  /** `parts.join(' ')`. */
  function Join(parts: seq<string>): string {
    if |parts| == 0 then ""
    else if |parts| == 1 then parts[0]
    else parts[0] + " " + Join(parts[1..])
  }

  /** `cn(...args)`. */
  function Cn(args: seq<ClassArg>): string {
    Join(Kept(args))
  }

  /** `s.split(' ')`, the inverse of `Join` used to state what `cn` keeps. */
  function Split(s: string): (r: seq<string>)
    ensures |r| >= 1
  {
    if |s| == 0 then [""]
    else
      var rest := Split(s[1..]);
      if s[0] == ' ' then [""] + rest else [[s[0]] + rest[0]] + rest[1..]
  }

  // ---------------------------------------------------------------------
  // What `filter(Boolean)` keeps

  /** Filtering distributes over concatenation, so order is kept. */
  lemma {:induction false} KeptConcat(a: seq<ClassArg>, b: seq<ClassArg>)
    ensures Kept(a + b) == Kept(a) + Kept(b)
  {
    if |a| > 0 {
      assert (a + b)[1..] == a[1..] + b;
      KeptConcat(a[1..], b);
    } else {
      assert a + b == b;
    }
  }

  /** A string survives exactly when it is non-empty and was passed. */
  lemma {:induction false} KeptMembership(args: seq<ClassArg>, s: string)
    ensures s in Kept(args) <==> s != "" && Str(s) in args
  {
    if |args| > 0 {
      KeptMembership(args[1..], s);
      assert args == [args[0]] + args[1..];
    }
  }

  /** Falsy arguments anywhere are dropped. */
  lemma FalsyDropped(a: seq<ClassArg>, x: ClassArg, b: seq<ClassArg>)
    requires !Truthy(x)
    ensures Cn(a + [x] + b) == Cn(a + b)
  {
    KeptConcat(a + [x], b);
    KeptConcat(a, [x]);
    KeptConcat(a, b);
    assert Kept([x]) == [] by {
      assert [x][1..] == [];
    }
    assert Kept(a) + [] == Kept(a);
  }

  // ---------------------------------------------------------------------
  // The joined string

  lemma {:induction false} SplitWord(w: string)
    requires ' ' !in w
    ensures Split(w) == [w]
  {
    if |w| > 0 {
      SplitWord(w[1..]);
      assert [w[0]] + w[1..] == w;
    }
  }

  lemma {:induction false} SplitPrefix(w: string, t: string)
    requires ' ' !in w
    ensures Split(w + " " + t) == [w] + Split(t)
  {
    if |w| == 0 {
      assert w + " " + t == [' '] + t;
      assert (w + " " + t)[1..] == t;
    } else {
      assert (w + " " + t)[1..] == w[1..] + " " + t;
      SplitPrefix(w[1..], t);
      assert [w[0]] + w[1..] == w;
    }
  }

  /** Splitting the joined string at spaces gives the parts back, when no part
      holds a space. */
  lemma {:induction false} SplitJoin(parts: seq<string>)
    requires |parts| >= 1
    requires forall k :: 0 <= k < |parts| ==> ' ' !in parts[k]
    ensures Split(Join(parts)) == parts
  {
    if |parts| == 1 {
      SplitWord(parts[0]);
    } else {
      SplitJoin(parts[1..]);
      SplitPrefix(parts[0], Join(parts[1..]));
      assert [parts[0]] + parts[1..] == parts;
    }
  }

  /** `cn` gives the empty string exactly when every argument is falsy; for
      space-free class names, splitting its result recovers the truthy
      arguments in their order. */
  lemma CnRecovers(args: seq<ClassArg>)
    requires forall k :: 0 <= k < |args| && args[k].Str? ==> ' ' !in args[k].s
    ensures Cn(args) == "" <==> forall k :: 0 <= k < |args| ==> !Truthy(args[k])
    ensures Cn(args) != "" ==> Split(Cn(args)) == Kept(args)
  {
    var parts := Kept(args);
    forall k | 0 <= k < |parts| ensures ' ' !in parts[k] {
      KeptMembership(args, parts[k]);
    }
    if |parts| > 0 {
      SplitJoin(parts);
      assert Join(parts) != "" by {
        JoinNonEmpty(parts);
      }
    }
    forall k | 0 <= k < |args| && Truthy(args[k]) ensures |parts| > 0 {
      KeptMembership(args, args[k].s);
    }
    if |parts| > 0 {
      KeptMembership(args, parts[0]);
    }
  }

  lemma {:induction false} JoinNonEmpty(parts: seq<string>)
    requires |parts| >= 1 && parts[0] != ""
    ensures |Join(parts)| >= |parts[0]| > 0
  {
  }

  /** Two class strings, the shape of every call site, join with one space. */
  lemma CnPair(a: string, b: string)
    requires a != "" && b != ""
    ensures Cn([Str(a), Str(b)]) == a + " " + b
  {
    assert [Str(a), Str(b)][1..] == [Str(b)];
    assert [Str(b)][1..] == [];
    assert Kept([Str(b)]) == [b];
    assert Kept([Str(a), Str(b)]) == [a] + [b];
    assert [a] + [b] == [a, b] && [a, b][1..] == [b];
    assert Join([a, b]) == a + " " + Join([b]);
  }
}
