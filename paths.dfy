/**
 * `filepath.Join(".", migrationsDir)` (pkg/lib/lib.go:146 and :241) on a
 * Unix-like system: Join glues its non-empty elements with "/" and cleans the
 * result lexically, as Go's `filepath.Clean` does. Paths are seen as "/"-separated
 * elements; the cleaning drops empty and "." elements, lets ".." cancel the
 * real element before it, and drops ".." at the root.
 */
module Paths {

  /** `strings.Split(s, "/")`: always at least one element. */
  function Split(s: string): (r: seq<string>)
    ensures |r| >= 1
    decreases |s|
  {
    if s == [] then [""]
    else
      var t := Split(s[1..]);
      if s[0] == '/' then [""] + t else [[s[0]] + t[0]] + t[1..]
  }

  /** `strings.Join(segs, "/")`. */
  function JoinSegments(segs: seq<string>): string
    decreases |segs|
  {
    if segs == [] then ""
    else if |segs| == 1 then segs[0]
    else segs[0] + "/" + JoinSegments(segs[1..])
  }

  /** Elements as Clean keeps them: non-empty, without a separator. */
  predicate ProperElements(segs: seq<string>)
  {
    forall k :: 0 <= k < |segs| ==> segs[k] != "" && '/' !in segs[k]
  }

  /** A path whose every element is a real name: neither empty, ".", nor "..". */
  predicate IsPlainRelative(d: string)
  {
    forall e :: e in Split(d) ==> e != "" && e != "." && e != ".."
  }

  /** Clean's pass over the elements, with the kept elements so far in `stack`. */
  function Reduce(segs: seq<string>, rooted: bool, stack: seq<string>): seq<string>
    decreases |segs|
  {
    if segs == [] then stack
    else
      var e := segs[0];
      var next :=
        if e == "" || e == "." then stack
        else if e == ".." then
          if |stack| > 0 && stack[|stack| - 1] != ".." then stack[..|stack| - 1]
          else if rooted then stack
          else stack + [".."]
        else stack + [e];
      Reduce(segs[1..], rooted, next)
  }

  /** `filepath.Clean` for "/"-separated paths; "." stands for the empty result. */
  function Clean(p: string): (r: string)
    ensures r != ""
  {
    if p == [] then "."
    else
      var rooted := p[0] == '/';
      var body := JoinSegments(Reduce(Split(p), rooted, []));
      if rooted then "/" + body else if body == "" then "." else body
  }

  /** `filepath.Join(".", d)`: the first element is never empty, so this is Clean of "./" + d. */
  function JoinDot(d: string): string
  {
    Clean("./" + d)
  }

  /** Splitting at "/" and joining with "/" gives the path back. */
  lemma {:induction false} JoinSplit(s: string)
    ensures JoinSegments(Split(s)) == s
    decreases |s|
  {
    if s != [] {
      JoinSplit(s[1..]);
      var t := Split(s[1..]);
      if s[0] == '/' {
        assert s == "/" + s[1..];
      } else if |t| == 1 {
        assert s == [s[0]] + s[1..];
      } else {
        assert JoinSegments(t) == t[0] + "/" + JoinSegments(t[1..]);
        assert s == [s[0]] + s[1..];
      }
    }
  }

  lemma {:induction false} SplitHasNoSeparator(s: string)
    ensures forall k :: 0 <= k < |Split(s)| ==> '/' !in Split(s)[k]
    decreases |s|
  {
    if s != [] {
      SplitHasNoSeparator(s[1..]);
    }
  }

  /** Joining separator-free elements and splitting again gives the elements back. */
  lemma {:induction false} SplitJoin(segs: seq<string>)
    requires |segs| >= 1
    requires forall k :: 0 <= k < |segs| ==> '/' !in segs[k]
    ensures Split(JoinSegments(segs)) == segs
    decreases |segs|, |segs[0]|
  {
    var e := segs[0];
    if |segs| == 1 {
      SplitElement(e);
    } else {
      var rest := JoinSegments(segs[1..]);
      SplitJoin(segs[1..]);
      SplitPrefixed(e, rest);
    }
  }

  lemma {:induction false} SplitElement(e: string)
    requires '/' !in e
    ensures Split(e) == [e]
    decreases |e|
  {
    if e != [] {
      SplitElement(e[1..]);
      assert e == [e[0]] + e[1..];
    }
  }

  /** A "/" between two paths separates their elements. */
  lemma {:induction false} SplitAround(a: string, b: string)
    ensures Split(a + "/" + b) == Split(a) + Split(b)
    decreases |a|
  {
    if a == [] {
      assert a + "/" + b == "/" + b;
      assert ("/" + b)[1..] == b;
    } else {
      assert (a + "/" + b)[1..] == a[1..] + "/" + b;
      SplitAround(a[1..], b);
    }
  }

  /** A separator-free element, a "/", and a rest split into the element followed by the rest's elements. */
  lemma {:induction false} SplitPrefixed(e: string, rest: string)
    requires '/' !in e
    ensures Split(e + "/" + rest) == [e] + Split(rest)
    decreases |e|
  {
    if e == [] {
      assert e + "/" + rest == "/" + rest;
      assert ("/" + rest)[1..] == rest;
    } else {
      assert (e + "/" + rest)[1..] == e[1..] + "/" + rest;
      SplitPrefixed(e[1..], rest);
      assert e == [e[0]] + e[1..];
    }
  }

  /** Reduce keeps proper elements proper. */
  lemma {:induction false} ReduceProper(segs: seq<string>, rooted: bool, stack: seq<string>)
    requires ProperElements(stack)
    requires forall k :: 0 <= k < |segs| ==> '/' !in segs[k]
    ensures ProperElements(Reduce(segs, rooted, stack))
    decreases |segs|
  {
    if segs != [] {
      var e := segs[0];
      var next :=
        if e == "" || e == "." then stack
        else if e == ".." then
          if |stack| > 0 && stack[|stack| - 1] != ".." then stack[..|stack| - 1]
          else if rooted then stack
          else stack + [".."]
        else stack + [e];
      assert ProperElements(next);
      ReduceProper(segs[1..], rooted, next);
    }
  }

  /** Real names are only ever pushed. */
  lemma {:induction false} ReducePlain(segs: seq<string>, rooted: bool, stack: seq<string>)
    requires forall e :: e in segs ==> e != "" && e != "." && e != ".."
    ensures Reduce(segs, rooted, stack) == stack + segs
    decreases |segs|
  {
    if segs != [] {
      assert segs[0] in segs;
      assert forall e :: e in segs[1..] ==> e in segs;
      assert Reduce(segs, rooted, stack) == Reduce(segs[1..], rooted, stack + [segs[0]]);
      ReducePlain(segs[1..], rooted, stack + [segs[0]]);
      assert stack + [segs[0]] + segs[1..] == stack + segs;
    }
  }

  /** A join of proper elements starts with the first character of its first element. */
  lemma {:induction false} JoinProperStart(segs: seq<string>)
    requires |segs| >= 1 && ProperElements(segs)
    ensures |JoinSegments(segs)| >= 1 && JoinSegments(segs)[0] == segs[0][0]
  {
  }

  lemma SplitDotSlash(d: string)
    ensures Split("./" + d) == ["."] + Split(d)
  {
    SplitPrefixed(".", d);
  }

  /** The joined directory is always relative to the working directory. */
  lemma JoinDotIsRelative(d: string)
    ensures JoinDot(d)[0] != '/'
  {
    var segs := Split("./" + d);
    SplitHasNoSeparator("./" + d);
    ReduceProper(segs, false, []);
    var stack := Reduce(segs, false, []);
    if |stack| >= 1 {
      JoinProperStart(stack);
    }
  }

  /** A plain relative directory such as the default "db/migrations" is left as it is. */
  lemma PlainRelativeUnchanged(d: string)
    requires d != "" && d[0] != '/' && IsPlainRelative(d)
    ensures JoinDot(d) == d
  {
    SplitDotSlash(d);
    var segs := Split(d);
    ReducePlain(segs, false, []);
    assert (["."] + segs)[0] == "." && (["."] + segs)[1..] == segs;
    assert Reduce(["."] + segs, false, []) == segs;
    JoinSplit(d);
    assert ("./" + d)[0] == '.';
  }

  /** Two real names joined by "/" are left as they are. */
  lemma TwoPlainElementsUnchanged(a: string, b: string)
    requires a != "" && a != "." && a != ".." && '/' !in a
    requires b != "" && b != "." && b != ".." && '/' !in b
    ensures JoinDot(a + "/" + b) == a + "/" + b
  {
    SplitElement(b);
    SplitPrefixed(a, b);
    var d := a + "/" + b;
    assert Split(d) == [a, b];
    assert forall e :: e in Split(d) ==> e == a || e == b;
    PlainRelativeUnchanged(d);
  }

  /** A leading "/" is dropped: an absolute configured directory is taken relative to the working directory. */
  lemma LeadingSlashIgnored(d: string)
    ensures JoinDot("/" + d) == JoinDot(d)
  {
    SplitDotSlash("/" + d);
    SplitDotSlash(d);
    SplitPrefixed("", d);
    assert "" + "/" + d == "/" + d;
    assert Reduce(["."] + ([""] + Split(d)), false, []) == Reduce(Split(d), false, []);
    assert Reduce(["."] + Split(d), false, []) == Reduce(Split(d), false, []);
  }

  /** "./x/../y" style elements are resolved. */
  lemma DotDotCancels(a: string, d: string)
    requires a != "" && a != "." && a != ".." && '/' !in a
    ensures JoinDot(a + "/../" + d) == JoinDot(d)
  {
    SplitDotSlash(a + "/../" + d);
    SplitDotSlash(d);
    assert a + "/../" + d == a + "/" + (".." + "/" + d);
    SplitPrefixed(a, ".." + "/" + d);
    SplitPrefixed("..", d);
    var rest := Split(d);
    var s3 := [".."] + rest;
    var s2 := [a] + s3;
    var s1 := ["."] + s2;
    assert s1[0] == "." && s1[1..] == s2;
    assert s2[0] == a && s2[1..] == s3;
    assert s3[0] == ".." && s3[1..] == rest;
    assert Reduce(s3, false, [a]) == Reduce(rest, false, []);
    assert Reduce(s2, false, []) == Reduce(s3, false, [a]);
    assert Reduce(s1, false, []) == Reduce(s2, false, []);
  }
}
