// Strings as both programs see them: sequences of code points, with the
// white space that Go's strings.TrimSpace and JavaScript's trim() remove.
module Text {

  datatype Option<+T> = None | Some(value: T)

  datatype Dialect = Go | Js

  predicate IsSpace(d: Dialect, c: char) {
    || c == ' '
    || '\t' <= c <= '\r'
    || c == '\U{A0}' || c == '\U{1680}'
    || '\U{2000}' <= c <= '\U{200A}'
    || c == '\U{2028}' || c == '\U{2029}' || c == '\U{202F}' || c == '\U{205F}' || c == '\U{3000}'
    || (d.Go? && c == '\U{85}')
    || (d.Js? && c == '\U{FEFF}')
  }

  predicate AllSpace(d: Dialect, s: string) {
    forall i :: 0 <= i < |s| ==> IsSpace(d, s[i])
  }

  predicate Trimmed(d: Dialect, s: string) {
    s != "" ==> !IsSpace(d, s[0]) && !IsSpace(d, s[|s| - 1])
  }

  function TrimLeft(d: Dialect, s: string): (r: string)
    ensures r != "" ==> s != "" && !IsSpace(d, r[0]) && r[|r| - 1] == s[|s| - 1]
  {
    if s != "" && IsSpace(d, s[0]) then TrimLeft(d, s[1..]) else s
  }

  function TrimRight(d: Dialect, s: string): (r: string)
    ensures r != "" ==> !IsSpace(d, r[|r| - 1])
  {
    if s != "" && IsSpace(d, s[|s| - 1]) then TrimRight(d, s[..|s| - 1]) else s
  }

  function Trim(d: Dialect, s: string): (r: string)
    ensures Trimmed(d, r)
  {
    TrimLeft(d, TrimRight(d, s))
  }

  lemma {:induction false} LeftParts(d: Dialect, s: string) returns (a: string)
    ensures AllSpace(d, a) && s == a + TrimLeft(d, s)
  {
    if s != "" && IsSpace(d, s[0]) {
      var rest := LeftParts(d, s[1..]);
      a := [s[0]] + rest;
      ConsTail(s, rest, TrimLeft(d, s));
    } else {
      a := "";
    }
  }

  lemma {:induction false} RightParts(d: Dialect, s: string) returns (b: string)
    ensures AllSpace(d, b) && s == TrimRight(d, s) + b
  {
    if s != "" && IsSpace(d, s[|s| - 1]) {
      var rest := RightParts(d, s[..|s| - 1]);
      b := rest + [s[|s| - 1]];
      SnocFront(s, TrimRight(d, s), rest);
    } else {
      b := "";
    }
  }

  lemma ConsTail(s: string, a: string, r: string)
    requires s != "" && s[1..] == a + r
    ensures s == ([s[0]] + a) + r
  {
  }

  lemma SnocFront(s: string, r: string, b: string)
    requires s != "" && s[..|s| - 1] == r + b
    ensures s == r + (b + [s[|s| - 1]])
  {
  }

  // A string is its trimmed core between two runs of white space ...
  lemma TrimParts(d: Dialect, s: string) returns (a: string, b: string)
    ensures AllSpace(d, a) && AllSpace(d, b)
    ensures s == a + Trim(d, s) + b
  {
    b := RightParts(d, s);
    a := LeftParts(d, TrimRight(d, s));
  }

  lemma AllSpaceTail(d: Dialect, a: string)
    requires a != "" && AllSpace(d, a)
    ensures IsSpace(d, a[0]) && AllSpace(d, a[1..])
  {
  }

  lemma {:induction false} TrimLeftSkips(d: Dialect, a: string, s: string)
    requires AllSpace(d, a)
    ensures TrimLeft(d, a + s) == TrimLeft(d, s)
  {
    if a == "" {
      assert a + s == s;
    } else {
      assert (a + s)[1..] == a[1..] + s;
      AllSpaceTail(d, a);
      TrimLeftSkips(d, a[1..], s);
    }
  }

  lemma {:induction false} TrimRightSkips(d: Dialect, s: string, b: string)
    requires AllSpace(d, b)
    ensures TrimRight(d, s + b) == TrimRight(d, s)
    decreases |b|
  {
    if b == "" {
      assert s + b == s;
    } else {
      EndOfConcat(s, b);
      TrimRightSkips(d, s, b[..|b| - 1]);
    }
  }

  // ... and that decomposition is unique.
  lemma TrimUnique(d: Dialect, a: string, t: string, b: string)
    requires AllSpace(d, a) && AllSpace(d, b) && Trimmed(d, t)
    ensures Trim(d, a + t + b) == t
  {
    TrimRightSkips(d, a + t, b);
    if t == "" {
      assert a + t == "" + a;
      TrimRightSkips(d, "", a);
    } else {
      assert TrimRight(d, a + t) == a + t;
      TrimLeftSkips(d, a, t);
    }
  }

  lemma AllSpaceConcat(d: Dialect, a: string, b: string)
    requires AllSpace(d, a) && AllSpace(d, b)
    ensures AllSpace(d, a + b)
  {
  }

  lemma Regroup(a: string, x: string, t: string, y: string, b: string)
    ensures (a + x) + t + (y + b) == a + (x + t + y) + b
  {
  }

  lemma TrimPadded(d: Dialect, a: string, s: string, b: string)
    requires AllSpace(d, a) && AllSpace(d, b)
    ensures Trim(d, a + s + b) == Trim(d, s)
  {
    var x, y := TrimParts(d, s);
    var t := Trim(d, s);
    AllSpaceConcat(d, a, x);
    AllSpaceConcat(d, y, b);
    TrimUnique(d, a + x, t, y + b);
    Regroup(a, x, t, y, b);
  }

  lemma TrimIdempotent(d: Dialect, t: string)
    requires Trimmed(d, t)
    ensures Trim(d, t) == t
  {
    assert "" + t + "" == t;
    TrimUnique(d, "", t, "");
  }

  lemma {:induction false} TrimRightKeeps(d: Dialect, a: string, s: string)
    requires a != "" && !IsSpace(d, a[|a| - 1])
    ensures TrimRight(d, a + s) == a + TrimRight(d, s)
    decreases |s|
  {
    if s == "" {
      assert a + s == a;
    } else {
      var front := s[..|s| - 1];
      EndOfConcat(a, s);
      if IsSpace(d, s[|s| - 1]) {
        TrimRightKeeps(d, a, front);
      }
    }
  }

  lemma EndOfConcat(a: string, s: string)
    requires s != ""
    ensures (a + s)[|a + s| - 1] == s[|s| - 1] && (a + s)[..|a + s| - 1] == a + s[..|s| - 1]
  {
  }

  // The first index of c in s, or |s| when c does not occur.
  function IndexOf(s: string, c: char): (i: nat)
    ensures i <= |s| && (i < |s| ==> s[i] == c)
  {
    if s == "" || s[0] == c then 0 else 1 + IndexOf(s[1..], c)
  }

  lemma {:induction false} NoneBefore(s: string, c: char)
    ensures c !in s[..IndexOf(s, c)]
  {
    if s != "" && s[0] != c {
      NoneBefore(s[1..], c);
      assert s[..IndexOf(s, c)] == [s[0]] + s[1..][..IndexOf(s[1..], c)];
    }
  }

  lemma {:induction false} IndexOfFirst(a: string, c: char, b: string)
    requires c !in a
    ensures IndexOf(a + [c] + b, c) == |a|
  {
    if a != "" {
      assert (a + [c] + b)[1..] == a[1..] + [c] + b;
      IndexOfFirst(a[1..], c, b);
    }
  }

  predicate HasPrefix(s: string, p: string) {
    |p| <= |s| && s[..|p|] == p
  }

  predicate HasSuffix(s: string, p: string) {
    |p| <= |s| && s[|s| - |p|..] == p
  }

  // ---- splitting at a character -------------------------------------------

  predicate AllFree(ls: seq<string>, c: char) {
    forall i :: 0 <= i < |ls| ==> c !in ls[i]
  }

  function SplitOn(s: string, c: char): (ls: seq<string>)
    ensures |ls| >= 1
    decreases |s|
  {
    var n := IndexOf(s, c);
    if n == |s| then [s] else [s[..n]] + SplitOn(s[n + 1..], c)
  }

  lemma {:induction false} SplitOnFree(s: string, c: char)
    ensures AllFree(SplitOn(s, c), c)
    decreases |s|
  {
    var n := IndexOf(s, c);
    NoneBefore(s, c);
    if n == |s| {
      assert s[..n] == s;
    } else {
      SplitOnFree(s[n + 1..], c);
    }
  }

  function Join(fs: seq<string>, sep: string): string {
    if fs == [] then ""
    else if |fs| == 1 then fs[0]
    else fs[0] + sep + Join(fs[1..], sep)
  }

  lemma {:induction false} IndexOfNone(s: string, c: char)
    requires c !in s
    ensures IndexOf(s, c) == |s|
  {
    if s != "" {
      IndexOfNone(s[1..], c);
    }
  }

  lemma {:induction false} SplitOfJoin(ls: seq<string>, c: char)
    requires |ls| >= 1 && AllFree(ls, c)
    ensures SplitOn(Join(ls, [c]), c) == ls
  {
    if |ls| == 1 {
      IndexOfNone(ls[0], c);
    } else {
      var tail := Join(ls[1..], [c]);
      IndexOfFirst(ls[0], c, tail);
      var s := ls[0] + [c] + tail;
      assert s[..|ls[0]|] == ls[0] && s[|ls[0]| + 1..] == tail;
      SplitOfJoin(ls[1..], c);
    }
  }

  lemma {:induction false} JoinOfSplit(s: string, c: char)
    ensures Join(SplitOn(s, c), [c]) == s
    decreases |s|
  {
    var n := IndexOf(s, c);
    if n < |s| {
      JoinOfSplit(s[n + 1..], c);
      JoinFirst(s[..n], SplitOn(s[n + 1..], c), c);
      SplitBack(s, n);
    }
  }

  lemma JoinFirst(l: string, ls: seq<string>, c: char)
    requires |ls| >= 1
    ensures Join([l] + ls, [c]) == l + [c] + Join(ls, [c])
  {
    assert ([l] + ls)[1..] == ls;
  }

  lemma SplitBack(s: string, n: nat)
    requires n < |s|
    ensures s == s[..n] + [s[n]] + s[n + 1..]
  {
  }
}
