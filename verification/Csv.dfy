// Comma-separated values that respect double quotes.
module Csv {
  import opened Text

  // ---- splitting ---------------------------------------------------------

  // c put in front of the first field.
  function Push(c: char, fs: seq<string>): (r: seq<string>)
    requires |fs| >= 1
    ensures |r| == |fs|
  {
    [[c] + fs[0]] + fs[1..]
  }

  // The untrimmed fields of what follows, when quotes are open or not.
  function Fields(s: string, open: bool): (fs: seq<string>)
    ensures |fs| >= 1
  {
    if s == "" then [""]
    else if s[0] == '"' then Push('"', Fields(s[1..], !open))
    else if s[0] == ',' && !open then [""] + Fields(s[1..], false)
    else Push(s[0], Fields(s[1..], open))
  }

  function TrimAll(fs: seq<string>): (r: seq<string>)
    ensures |r| == |fs|
  {
    if fs == [] then [] else [Trim(Js, fs[0])] + TrimAll(fs[1..])
  }

  function SplitCSV(v: string): seq<string> { TrimAll(Fields(v, false)) }

  function NonEmpty(fs: seq<string>): seq<string> {
    if fs == [] then []
    else if fs[0] == "" then NonEmpty(fs[1..])
    else [fs[0]] + NonEmpty(fs[1..])
  }

  function JoinCSV(fs: seq<string>): string { Join(NonEmpty(fs), ",") }

  // The non-empty fields of a value: what a composer must not lose.
  function Cells(v: string): seq<string> { NonEmpty(SplitCSV(v)) }

  // The loop, with its accumulator and its quote flag.
  method SplitLoop(v: string) returns (out: seq<string>)
    ensures out == SplitCSV(v)
  {
    var fields, cur, q, i := [], "", false, 0;
    PrependNothing(Fields(v, false));
    assert v[0..] == v;
    while i < |v|
      invariant 0 <= i <= |v|
      invariant Fields(v, false) == fields + Prepend(cur, Fields(v[i..], q))
    {
      var ch := v[i];
      FieldsStep(v, i, q, cur, fields);
      if ch == '"' {
        q := !q;
        cur := cur + [ch];
      } else if ch == ',' && !q {
        fields := fields + [cur];
        cur := "";
      } else {
        cur := cur + [ch];
      }
      i := i + 1;
    }
    PrependLast(cur);
    out := TrimEach(fields + [cur]);
  }

  method TrimEach(fields: seq<string>) returns (out: seq<string>)
    ensures out == TrimAll(fields)
  {
    out := [];
    var j := 0;
    while j < |fields|
      invariant 0 <= j <= |fields|
      invariant out + TrimAll(fields[j..]) == TrimAll(fields)
    {
      TrimStep(fields, j, out);
      out := out + [Trim(Js, fields[j])];
      j := j + 1;
    }
  }

  lemma TrimStep(fields: seq<string>, j: nat, out: seq<string>)
    requires j < |fields|
    ensures out + TrimAll(fields[j..]) == (out + [Trim(Js, fields[j])]) + TrimAll(fields[j + 1..])
  {
    assert fields[j..] == [fields[j]] + fields[j + 1..];
    TrimAllCons(fields[j], fields[j + 1..]);
  }

  lemma PrependLast(cur: string)
    ensures Prepend(cur, Fields("", false)) == [cur] && Prepend(cur, Fields("", true)) == [cur]
  {
    assert cur + "" == cur;
  }

  // What one character does to the fields still to come.
  lemma FieldsStep(v: string, i: nat, q: bool, cur: string, fields: seq<string>)
    requires i < |v|
    ensures fields + Prepend(cur, Fields(v[i..], q)) ==
            if v[i] == '"' then fields + Prepend(cur + [v[i]], Fields(v[i + 1..], !q))
            else if v[i] == ',' && !q then (fields + [cur]) + Prepend("", Fields(v[i + 1..], false))
            else fields + Prepend(cur + [v[i]], Fields(v[i + 1..], q))
  {
    assert v[i..][1..] == v[i + 1..];
    if v[i] == '"' {
      PrependPush(cur, v[i], Fields(v[i + 1..], !q));
    } else if v[i] == ',' && !q {
      PrependSeparator(cur, Fields(v[i + 1..], false));
    } else {
      PrependPush(cur, v[i], Fields(v[i + 1..], q));
    }
  }

  function Prepend(cur: string, fs: seq<string>): seq<string>
    requires |fs| >= 1
  {
    [cur + fs[0]] + fs[1..]
  }

  lemma PrependNothing(fs: seq<string>)
    requires |fs| >= 1
    ensures Prepend("", fs) == fs
  {
    assert "" + fs[0] == fs[0];
  }

  lemma PrependSeparator(cur: string, fs: seq<string>)
    requires |fs| >= 1
    ensures Prepend(cur, [""] + fs) == [cur] + Prepend("", fs)
  {
    PrependNothing(fs);
    assert cur + "" == cur && ([""] + fs)[1..] == fs;
  }

  lemma PrependPush(cur: string, c: char, fs: seq<string>)
    requires |fs| >= 1
    ensures Prepend(cur, Push(c, fs)) == Prepend(cur + [c], fs)
  {
    assert cur + ([c] + fs[0]) == cur + [c] + fs[0];
  }

  // ---- quotes ------------------------------------------------------------

  // Are quotes open after s?
  function Open(s: string, open: bool): bool {
    if s == "" then open else Open(s[1..], if s[0] == '"' then !open else open)
  }

  predicate Balanced(s: string) { !Open(s, false) }

  // No comma of s is outside quotes.
  predicate OneField(s: string, open: bool) {
    s == "" || ((s[0] == ',' ==> open) && OneField(s[1..], if s[0] == '"' then !open else open))
  }

  // A field as splitting a balanced value yields it.
  predicate Cell(f: string) {
    Trimmed(Js, f) && OneField(f, false) && Balanced(f)
  }

  predicate AllCells(fs: seq<string>) {
    forall i :: 0 <= i < |fs| ==> Cell(fs[i])
  }

  lemma {:induction false} OpenConcat(a: string, b: string, open: bool)
    ensures Open(a + b, open) == Open(b, Open(a, open))
  {
    if a == "" {
      assert a + b == b;
    } else {
      assert (a + b)[1..] == a[1..] + b;
      OpenConcat(a[1..], b, if a[0] == '"' then !open else open);
    }
  }

  lemma {:induction false} OneFieldConcat(a: string, b: string, open: bool)
    ensures OneField(a + b, open) <==> OneField(a, open) && OneField(b, Open(a, open))
  {
    if a == "" {
      assert a + b == b;
    } else {
      assert (a + b)[1..] == a[1..] + b;
      OneFieldConcat(a[1..], b, if a[0] == '"' then !open else open);
    }
  }

  // A comma after balanced text separates.
  lemma {:induction false} FieldsConcat(a: string, b: string, open: bool)
    requires !Open(a, open)
    ensures Fields(a + "," + b, open) == Fields(a, open) + Fields(b, false)
  {
    if a == "" {
      assert "" + "," + b == [','] + b && ([','] + b)[1..] == b;
    } else {
      HeadAndRest(a, b);
      var next := if a[0] == '"' then !open else open;
      FieldsConcat(a[1..], b, next);
      PushConcat(a[0], Fields(a[1..], next), Fields(b, false));
      assert [""] + (Fields(a[1..], next) + Fields(b, false)) == [""] + Fields(a[1..], next) + Fields(b, false);
    }
  }

  lemma HeadAndRest(a: string, b: string)
    requires a != ""
    ensures (a + "," + b)[1..] == a[1..] + "," + b && (a + "," + b)[0] == a[0]
  {
  }

  lemma PushConcat(c: char, fs: seq<string>, gs: seq<string>)
    requires |fs| >= 1
    ensures Push(c, fs + gs) == Push(c, fs) + gs
  {
  }

  lemma {:induction false} FieldsOfOne(s: string, open: bool)
    requires OneField(s, open)
    ensures Fields(s, open) == [s]
  {
    if s != "" {
      FieldsOfOne(s[1..], if s[0] == '"' then !open else open);
      assert [s[0]] + s[1..] == s;
    }
  }

  lemma {:induction false} TrimAllConcat(a: seq<string>, b: seq<string>)
    ensures TrimAll(a + b) == TrimAll(a) + TrimAll(b)
  {
    if a == [] {
      assert a + b == b;
    } else {
      assert (a + b)[1..] == a[1..] + b;
      TrimAllConcat(a[1..], b);
    }
  }

  lemma {:induction false} NonEmptyConcat(a: seq<string>, b: seq<string>)
    ensures NonEmpty(a + b) == NonEmpty(a) + NonEmpty(b)
  {
    if a == [] {
      assert a + b == b;
    } else {
      assert (a + b)[1..] == a[1..] + b;
      NonEmptyConcat(a[1..], b);
    }
  }

  // Joining balanced texts with a comma joins their fields.
  lemma CellsConcat(a: string, b: string)
    requires Balanced(a)
    ensures SplitCSV(a + "," + b) == SplitCSV(a) + SplitCSV(b)
    ensures Cells(a + "," + b) == Cells(a) + Cells(b)
  {
    FieldsConcat(a, b, false);
    TrimAllConcat(Fields(a, false), Fields(b, false));
    NonEmptyConcat(SplitCSV(a), SplitCSV(b));
  }

  lemma CellsOfCell(f: string)
    requires Trimmed(Js, f) && OneField(f, false)
    ensures SplitCSV(f) == [f] && Cells(f) == if f == "" then [] else [f]
  {
    FieldsOfOne(f, false);
    TrimIdempotent(Js, f);
    TrimAllCons(f, []);
    NonEmptyCons(f, []);
    assert [f] + [] == [f];
  }

  lemma TrimAllCons(f: string, fs: seq<string>)
    ensures TrimAll([f] + fs) == [Trim(Js, f)] + TrimAll(fs)
  {
    assert ([f] + fs)[1..] == fs;
  }

  lemma NonEmptyCons(f: string, fs: seq<string>)
    ensures NonEmpty([f] + fs) == if f == "" then NonEmpty(fs) else [f] + NonEmpty(fs)
  {
    assert ([f] + fs)[1..] == fs;
  }

  // White space around a field is not part of it.
  lemma PadField(s: string)
    ensures SplitCSV(" " + s) == SplitCSV(s)
  {
    var fs := Fields(s, false);
    assert (" " + s)[1..] == s;
    assert Fields(" " + s, false) == Push(' ', fs);
    assert AllSpace(Js, " ") && AllSpace(Js, "");
    TrimPadded(Js, " ", fs[0], "");
    assert " " + fs[0] + "" == [' '] + fs[0];
  }

  // ---- what splitting yields ----------------------------------------------

  // Fields that were split apart: only the last can hold an unclosed quote.
  predicate Shaped(fs: seq<string>, open: bool)
    requires |fs| >= 1
  {
    OneField(fs[0], open) && (|fs| > 1 ==> !Open(fs[0], open) && Shaped(fs[1..], false))
  }

  function EndsOpen(fs: seq<string>, open: bool): bool
    requires |fs| >= 1
  {
    if |fs| == 1 then Open(fs[0], open) else EndsOpen(fs[1..], false)
  }

  lemma {:induction false} FieldsShape(s: string, open: bool)
    ensures Shaped(Fields(s, open), open) && EndsOpen(Fields(s, open), open) == Open(s, open)
  {
    if s != "" {
      var next := if s[0] == '"' then !open else open;
      var gs := Fields(s[1..], next);
      FieldsShape(s[1..], next);
      if s[0] == ',' && !open {
        assert ([""] + gs)[1..] == gs;
      } else {
        assert ([s[0]] + gs[0])[1..] == gs[0];
        assert Push(s[0], gs)[1..] == gs[1..];
      }
    }
  }

  predicate LastMayBeOpen(fs: seq<string>) {
    fs == [] ||
    (Trimmed(Js, fs[0]) && OneField(fs[0], false) && (|fs| > 1 ==> Balanced(fs[0])) && LastMayBeOpen(fs[1..]))
  }

  lemma TrimKeepsShape(f: string)
    requires OneField(f, false)
    ensures Trimmed(Js, Trim(Js, f)) && OneField(Trim(Js, f), false) && Balanced(Trim(Js, f)) == Balanced(f)
  {
    var a, b := TrimParts(Js, f);
    var t := Trim(Js, f);
    SpacesAreNeutral(a, false);
    SpacesAreNeutral(b, Open(a + t, false));
    OpenConcat(a, t, false);
    OpenConcat(a + t, b, false);
    OneFieldConcat(a, t, false);
    OneFieldConcat(a + t, b, false);
  }

  lemma {:induction false} SpacesAreNeutral(a: string, open: bool)
    requires AllSpace(Js, a)
    ensures Open(a, open) == open
  {
    if a != "" {
      assert forall i :: 0 <= i < |a[1..]| ==> a[1..][i] == a[i + 1];
      SpacesAreNeutral(a[1..], open);
    }
  }

  lemma {:induction false} TrimAllShape(fs: seq<string>)
    requires |fs| >= 1 && Shaped(fs, false)
    ensures LastMayBeOpen(TrimAll(fs))
    ensures !EndsOpen(fs, false) ==> AllCells(TrimAll(fs))
  {
    TrimKeepsShape(fs[0]);
    TrimAllCons(fs[0], fs[1..]);
    assert fs == [fs[0]] + fs[1..];
    if |fs| > 1 {
      TrimAllShape(fs[1..]);
      if !EndsOpen(fs, false) {
        AllCellsCons(Trim(Js, fs[0]), TrimAll(fs[1..]));
      }
    }
  }

  lemma AllCellsCons(f: string, fs: seq<string>)
    ensures AllCells([f] + fs) <==> Cell(f) && AllCells(fs)
  {
    if AllCells([f] + fs) {
      assert ([f] + fs)[0] == f;
      assert forall i :: 0 <= i < |fs| ==> fs[i] == ([f] + fs)[i + 1];
    }
  }

  lemma SplitShape(v: string)
    ensures LastMayBeOpen(SplitCSV(v))
    ensures Balanced(v) ==> AllCells(SplitCSV(v))
  {
    FieldsShape(v, false);
    TrimAllShape(Fields(v, false));
  }

  lemma {:induction false} CellsMayBeOpen(fs: seq<string>)
    requires AllCells(fs)
    ensures LastMayBeOpen(fs)
  {
    if fs != [] {
      AllCellsCons(fs[0], fs[1..]);
      assert fs == [fs[0]] + fs[1..];
      CellsMayBeOpen(fs[1..]);
    }
  }

  // ---- round trips -------------------------------------------------------

  predicate Separator(sep: string) { sep == "," || sep == ", " }

  // Splitting undoes joining, with or without a space after the comma.
  lemma {:induction false} SplitJoin(fs: seq<string>, sep: string)
    requires |fs| >= 1 && Separator(sep) && LastMayBeOpen(fs)
    ensures SplitCSV(Join(fs, sep)) == fs
  {
    if |fs| == 1 {
      CellsOfCell(fs[0]);
    } else {
      SplitJoin(fs[1..], sep);
      JoinMore(fs[0], fs[1..], sep);
      Uncons(fs);
    }
  }

  lemma Uncons(fs: seq<string>)
    requires |fs| >= 1
    ensures fs == [fs[0]] + fs[1..]
  {
  }

  lemma JoinCons(f: string, fs: seq<string>, sep: string)
    requires |fs| >= 1
    ensures Join([f] + fs, sep) == f + sep + Join(fs, sep)
  {
    assert ([f] + fs)[1..] == fs;
  }

  lemma JoinMore(f: string, fs: seq<string>, sep: string)
    requires |fs| >= 1 && Separator(sep) && Cell(f) && SplitCSV(Join(fs, sep)) == fs
    ensures SplitCSV(Join([f] + fs, sep)) == [f] + fs
  {
    JoinCons(f, fs, sep);
    JoinTwo(f, Join(fs, sep), sep);
  }

  lemma JoinTwo(f: string, rest: string, sep: string)
    requires Separator(sep) && Cell(f)
    ensures SplitCSV(f + sep + rest) == [f] + SplitCSV(rest)
  {
    CellsOfCell(f);
    if sep == "," {
      CellsConcat(f, rest);
    } else {
      assert f + ", " + rest == f + "," + (" " + rest);
      CellsConcat(f, " " + rest);
      PadField(rest);
    }
  }

  lemma {:induction false} NonEmptyShape(fs: seq<string>)
    requires LastMayBeOpen(fs)
    ensures LastMayBeOpen(NonEmpty(fs))
    ensures NonEmpty(NonEmpty(fs)) == NonEmpty(fs)
    ensures forall i :: 0 <= i < |NonEmpty(fs)| ==> NonEmpty(fs)[i] != ""
  {
    if fs != [] {
      NonEmptyShape(fs[1..]);
      NonEmptyCons(fs[0], NonEmpty(fs[1..]));
    }
  }

  // Splitting what was joined gives back every non-empty field; normalising a
  // value twice is normalising it once, whatever its quotes.
  lemma RoundTrip(fs: seq<string>)
    requires LastMayBeOpen(fs)
    ensures SplitCSV(JoinCSV(fs)) == if NonEmpty(fs) == [] then [""] else NonEmpty(fs)
    ensures Cells(JoinCSV(fs)) == NonEmpty(fs)
  {
    NonEmptyShape(fs);
    if NonEmpty(fs) != [] {
      SplitJoin(NonEmpty(fs), ",");
    } else {
      CellsOfCell("");
    }
  }

  lemma NormalFormIdempotent(v: string)
    ensures JoinCSV(SplitCSV(JoinCSV(SplitCSV(v)))) == JoinCSV(SplitCSV(v))
    ensures Cells(JoinCSV(SplitCSV(v))) == Cells(v)
  {
    SplitShape(v);
    RoundTrip(SplitCSV(v));
    NonEmptyShape(SplitCSV(v));
    assert NonEmpty([""]) == [] && JoinCSV([]) == "";
  }

  // ---- values assembled from pieces --------------------------------------

  predicate AllBalanced(ps: seq<string>) {
    forall i :: 0 <= i < |ps| ==> Balanced(ps[i])
  }

  // The fields of every piece, in order.
  function CellsOfAll(ps: seq<string>): seq<string> { FlatMap(Cells, ps) }

  function FlatMap<A, B>(f: A -> seq<B>, xs: seq<A>): seq<B> {
    if xs == [] then [] else f(xs[0]) + FlatMap(f, xs[1..])
  }

  lemma {:induction false} FlatMapConcat<A, B>(f: A -> seq<B>, a: seq<A>, b: seq<A>)
    ensures FlatMap(f, a + b) == FlatMap(f, a) + FlatMap(f, b)
  {
    if a == [] {
      assert a + b == b;
    } else {
      assert (a + b)[1..] == a[1..] + b;
      FlatMapConcat(f, a[1..], b);
    }
  }

  lemma FlatMapPair<A, B>(f: A -> seq<B>, a: A, b: A)
    ensures FlatMap(f, [a, b]) == f(a) + f(b)
  {
    assert [a, b][1..] == [b] && [b][1..] == [];
    assert FlatMap(f, [b]) == f(b) + [];
  }

  lemma NonEmptyPair(a: string, b: string)
    ensures NonEmpty([a, b]) == (if a == "" then [] else [a]) + (if b == "" then [] else [b])
  {
    assert [a, b][1..] == [b] && [b][1..] == [];
    assert NonEmpty([b]) == (if b == "" then [] else [b]);
  }

  lemma CellsOfAllConcat(a: seq<string>, b: seq<string>)
    ensures CellsOfAll(a + b) == CellsOfAll(a) + CellsOfAll(b)
  {
    FlatMapConcat(Cells, a, b);
  }

  lemma AllBalancedCons(p: string, ps: seq<string>)
    ensures AllBalanced([p] + ps) <==> Balanced(p) && AllBalanced(ps)
  {
    if AllBalanced([p] + ps) {
      assert ([p] + ps)[0] == p;
      assert forall i :: 0 <= i < |ps| ==> ps[i] == ([p] + ps)[i + 1];
    }
  }

  lemma {:induction false} CellsOfNonEmpty(ps: seq<string>)
    requires AllBalanced(ps)
    ensures AllBalanced(NonEmpty(ps)) && CellsOfAll(NonEmpty(ps)) == CellsOfAll(ps)
  {
    if ps != [] {
      Uncons(ps);
      AllBalancedCons(ps[0], ps[1..]);
      CellsOfNonEmpty(ps[1..]);
      if ps[0] == "" {
        CellsOfCell("");
      } else {
        AllBalancedCons(ps[0], NonEmpty(ps[1..]));
        CellsOfAllCons(ps[0], NonEmpty(ps[1..]));
      }
    }
  }

  lemma CellsOfAllCons(p: string, ps: seq<string>)
    ensures CellsOfAll([p] + ps) == Cells(p) + CellsOfAll(ps)
  {
    assert ([p] + ps)[1..] == ps;
  }

  // Joining balanced pieces with commas joins their fields.
  lemma {:induction false} CellsOfJoin(ps: seq<string>)
    requires AllBalanced(ps)
    ensures Cells(Join(ps, ",")) == CellsOfAll(ps) && Balanced(Join(ps, ","))
  {
    if ps == [] {
      CellsOfCell("");
    } else if |ps| == 1 {
      assert ps == [ps[0]] + [];
      CellsOfAllCons(ps[0], []);
      assert Cells(ps[0]) + [] == Cells(ps[0]);
    } else {
      Uncons(ps);
      AllBalancedCons(ps[0], ps[1..]);
      CellsOfJoin(ps[1..]);
      CellsConcat(ps[0], Join(ps[1..], ","));
      BalancedJoin(ps[0], ",", Join(ps[1..], ","));
    }
  }

  lemma BalancedJoin(a: string, sep: string, b: string)
    requires Balanced(a) && Balanced(b) && Separator(sep)
    ensures Balanced(a + sep + b)
  {
    OpenConcat(a + sep, b, false);
    OpenConcat(a, sep, false);
    assert sep[1..] == if sep == "," then "" else " ";
    assert Open(sep, false) == Open(sep[1..], false) == false;
  }

  lemma CellsOfJoinCSV(ps: seq<string>)
    requires AllBalanced(ps)
    ensures Cells(JoinCSV(ps)) == CellsOfAll(ps)
  {
    CellsOfNonEmpty(ps);
    CellsOfJoin(NonEmpty(ps));
  }

  // A list of fields shown in one text box, and read back from it.
  lemma ListBox(fs: seq<string>, sep: string)
    requires AllCells(fs) && Separator(sep)
    ensures Cells(Join(fs, sep)) == NonEmpty(fs) && Balanced(Join(fs, sep))
  {
    if fs == [] {
      CellsOfCell("");
    } else {
      CellsMayBeOpen(fs);
      SplitJoin(fs, sep);
      JoinBalanced(fs, sep);
    }
  }

  lemma {:induction false} JoinBalanced(fs: seq<string>, sep: string)
    requires AllCells(fs) && Separator(sep)
    ensures Balanced(Join(fs, sep))
  {
    if |fs| > 1 {
      Uncons(fs);
      AllCellsCons(fs[0], fs[1..]);
      JoinBalanced(fs[1..], sep);
      BalancedJoin(fs[0], sep, Join(fs[1..], sep));
    }
  }

  predicate NoBlanks(fs: seq<string>) {
    forall i :: 0 <= i < |fs| ==> fs[i] != ""
  }

  lemma {:induction false} NonEmptyAll(fs: seq<string>)
    ensures NoBlanks(fs) ==> NonEmpty(fs) == fs
    ensures NoBlanks(NonEmpty(fs)) && NonEmpty(NonEmpty(fs)) == NonEmpty(fs)
    ensures AllCells(fs) ==> AllCells(NonEmpty(fs))
    ensures forall f :: f in NonEmpty(fs) <==> f in fs && f != ""
  {
    if fs != [] {
      Uncons(fs);
      NonEmptyAll(fs[1..]);
      NonEmptyCons(fs[0], NonEmpty(fs[1..]));
      if NoBlanks(fs) {
        assert forall i :: 0 <= i < |fs[1..]| ==> fs[1..][i] == fs[i + 1];
      }
      if AllCells(fs) {
        AllCellsCons(fs[0], fs[1..]);
        AllCellsCons(fs[0], NonEmpty(fs[1..]));
      }
    }
  }

  lemma {:induction false} CellsOfCells(fs: seq<string>)
    requires AllCells(fs)
    ensures CellsOfAll(fs) == NonEmpty(fs) && AllBalanced(fs)
  {
    if fs != [] {
      Uncons(fs);
      AllCellsCons(fs[0], fs[1..]);
      CellsOfCells(fs[1..]);
      CellsOfCell(fs[0]);
    }
  }

  // Text joined from trimmed, non-blank fields is itself trimmed.
  lemma {:induction false} JoinTrimmed(fs: seq<string>, sep: string)
    requires AllCells(fs) && NoBlanks(fs)
    ensures Trimmed(Js, Join(fs, sep)) && (fs != [] ==> Join(fs, sep) != "")
  {
    if |fs| > 1 {
      Uncons(fs);
      AllCellsCons(fs[0], fs[1..]);
      assert forall i :: 0 <= i < |fs[1..]| ==> fs[1..][i] == fs[i + 1];
      JoinTrimmed(fs[1..], sep);
      var s, t := Join(fs, sep), Join(fs[1..], sep);
      assert s[0] == fs[0][0] && s[|s| - 1] == t[|t| - 1];
    }
  }
}
