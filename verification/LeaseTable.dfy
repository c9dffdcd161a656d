// The live lease table: rows are found, created, moved and removed in place,
// and the outcome is that of building the table from scratch, except that
// rows that stay are the same objects.
module LeaseTable {

  // `cells` stands for the rendered cells of the row.
  datatype Lease = Lease(mac: string, ip: string, cells: string)

  function KeyOf(l: Lease): string { l.mac + "|" + l.ip }

  class Row {
    const key: string
    var html: string

    constructor (key: string)
      ensures this.key == key && html == ""
    {
      this.key := key;
      html := "";
    }
  }

  predicate NoDup(xs: seq<Row>) {
    forall i, j :: 0 <= i < j < |xs| ==> xs[i] != xs[j]
  }

  predicate DistinctKeys(xs: seq<Row>) {
    forall i, j :: 0 <= i < j < |xs| ==> xs[i].key != xs[j].key
  }

  predicate DistinctLeases(ls: seq<Lease>) {
    forall i, j :: 0 <= i < j < |ls| ==> KeyOf(ls[i]) != KeyOf(ls[j])
  }

  function Minus(xs: seq<Row>, r: Row): seq<Row> {
    if xs == [] then []
    else if xs[0] == r then Minus(xs[1..], r)
    else [xs[0]] + Minus(xs[1..], r)
  }

  // Where insertion before position i leaves a row that may have been a child
  // already: the DOM detaches it first.
  function Placed(xs: seq<Row>, i: nat, r: Row): seq<Row>
    requires i <= |Minus(xs, r)|
  {
    Minus(xs, r)[..i] + [r] + Minus(xs, r)[i..]
  }

  lemma {:induction false} MinusAbsent(xs: seq<Row>, r: Row)
    requires r !in xs
    ensures Minus(xs, r) == xs
  {
    if xs != [] {
      MinusAbsent(xs[1..], r);
    }
  }

  lemma {:induction false} MinusMembers(xs: seq<Row>, r: Row)
    ensures forall x :: x in Minus(xs, r) <==> x in xs && x != r
  {
    if xs != [] {
      MinusMembers(xs[1..], r);
    }
  }

  lemma {:induction false} MinusMember(xs: seq<Row>, r: Row, x: Row)
    ensures x in Minus(xs, r) <==> x in xs && x != r
  {
    if xs != [] {
      MinusMember(xs[1..], r, x);
      assert xs == [xs[0]] + xs[1..];
    }
  }

  predicate Within(xs: seq<Row>, all: seq<Row>) {
    forall x :: x in xs ==> x in all
  }

  lemma MinusWithin(xs: seq<Row>, r: Row, all: seq<Row>)
    requires Within(xs, all)
    ensures Within(Minus(xs, r), all)
  {
    MinusMembers(xs, r);
  }

  lemma NoDupCons(x: Row, xs: seq<Row>)
    ensures NoDup([x] + xs) <==> x !in xs && NoDup(xs)
  {
    var all := [x] + xs;
    if NoDup(all) {
      forall i | 0 <= i < |xs|
        ensures xs[i] != x
      {
        assert all[i + 1] == xs[i] && all[0] == x;
      }
      forall i, j | 0 <= i < j < |xs|
        ensures xs[i] != xs[j]
      {
        assert all[i + 1] == xs[i] && all[j + 1] == xs[j];
      }
    }
  }

  lemma {:induction false} MinusNoDup(xs: seq<Row>, r: Row)
    requires NoDup(xs)
    ensures NoDup(Minus(xs, r))
  {
    if xs != [] {
      assert xs == [xs[0]] + xs[1..];
      NoDupCons(xs[0], xs[1..]);
      MinusNoDup(xs[1..], r);
      MinusMembers(xs[1..], r);
      NoDupCons(xs[0], Minus(xs[1..], r));
    }
  }

  lemma {:induction false} NoDupSplit(a: seq<Row>, b: seq<Row>)
    ensures NoDup(a + b) <==> NoDup(a) && NoDup(b) && forall x :: x in a ==> x !in b
  {
    if a == [] {
      assert a + b == b;
    } else {
      assert a + b == [a[0]] + (a[1..] + b) && a == [a[0]] + a[1..];
      NoDupCons(a[0], a[1..] + b);
      NoDupCons(a[0], a[1..]);
      NoDupSplit(a[1..], b);
    }
  }

  lemma {:induction false} MinusPrefix(a: seq<Row>, b: seq<Row>, r: Row)
    requires r !in a
    ensures Minus(a + b, r) == a + Minus(b, r)
  {
    if a == [] {
      assert a + b == b;
    } else {
      assert (a + b)[1..] == a[1..] + b;
      MinusPrefix(a[1..], b, r);
    }
  }

  // One move: the rows already in place stay, the new one follows them.
  lemma PlacedMeaning(a: seq<Row>, b: seq<Row>, r: Row)
    requires NoDup(a + b) && r !in a
    ensures |a| <= |Minus(a + b, r)| && Minus(a + b, r)[..|a|] == a
    ensures Placed(a + b, |a|, r) == a + [r] + Minus(b, r)
    ensures NoDup(a + [r] + Minus(b, r))
  {
    MinusPrefix(a, b, r);
    NoDupSplit(a, b);
    MinusNoDup(b, r);
    MinusMembers(b, r);
    NoDupCons(r, Minus(b, r));
    NoDupSplit(a, [r] + Minus(b, r));
    assert a + [r] + Minus(b, r) == a + ([r] + Minus(b, r));
  }

  // The position of a row among its siblings.
  function PosOf(xs: seq<Row>, r: Row): (i: nat)
    ensures i <= |xs| && (i < |xs| ==> xs[i] == r)
    ensures r in xs ==> i < |xs|
  {
    if xs == [] || xs[0] == r then 0 else 1 + PosOf(xs[1..], r)
  }

  lemma {:induction false} PosIs(xs: seq<Row>, r: Row, i: nat)
    requires i < |xs| && xs[i] == r && forall j :: 0 <= j < i ==> xs[j] != r
    ensures PosOf(xs, r) == i
  {
    if i > 0 {
      PosIs(xs[1..], r, i - 1);
    }
  }

  // The last row in place is found there, with or without the one to be moved.
  lemma LastPlaced(a: seq<Row>, b: seq<Row>, r: Row, prev: Row)
    requires NoDup(a + b) && r !in a && a != [] && a[|a| - 1] == prev
    ensures prev in a + b && PosOf(a + b, prev) == |a| - 1
    ensures prev in Minus(a + b, r) && PosOf(Minus(a + b, r), prev) == |a| - 1
  {
    MinusPrefix(a, b, r);
    NoDupSplit(a, b);
    EndOfFront(a, b);
    EndOfFront(a, Minus(b, r));
  }

  lemma EndOfFront(a: seq<Row>, c: seq<Row>)
    requires NoDup(a) && a != []
    ensures a[|a| - 1] in a + c && PosOf(a + c, a[|a| - 1]) == |a| - 1
  {
    var i := |a| - 1;
    assert (a + c)[i] == a[i];
    forall j | 0 <= j < i
      ensures (a + c)[j] != a[i]
    {
      assert (a + c)[j] == a[j];
    }
    PosIs(a + c, a[i], i);
  }

  class TableBody {
    var children: seq<Row>

    constructor ()
      ensures children == []
    {
      children := [];
    }

    method FirstElementChild() returns (first: Row?)
      ensures first == if children == [] then null else children[0]
    {
      first := if children == [] then null else children[0];
    }

    method NextElementSibling(r: Row) returns (next: Row?)
      requires r in children
      ensures next == if PosOf(children, r) + 1 < |children| then children[PosOf(children, r) + 1] else null
    {
      var i := PosOf(children, r);
      next := if i + 1 < |children| then children[i + 1] else null;
    }

    method Prepend(tr: Row)
      modifies this
      ensures children == Placed(old(children), 0, tr)
    {
      children := Minus(children, tr);
      children := [tr] + children;
    }

    // Puts tr behind prev, wherever tr was.
    method InsertAfter(prev: Row, tr: Row)
      requires prev in Minus(children, tr)
      modifies this
      ensures children == Placed(old(children), PosOf(Minus(old(children), tr), prev) + 1, tr)
    {
      children := Minus(children, tr);
      var i := PosOf(children, prev) + 1;
      children := children[..i] + [tr] + children[i..];
    }

    method Remove(tr: Row)
      modifies this
      ensures children == Minus(old(children), tr)
    {
      children := Minus(children, tr);
    }
  }

  // The rows there are, by their keys.
  method ByKey(rows: seq<Row>) returns (existing: map<string, Row>)
    requires DistinctKeys(rows)
    ensures forall r :: r in rows ==> r.key in existing && existing[r.key] == r
    ensures forall k :: k in existing ==> existing[k] in rows && existing[k].key == k
  {
    existing := map[];
    var i := 0;
    while i < |rows|
      invariant 0 <= i <= |rows|
      invariant forall j :: 0 <= j < i ==> rows[j].key in existing && existing[rows[j].key] == rows[j]
      invariant forall k :: k in existing ==> existing[k] in rows && existing[k].key == k
    {
      existing := existing[rows[i].key := rows[i]];
      i := i + 1;
    }
  }

  // The row of a lease: its old one, where it has one.
  predicate RowFor(r: Row, l: Lease, existing: map<string, Row>)
    reads r
  {
    r.key == KeyOf(l) && r.html == l.cells && (KeyOf(l) in existing ==> r == existing[KeyOf(l)])
  }

  // The row placed in the round before, which stands just ahead of position i.
  predicate Precedes(prev: Row?, xs: seq<Row>, i: nat) {
    i <= |xs| && if prev == null then i == 0 else i > 0 && xs[i - 1] == prev
  }

  // One round of the loop: find or create the row, refresh it, put it behind
  // the row of the lease before.
  method PlaceRow(body: TableBody, prev: Row?, l: Lease, existing: map<string, Row>, ghost i: nat)
    returns (tr: Row)
    requires Precedes(prev, body.children, i) && NoDup(body.children)
    requires KeyOf(l) in existing ==> existing[KeyOf(l)] !in body.children[..i]
                                      && existing[KeyOf(l)].key == KeyOf(l)
    modifies body, if KeyOf(l) in existing then {existing[KeyOf(l)]} else {}
    ensures RowFor(tr, l, existing) && (KeyOf(l) !in existing ==> fresh(tr))
    ensures tr !in old(body.children)[..i]
    ensures body.children == old(body.children)[..i] + [tr] + Minus(old(body.children)[i..], tr)
    ensures NoDup(body.children)
  {
    var key := KeyOf(l);
    if key in existing {
      tr := existing[key];
    } else {
      tr := new Row(key);
    }
    if tr.html != l.cells {
      tr.html := l.cells;
    }
    KeepOrder(body, prev, tr, i);
  }

  method KeepOrder(body: TableBody, prev: Row?, tr: Row, ghost i: nat)
    requires Precedes(prev, body.children, i) && NoDup(body.children) && tr !in body.children[..i]
    modifies body
    ensures body.children == old(body.children)[..i] + [tr] + Minus(old(body.children)[i..], tr)
    ensures NoDup(body.children)
  {
    ghost var done, rest := body.children[..i], body.children[i..];
    assert body.children == done + rest;
    PlacedMeaning(done, rest, tr);
    if prev != null {
      LastPlaced(done, rest, tr, prev);
      var next := body.NextElementSibling(prev);
      if next == tr {
        StaysPut(done, rest, tr);
      } else {
        body.InsertAfter(prev, tr);
      }
    } else {
      var first := body.FirstElementChild();
      if first == tr {
        StaysPut(done, rest, tr);
      } else {
        body.Prepend(tr);
      }
    }
  }

  lemma StaysPut(a: seq<Row>, b: seq<Row>, r: Row)
    requires NoDup(a + b) && b != [] && b[0] == r
    ensures a + [r] + Minus(b, r) == a + b
  {
    assert b == [r] + b[1..];
    NoDupSplit(a, b);
    NoDupCons(r, b[1..]);
    MinusAbsent(b[1..], r);
  }

  // From any table with distinct keys and any leases with distinct keys, the
  // table ends with one row per lease, in the order of the leases; a key that
  // was there before keeps its row object, and only new keys get new rows.
  method Render(body: TableBody, leases: seq<Lease>)
    requires DistinctKeys(body.children) && DistinctLeases(leases)
    modifies body, body.children
    ensures |body.children| == |leases|
    ensures forall i :: 0 <= i < |leases| ==>
              body.children[i].key == leases[i].mac + "|" + leases[i].ip && body.children[i].html == leases[i].cells
    ensures forall i, r :: 0 <= i < |leases| && r in old(body.children) && r.key == leases[i].mac + "|" + leases[i].ip
              ==> body.children[i] == r
    ensures forall r :: r in body.children ==> r in old(body.children) || fresh(r)
  {
    var existing := ByKey(body.children);
    var before := body.children;
    KeysAreRows(before);
    var seen := PlaceAll(body, leases, existing, before);
    UnseenTail(body, before, existing, leases, seen);
    assert forall i :: 0 <= i < |leases| ==> RowFor(body.children[i], leases[i], existing);
    RemoveUnseen(body, before, seen, |leases|);
  }

  method PlaceAll(body: TableBody, leases: seq<Lease>, existing: map<string, Row>, ghost rows: seq<Row>)
    returns (seen: set<string>)
    requires body.children == rows && NoDup(rows) && DistinctLeases(leases)
    requires forall k :: k in existing ==> existing[k] in rows && existing[k].key == k
    modifies body, rows
    ensures |leases| <= |body.children| && NoDup(body.children)
    ensures forall j :: 0 <= j < |leases| ==> RowFor(body.children[j], leases[j], existing)
    ensures forall j :: 0 <= j < |leases| ==> body.children[j] in rows || fresh(body.children[j])
    ensures Within(body.children[|leases|..], rows)
    ensures seen == KeysOf(leases, |leases|)
  {
    seen := {};
    var prev: Row? := null;
    var i := 0;
    while i < |leases|
      invariant 0 <= i <= |leases| && Precedes(prev, body.children, i) && NoDup(body.children)
      invariant forall j :: 0 <= j < i ==> RowFor(body.children[j], leases[j], existing)
      invariant forall j :: 0 <= j < i ==> body.children[j] in rows || fresh(body.children[j])
      invariant Within(body.children[i..], rows)
      invariant seen == KeysOf(leases, i)
    {
      KeysStep(leases, i);
      seen := seen + {KeyOf(leases[i])};
      prev := PlaceNext(body, prev, leases, existing, rows, i);
      i := i + 1;
    }
  }

  // The rows placed before stay where and as they are.
  method PlaceNext(body: TableBody, prev: Row?, leases: seq<Lease>, existing: map<string, Row>,
                   ghost rows: seq<Row>, i: nat) returns (tr: Row)
    requires i < |leases| && DistinctLeases(leases)
    requires Precedes(prev, body.children, i) && NoDup(body.children) && Within(body.children[i..], rows)
    requires forall j :: 0 <= j < i ==> RowFor(body.children[j], leases[j], existing)
    requires forall k :: k in existing ==> existing[k] in rows && existing[k].key == k
    modifies body, rows
    ensures i < |body.children| && body.children[i] == tr && (tr in rows || fresh(tr))
    ensures body.children[..i] == old(body.children)[..i]
    ensures NoDup(body.children) && Within(body.children[i + 1..], rows)
    ensures forall j :: 0 <= j <= i ==> RowFor(body.children[j], leases[j], existing)
  {
    ghost var done, rest := body.children[..i], body.children[i..];
    assert forall j :: 0 <= j < i ==> done[j].key == KeyOf(leases[j]) && done[j].key != KeyOf(leases[i]);
    tr := PlaceRow(body, prev, leases[i], existing, i);
    forall j | 0 <= j < i
      ensures body.children[j] == done[j] && done[j] != tr && RowFor(done[j], leases[j], existing)
    {
      assert old(RowFor(done[j], leases[j], existing));
    }
    assert body.children[i + 1..] == Minus(rest, tr);
    MinusWithin(rest, tr, rows);
  }

  function KeysOf(leases: seq<Lease>, n: nat): set<string>
    requires n <= |leases|
  {
    set j | 0 <= j < n :: KeyOf(leases[j])
  }

  lemma KeysStep(leases: seq<Lease>, n: nat)
    requires n < |leases|
    ensures KeysOf(leases, n + 1) == KeysOf(leases, n) + {KeyOf(leases[n])}
  {
  }

  lemma KeysAreRows(rows: seq<Row>)
    requires DistinctKeys(rows)
    ensures NoDup(rows)
  {
  }

  // Rows left behind the leases belong to none of them.
  lemma UnseenTail(body: TableBody, rows: seq<Row>, existing: map<string, Row>, leases: seq<Lease>, seen: set<string>)
    requires |leases| <= |body.children| && NoDup(body.children)
    requires forall r :: r in rows ==> r.key in existing && existing[r.key] == r
    requires forall j :: 0 <= j < |leases| ==> RowFor(body.children[j], leases[j], existing)
    requires Within(body.children[|leases|..], rows)
    requires seen == KeysOf(leases, |leases|)
    ensures forall r :: r in body.children[|leases|..] ==> r.key !in seen
  {
    var n := |leases|;
    forall k | n <= k < |body.children|
      ensures body.children[k].key !in seen
    {
      var r := body.children[k];
      assert r == body.children[n..][k - n];
      forall j | 0 <= j < n
        ensures KeyOf(leases[j]) != r.key
      {
        assert RowFor(body.children[j], leases[j], existing);
        assert body.children[j] != body.children[k];
      }
    }
  }

  lemma NotEmpty(xs: seq<Row>)
    ensures xs == [] || exists r :: r in xs
  {
    if xs != [] {
      assert xs[0] in xs;
    }
  }

  lemma Emptied(rest: seq<Row>, tail: seq<Row>)
    requires tail == [] && forall r :: r in rest ==> r in tail
    ensures rest == []
  {
    NotEmpty(rest);
  }

  lemma NextRow(rows: seq<Row>, k: nat, r: Row)
    requires k < |rows| && r in rows[k..] && r != rows[k]
    ensures r in rows[k + 1..]
  {
    assert rows[k..] == [rows[k]] + rows[k + 1..];
  }

  // Rows whose key no lease has are taken out.
  method RemoveUnseen(body: TableBody, rows: seq<Row>, seen: set<string>, n: nat)
    requires n <= |body.children| && NoDup(body.children)
    requires forall i :: 0 <= i < n ==> body.children[i].key in seen
    requires forall r :: r in body.children[n..] ==> r in rows && r.key !in seen
    modifies body
    ensures body.children == old(body.children)[..n]
  {
    ghost var kept := body.children[..n];
    ghost var rest := body.children[n..];
    assert body.children == kept + rest;
    assert forall i :: 0 <= i < n ==> kept[i].key in seen;
    var k := 0;
    while k < |rows|
      invariant 0 <= k <= |rows|
      invariant body.children == kept + rest
      invariant forall r :: r in rest ==> r in rows[k..]
      invariant forall r :: r in rest ==> r.key !in seen
    {
      var tr := rows[k];
      ghost var was := rest;
      if tr.key !in seen {
        MinusPrefix(kept, rest, tr);
        body.Remove(tr);
        rest := Minus(was, tr);
      }
      forall r | r in rest
        ensures r in rows[k + 1..] && r.key !in seen
      {
        MinusMember(was, tr, r);
        NextRow(rows, k, r);
      }
      k := k + 1;
    }
    Emptied(rest, rows[k..]);
  }
}
