// The server composer: addresses that may be scoped to domains, written
// /dom1/dom2/address.
module DomainServers {
  import opened Text
  import opened Csv

  datatype Form = Form(domains: string, addr: string)

  // The domains of a scoped value and the rest behind the last slash.
  function Middle(v: string): seq<string> {
    var parts := SplitOn(v, '/');
    if |parts| >= 2 then parts[1..|parts| - 1] else []
  }

  function Tail(v: string): string {
    var parts := SplitOn(v, '/');
    parts[|parts| - 1]
  }

  predicate Scoped(v: string) { HasPrefix(v, "/") }

  function Parse(v: string): Form {
    if Scoped(v) then Form(Join(NonEmpty(Middle(v)), ", "), Tail(v)) else Form("", v)
  }

  function BuildFrom(doms: seq<string>, addr: string): string {
    if doms == [] then addr else "/" + Join(doms, "/") + "/" + addr
  }

  function Build(o: Form): string { BuildFrom(Cells(o.domains), Trim(Js, o.addr)) }

  function Rebuilt(v: string): string { Build(Parse(v)) }

  // The values that survive: domains are there, none is empty, and each reads
  // back from the comma-separated box; nothing surrounds the address.
  predicate Faithful(v: string) {
    if Scoped(v) then
      Middle(v) != [] && NoBlanks(Middle(v)) && LastMayBeOpen(Middle(v)) && Trimmed(Js, Tail(v))
    else Trimmed(Js, v)
  }

  // /d1/.../dn/rest is the slash-join of "", d1, ..., dn, rest.
  lemma BuiltAsJoin(doms: seq<string>, addr: string)
    requires doms != []
    ensures BuildFrom(doms, addr) == Join([""] + (doms + [addr]), "/")
  {
    JoinFirst("", doms + [addr], '/');
    JoinLast(doms, addr);
    Framed(Join(doms, "/"), addr);
  }

  lemma Framed(middle: string, addr: string)
    ensures "" + ['/'] + (middle + "/" + addr) == "/" + middle + "/" + addr
  {
  }

  lemma {:induction false} JoinLast(ls: seq<string>, last: string)
    requires ls != []
    ensures Join(ls + [last], "/") == Join(ls, "/") + "/" + last
  {
    if |ls| == 1 {
      assert (ls + [last])[1..] == [last];
    } else {
      assert (ls + [last])[1..] == ls[1..] + [last];
      JoinLast(ls[1..], last);
      Regrouped(ls[0], Join(ls[1..], "/"), last);
    }
  }

  lemma Regrouped(a: string, b: string, c: string)
    ensures a + ['/'] + (b + "/" + c) == (a + ['/'] + b) + "/" + c
  {
  }

  lemma SlashFreeParts(doms: seq<string>, addr: string)
    requires AllFree(doms, '/') && '/' !in addr && doms != []
    ensures SplitOn(BuildFrom(doms, addr), '/') == [""] + (doms + [addr])
  {
    BuiltAsJoin(doms, addr);
    SplitOfJoin([""] + (doms + [addr]), '/');
  }

  // A scoped value is the slash-join of its parts.
  lemma ScopedParts(v: string)
    requires Scoped(v)
    ensures SplitOn(v, '/') == [""] + (Middle(v) + [Tail(v)])
    ensures AllFree(Middle(v), '/') && '/' !in Tail(v)
  {
    var parts := SplitOn(v, '/');
    SplitOnFree(v, '/');
    assert v[..1] == "/" && v[0] == '/';
    assert IndexOf(v, '/') == 0;
    assert v[..0] == "";
    assert |parts| >= 2 && parts[0] == "";
    assert parts == [parts[0]] + (parts[1..|parts| - 1] + [parts[|parts| - 1]]);
  }

  lemma {:induction false} CommaBoxFree(s: string, open: bool, c: char)
    requires c !in s
    ensures AllFree(Fields(s, open), c)
  {
    if s != "" {
      CommaBoxFree(s[1..], if s[0] == '"' then !open else open, c);
    }
  }

  lemma {:induction false} TrimAllFree(fs: seq<string>, c: char)
    requires AllFree(fs, c)
    ensures AllFree(TrimAll(fs), c) && AllFree(NonEmpty(fs), c)
  {
    if fs != [] {
      assert forall i :: 0 <= i < |fs[1..]| ==> fs[1..][i] == fs[i + 1];
      TrimAllFree(fs[1..], c);
      var a, b := TrimParts(Js, fs[0]);
      assert c !in Trim(Js, fs[0]);
    }
  }

  lemma {:induction false} JoinFree(fs: seq<string>, c: char)
    requires AllFree(fs, c) && c != ',' && c != ' '
    ensures c !in Join(fs, ", ")
  {
    if |fs| > 1 {
      assert forall i :: 0 <= i < |fs[1..]| ==> fs[1..][i] == fs[i + 1];
      JoinFree(fs[1..], c);
    }
  }

  lemma CellsFree(s: string, c: char)
    requires c !in s
    ensures AllFree(Cells(s), c)
  {
    CommaBoxFree(s, false, c);
    TrimAllFree(Fields(s, false), c);
    TrimAllFree(SplitCSV(s), c);
  }

  // The box holds the domains and gives them back exactly when none is blank
  // and they read as separate fields.
  lemma BoxExact(mid: seq<string>)
    ensures Cells(Join(NonEmpty(mid), ", ")) == mid <==> NoBlanks(mid) && LastMayBeOpen(mid)
  {
    var box := Join(NonEmpty(mid), ", ");
    NonEmptyAll(mid);
    if NoBlanks(mid) && LastMayBeOpen(mid) {
      if mid == [] {
        CellsOfCell("");
      } else {
        SplitJoin(mid, ", ");
      }
    }
    SplitShape(box);
    NonEmptyShape(SplitCSV(box));
    NonEmptyAll(SplitCSV(box));
  }

  // Parsing a value into the form and building it again gives the value back
  // exactly when it is faithful.
  lemma ServerRoundTrip(v: string)
    ensures Rebuilt(v) == v <==> Faithful(v)
  {
    if Scoped(v) {
      ScopedRoundTrip(v);
    } else {
      CellsOfCell("");
      TrimExact(v);
    }
  }

  // An empty domain is dropped, and with it the scope of the address.
  lemma EmptyScopeIsLost()
    ensures Rebuilt("//x") == "x"
  {
    EmptyScope("x");
    assert "//" + "x" == "//x";
  }

  lemma EmptyScope(addr: string)
    requires '/' !in addr && Trimmed(Js, addr)
    ensures Rebuilt("//" + addr) == addr
  {
    SplitsInThree(addr);
    CellsOfCell("");
    TrimIdempotent(Js, addr);
    assert ["", "", addr][1..2] == [""];
    assert NonEmpty([""]) == [];
  }

  lemma SplitsInThree(addr: string)
    requires '/' !in addr
    ensures SplitOn("//" + addr, '/') == ["", "", addr]
  {
    JoinFirst("", [addr], '/');
    JoinFirst("", ["", addr], '/');
    assert [""] + [addr] == ["", addr] && [""] + ["", addr] == ["", "", addr];
    assert "" + ['/'] + ("" + ['/'] + addr) == "//" + addr;
    SplitOfJoin(["", "", addr], '/');
  }

  lemma TrimExact(v: string)
    ensures Trim(Js, v) == v <==> Trimmed(Js, v)
  {
    if Trimmed(Js, v) {
      TrimIdempotent(Js, v);
    }
  }

  lemma ScopedRoundTrip(v: string)
    requires Scoped(v)
    ensures Rebuilt(v) == v <==> Faithful(v)
  {
    ScopedParts(v);
    BoxExact(Middle(v));
    TrimExact(Tail(v));
    FormSlashFree(Middle(v), Tail(v));
    JoinOfSplit(v, '/');
    BuiltExact(v, Middle(v), Tail(v), Cells(Join(NonEmpty(Middle(v)), ", ")), Trim(Js, Tail(v)));
  }

  lemma FormSlashFree(mid: seq<string>, tail: string)
    requires AllFree(mid, '/') && '/' !in tail
    ensures AllFree(Cells(Join(NonEmpty(mid), ", ")), '/') && '/' !in Trim(Js, tail)
  {
    var a, b := TrimParts(Js, tail);
    TrimAllFree(mid, '/');
    JoinFree(NonEmpty(mid), '/');
    CellsFree(Join(NonEmpty(mid), ", "), '/');
  }

  lemma BuiltExact(v: string, mid: seq<string>, tail: string, doms: seq<string>, addr: string)
    requires Scoped(v) && SplitOn(v, '/') == [""] + (mid + [tail]) && Join(SplitOn(v, '/'), "/") == v
    requires AllFree(doms, '/') && '/' !in addr
    ensures BuildFrom(doms, addr) == v <==> doms != [] && doms == mid && addr == tail
  {
    if doms == [] {
      assert v[..1] == "/" && v[0] == '/';
    } else {
      SlashFreeParts(doms, addr);
      SameParts(doms, addr, mid, tail, v);
    }
  }

  lemma SameParts(doms: seq<string>, addr: string, mid: seq<string>, tail: string, v: string)
    requires SplitOn(v, '/') == [""] + (mid + [tail]) && Join(SplitOn(v, '/'), "/") == v
    requires doms != [] && SplitOn(BuildFrom(doms, addr), '/') == [""] + (doms + [addr])
    ensures BuildFrom(doms, addr) == v <==> doms == mid && addr == tail
  {
    BuiltAsJoin(doms, addr);
    if BuildFrom(doms, addr) == v {
      var x, y := [""] + (doms + [addr]), [""] + (mid + [tail]);
      assert x == y && |x| == |doms| + 2 && |y| == |mid| + 2;
      assert doms == x[1..|x| - 1] && mid == y[1..|y| - 1];
      assert addr == x[|x| - 1] && tail == y[|y| - 1];
    }
  }
}
