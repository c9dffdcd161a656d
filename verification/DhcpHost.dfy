// The dhcp-host composer: parsing and building brings a value to a canonical
// form, and loses a field only where a later one overwrites it.
module DhcpHost {
  import opened Text
  import opened Csv
  import opened Composers

  datatype Scan = Scan(mac: seq<string>, ip: string, hostname: string, lease: string, tags: seq<string>,
                       ignored: bool, extra: seq<string>)

  datatype Form = Form(mac: string, ip: string, hostname: string, lease: string, tags: string,
                       ignored: bool, extra: seq<string>)

  predicate LineEnd(ch: char) { ch == '\n' || ch == '\r' || ch == '\U{2028}' || ch == '\U{2029}' }

  // In square brackets, without a line break inside.
  predicate Bracketed(p: string) {
    |p| >= 2 && p[0] == '[' && p[|p| - 1] == ']' && forall i :: 1 <= i < |p| - 1 ==> !LineEnd(p[i])
  }

  // What a field is by itself, in the order in which the tests are made.
  datatype Kind = Nothing | Ignore | Tag | Mac | Addr | LeaseShaped | Name

  function KindOf(c: Classes, p: string): Kind {
    if p == "" then Nothing
    else if p == "ignore" then Ignore
    else if HasPrefix(p, "set:") || HasPrefix(p, "tag:") then Tag
    else if HasPrefix(p, "id:") || c.mac(p) then Mac
    else if c.ip4(p) || Bracketed(p) then Addr
    else if c.lease(p) then LeaseShaped
    else Name
  }

  function Put(o: Scan, k: Kind, p: string): Scan {
    match k
    case Nothing => o
    case Ignore => o.(ignored := true)
    case Tag => o.(tags := o.tags + [p])
    case Mac => o.(mac := o.mac + [p])
    case Addr => o.(ip := p)
    case LeaseShaped => if o.hostname != "" then o.(lease := p) else o.(hostname := p)
    case Name => if o.hostname == "" then o.(hostname := p) else o.(extra := o.extra + [p])
  }

  function Step(c: Classes, o: Scan, p: string): Scan { Put(o, KindOf(c, p), p) }

  function Fold(c: Classes, fs: seq<string>, o: Scan): Scan
    decreases |fs|
  {
    if fs == [] then o else Fold(c, fs[1..], Step(c, o, fs[0]))
  }

  const BLANK := Scan([], "", "", "", [], false, [])

  function Scanned(c: Classes, v: string): Scan { Fold(c, SplitCSV(v), BLANK) }

  function Boxes(o: Scan): Form {
    Form(Join(o.mac, ", "), o.ip, o.hostname, o.lease, Join(o.tags, ", "), o.ignored, o.extra)
  }

  function ParseHost(c: Classes, v: string): Form { Boxes(Scanned(c, v)) }

  // The chain of tests of the loop body.
  method Place(c: Classes, o: Scan, p: string) returns (r: Scan)
    ensures r == Step(c, o, p)
  {
    if p == "" {
      return o;
    }
    if p == "ignore" {
      r := o.(ignored := true);
    } else if HasPrefix(p, "set:") || HasPrefix(p, "tag:") {
      r := o.(tags := o.tags + [p]);
    } else if HasPrefix(p, "id:") {
      r := o.(mac := o.mac + [p]);
    } else if c.mac(p) {
      r := o.(mac := o.mac + [p]);
    } else if c.ip4(p) || Bracketed(p) {
      r := o.(ip := p);
    } else if c.lease(p) && o.hostname != "" {
      r := o.(lease := p);
    } else if o.hostname == "" {
      r := o.(hostname := p);
    } else {
      r := o.(extra := o.extra + [p]);
    }
  }

  method Classify(c: Classes, parts: seq<string>) returns (o: Scan)
    ensures o == Fold(c, parts, BLANK)
  {
    o := BLANK;
    var i := 0;
    assert parts[0..] == parts;
    while i < |parts|
      invariant 0 <= i <= |parts|
      invariant Fold(c, parts[i..], o) == Fold(c, parts, BLANK)
    {
      FoldStep(c, parts, i, o);
      o := Place(c, o, parts[i]);
      i := i + 1;
    }
  }

  lemma FoldStep(c: Classes, fs: seq<string>, i: nat, o: Scan)
    requires i < |fs|
    ensures Fold(c, fs[i..], o) == Fold(c, fs[i + 1..], Step(c, o, fs[i]))
  {
    assert fs[i..][1..] == fs[i + 1..];
  }

  method Parse(c: Classes, v: string) returns (form: Form)
    ensures form == ParseHost(c, v)
  {
    var parts := SplitLoop(v);
    var o := Classify(c, parts);
    form := Boxes(o);
  }

  function IgnoreText(ignored: bool): string { if ignored then "ignore" else "" }

  function BuildFrom(macs: seq<string>, tags: seq<string>, f: Form): Option<string> {
    if macs == [] && Trim(Js, f.hostname) == "" then None
    else Some(JoinCSV(macs + tags + [f.ip, f.hostname, f.lease, IgnoreText(f.ignored)] + f.extra))
  }

  function Build(f: Form): Option<string> { BuildFrom(Cells(f.mac), Cells(f.tags), f) }

  function Rebuilt(c: Classes, v: string): Option<string> { Build(ParseHost(c, v)) }

  // ---- what a scan collects ----------------------------------------------

  function One(s: string): seq<string> { if s == "" then [] else [s] }

  // The fields in the order in which they are built.
  function Out(o: Scan): seq<string> {
    o.mac + (o.tags + (One(o.ip) + (One(o.hostname) + (One(o.lease) + (One(IgnoreText(o.ignored)) + o.extra)))))
  }

  predicate AllKind(c: Classes, fs: seq<string>, k: Kind) {
    forall i :: 0 <= i < |fs| ==> KindOf(c, fs[i]) == k
  }

  // Every field sits where a second reading would put it again.
  predicate Sorted(c: Classes, o: Scan) {
    && AllKind(c, o.mac, Mac) && AllKind(c, o.tags, Tag) && AllKind(c, o.extra, Name)
    && (o.ip != "" ==> KindOf(c, o.ip) == Addr)
    && (o.hostname != "" ==> KindOf(c, o.hostname) == Name || KindOf(c, o.hostname) == LeaseShaped)
    && (o.lease != "" ==> KindOf(c, o.lease) == LeaseShaped)
    && (o.hostname == "" ==> o.lease == "" && o.extra == [])
  }

  lemma AllKindSnoc(c: Classes, fs: seq<string>, p: string, k: Kind)
    requires AllKind(c, fs, k) && KindOf(c, p) == k
    ensures AllKind(c, fs + [p], k)
  {
  }

  lemma PutSorts(c: Classes, o: Scan, p: string, k: Kind)
    requires Sorted(c, o) && KindOf(c, p) == k && (k == Nothing <==> p == "")
    ensures Sorted(c, Put(o, k, p))
  {
    match k
    case Tag => AllKindSnoc(c, o.tags, p, Tag);
    case Mac => AllKindSnoc(c, o.mac, p, Mac);
    case Name => AllKindSnoc(c, o.extra, p, Name);
    case _ =>
  }

  lemma KindBlank(c: Classes, p: string)
    ensures KindOf(c, p) == Nothing <==> p == ""
  {
  }

  lemma {:induction false} FoldSorts(c: Classes, fs: seq<string>, o: Scan)
    requires Sorted(c, o)
    ensures Sorted(c, Fold(c, fs, o))
    decreases |fs|
  {
    if fs != [] {
      KindBlank(c, fs[0]);
      PutSorts(c, o, fs[0], KindOf(c, fs[0]));
      FoldSorts(c, fs[1..], Step(c, o, fs[0]));
    }
  }

  // ---- reading the canonical order ----------------------------------------

  lemma {:induction false} FoldConcat(c: Classes, a: seq<string>, b: seq<string>, o: Scan)
    ensures Fold(c, a + b, o) == Fold(c, b, Fold(c, a, o))
    decreases |a|
  {
    if a == [] {
      assert a + b == b;
    } else {
      assert (a + b)[1..] == a[1..] + b;
      FoldConcat(c, a[1..], b, Step(c, o, a[0]));
    }
  }

  lemma {:induction false} FoldMacs(c: Classes, fs: seq<string>, o: Scan)
    requires AllKind(c, fs, Mac)
    ensures Fold(c, fs, o) == o.(mac := o.mac + fs)
    decreases |fs|
  {
    if fs == [] {
      assert o.mac + fs == o.mac;
    } else {
      assert forall i :: 0 <= i < |fs[1..]| ==> fs[1..][i] == fs[i + 1];
      FoldMacs(c, fs[1..], o.(mac := o.mac + [fs[0]]));
      assert o.mac + [fs[0]] + fs[1..] == o.mac + fs;
    }
  }

  lemma {:induction false} FoldTags(c: Classes, fs: seq<string>, o: Scan)
    requires AllKind(c, fs, Tag)
    ensures Fold(c, fs, o) == o.(tags := o.tags + fs)
    decreases |fs|
  {
    if fs == [] {
      assert o.tags + fs == o.tags;
    } else {
      assert forall i :: 0 <= i < |fs[1..]| ==> fs[1..][i] == fs[i + 1];
      FoldTags(c, fs[1..], o.(tags := o.tags + [fs[0]]));
      assert o.tags + [fs[0]] + fs[1..] == o.tags + fs;
    }
  }

  lemma {:induction false} FoldExtra(c: Classes, fs: seq<string>, o: Scan)
    requires AllKind(c, fs, Name) && (o.hostname != "" || fs == [])
    ensures Fold(c, fs, o) == o.(extra := o.extra + fs)
    decreases |fs|
  {
    if fs == [] {
      assert o.extra + fs == o.extra;
    } else {
      assert forall i :: 0 <= i < |fs[1..]| ==> fs[1..][i] == fs[i + 1];
      FoldExtra(c, fs[1..], o.(extra := o.extra + [fs[0]]));
      assert o.extra + [fs[0]] + fs[1..] == o.extra + fs;
    }
  }

  lemma FoldOne(c: Classes, p: string, o: Scan)
    ensures Fold(c, One(p), o) == if p == "" then o else Step(c, o, p)
  {
    if p != "" {
      assert [p][1..] == [];
    }
  }

  lemma FoldIgnore(c: Classes, ignored: bool, o: Scan)
    ensures Fold(c, One(IgnoreText(ignored)), o) == if ignored then o.(ignored := true) else o
  {
    FoldOne(c, IgnoreText(ignored), o);
  }

  // Reading the fields of a sorted scan gives that scan again.
  lemma ReadsBack(c: Classes, o: Scan)
    requires Sorted(c, o)
    ensures Fold(c, Out(o), BLANK) == o
  {
    var o1 := BLANK.(mac := o.mac);
    var o2 := o1.(tags := o.tags);
    var r2 := One(o.ip) + (One(o.hostname) + (One(o.lease) + (One(IgnoreText(o.ignored)) + o.extra)));
    FoldConcat(c, o.mac, o.tags + r2, BLANK);
    FoldMacs(c, o.mac, BLANK);
    FoldConcat(c, o.tags, r2, o1);
    FoldTags(c, o.tags, o1);
    assert [] + o.mac == o.mac && [] + o.tags == o.tags;
    ReadsSingles(c, o, o2);
  }

  lemma ReadsSingles(c: Classes, o: Scan, start: Scan)
    requires Sorted(c, o) && start == Scan(o.mac, "", "", "", o.tags, false, [])
    ensures Fold(c, One(o.ip) + (One(o.hostname) + (One(o.lease) + (One(IgnoreText(o.ignored)) + o.extra))), start) == o
  {
    var o3 := start.(ip := o.ip);
    var o4 := o3.(hostname := o.hostname);
    var r5 := One(IgnoreText(o.ignored)) + o.extra;
    var r4 := One(o.lease) + r5;
    FoldConcat(c, One(o.ip), One(o.hostname) + r4, start);
    FoldOne(c, o.ip, start);
    FoldConcat(c, One(o.hostname), r4, o3);
    FoldOne(c, o.hostname, o3);
    FoldConcat(c, One(o.lease), r5, o4);
    FoldOne(c, o.lease, o4);
    ReadsLast(c, o, o4.(lease := o.lease));
  }

  lemma ReadsLast(c: Classes, o: Scan, start: Scan)
    requires Sorted(c, o) && start == o.(ignored := false, extra := [])
    ensures Fold(c, One(IgnoreText(o.ignored)) + o.extra, start) == o
  {
    FoldConcat(c, One(IgnoreText(o.ignored)), o.extra, start);
    FoldIgnore(c, o.ignored, start);
    FoldExtra(c, o.extra, start.(ignored := o.ignored));
    assert [] + o.extra == o.extra;
  }

  // ---- from fields to text and back ---------------------------------------

  predicate CellsOk(o: Scan) {
    && AllCells(o.mac) && AllCells(o.tags) && AllCells(o.extra)
    && Cell(o.ip) && Cell(o.hostname) && Cell(o.lease)
  }

  lemma PutCells(o: Scan, k: Kind, p: string)
    requires CellsOk(o) && Cell(p)
    ensures CellsOk(Put(o, k, p))
  {
    match k
    case Tag => Snoc2(o.tags, p);
    case Mac => Snoc2(o.mac, p);
    case Name => Snoc2(o.extra, p);
    case _ =>
  }

  lemma {:induction false} FoldCells(c: Classes, fs: seq<string>, o: Scan)
    requires CellsOk(o) && AllCells(fs)
    ensures CellsOk(Fold(c, fs, o))
    decreases |fs|
  {
    if fs != [] {
      Csv.Uncons(fs);
      AllCellsCons(fs[0], fs[1..]);
      PutCells(o, KindOf(c, fs[0]), fs[0]);
      FoldCells(c, fs[1..], Step(c, o, fs[0]));
    }
  }

  function Pieces(o: Scan): seq<string> {
    o.mac + o.tags + [o.ip, o.hostname, o.lease, IgnoreText(o.ignored)] + o.extra
  }

  lemma KindNotBlank(c: Classes, fs: seq<string>, k: Kind)
    requires AllKind(c, fs, k) && k != Nothing
    ensures NoBlanks(fs)
  {
    forall i | 0 <= i < |fs|
      ensures fs[i] != ""
    {
      KindBlank(c, fs[i]);
    }
  }

  lemma SinglesNonEmpty(a: string, b: string, c: string, d: string)
    ensures NonEmpty([a, b, c, d]) == One(a) + (One(b) + (One(c) + One(d)))
  {
    assert [a, b, c, d] == [a, b] + [c, d];
    NonEmptyConcat([a, b], [c, d]);
    NonEmptyPair(a, b);
    NonEmptyPair(c, d);
  }

  lemma PiecesNonEmpty(o: Scan)
    requires NoBlanks(o.mac) && NoBlanks(o.tags) && NoBlanks(o.extra)
    ensures NonEmpty(Pieces(o)) == Out(o)
  {
    var mid := [o.ip, o.hostname, o.lease, IgnoreText(o.ignored)];
    NonEmptyConcat(o.mac + o.tags + mid, o.extra);
    NonEmptyConcat(o.mac + o.tags, mid);
    NonEmptyConcat(o.mac, o.tags);
    SinglesNonEmpty(o.ip, o.hostname, o.lease, IgnoreText(o.ignored));
    NonEmptyAll(o.mac);
    NonEmptyAll(o.tags);
    NonEmptyAll(o.extra);
    Reassociate(o.mac, o.tags, One(o.ip), One(o.hostname), One(o.lease), One(IgnoreText(o.ignored)), o.extra);
  }

  lemma Reassociate(a: seq<string>, b: seq<string>, c: seq<string>, d: seq<string>, e: seq<string>, f: seq<string>,
                    g: seq<string>)
    ensures a + b + (c + (d + (e + f))) + g == a + (b + (c + (d + (e + (f + g)))))
  {
  }

  lemma IgnoreIsCell(ignored: bool)
    ensures Cell(IgnoreText(ignored))
  {
    var s := "ignore";
    assert s[1..] == "gnore" && "gnore"[1..] == "nore" && "nore"[1..] == "ore" && "ore"[1..] == "re"
           && "re"[1..] == "e" && "e"[1..] == "";
    assert Open("e", false) == false && OneField("e", false);
    assert Open("re", false) == false && OneField("re", false);
    assert Open("ore", false) == false && OneField("ore", false);
    assert Open("nore", false) == false && OneField("nore", false);
    assert Open("gnore", false) == false && OneField("gnore", false);
  }

  lemma CellsConcatenated(a: seq<string>, b: seq<string>)
    requires AllCells(a) && AllCells(b)
    ensures AllCells(a + b)
  {
  }

  lemma PiecesAreCells(o: Scan)
    requires CellsOk(o)
    ensures AllCells(Pieces(o))
  {
    var mid := [o.ip, o.hostname, o.lease, IgnoreText(o.ignored)];
    IgnoreIsCell(o.ignored);
    assert AllCells(mid);
    CellsConcatenated(o.mac, o.tags);
    CellsConcatenated(o.mac + o.tags, mid);
    CellsConcatenated(o.mac + o.tags + mid, o.extra);
  }

  // What a balanced value is scanned into.
  lemma ScannedFacts(c: Classes, v: string)
    requires Balanced(v)
    ensures Sorted(c, Scanned(c, v)) && CellsOk(Scanned(c, v))
  {
    SplitShape(v);
    assert Cell("");
    FoldSorts(c, SplitCSV(v), BLANK);
    FoldCells(c, SplitCSV(v), BLANK);
  }

  // The text built from a scan, and its fields.
  lemma BuiltText(c: Classes, o: Scan)
    requires Sorted(c, o) && CellsOk(o)
    ensures Build(Boxes(o)) == if o.mac == [] && o.hostname == "" then None else Some(JoinCSV(Pieces(o)))
  {
    KindNotBlank(c, o.mac, Mac);
    KindNotBlank(c, o.tags, Tag);
    ListBox(o.mac, ", ");
    ListBox(o.tags, ", ");
    NonEmptyAll(o.mac);
    NonEmptyAll(o.tags);
    TrimIdempotent(Js, o.hostname);
  }

  lemma BuiltFields(c: Classes, o: Scan)
    requires Sorted(c, o) && CellsOk(o)
    ensures Cells(JoinCSV(Pieces(o))) == Out(o)
    ensures Fold(c, SplitCSV(JoinCSV(Pieces(o))), BLANK) == Fold(c, Out(o), BLANK)
  {
    KindNotBlank(c, o.mac, Mac);
    KindNotBlank(c, o.tags, Tag);
    KindNotBlank(c, o.extra, Name);
    PiecesAreCells(o);
    PiecesNonEmpty(o);
    CellsMayBeOpen(Pieces(o));
    RoundTrip(Pieces(o));
    if Out(o) == [] {
      assert [""][1..] == [];
    }
  }

  // Whenever the form accepts what was parsed, parsing what it builds gives
  // the same form: one pass reaches a canonical value.
  lemma HostIsCanonical(c: Classes, v: string)
    requires Balanced(v)
    ensures Rebuilt(c, v).Some? <==> Scanned(c, v).mac != [] || Scanned(c, v).hostname != ""
    ensures Rebuilt(c, v).Some? ==> ParseHost(c, Rebuilt(c, v).value) == ParseHost(c, v)
    ensures Rebuilt(c, v).Some? ==> Cells(Rebuilt(c, v).value) == Out(Scanned(c, v))
  {
    var o := Scanned(c, v);
    ScannedFacts(c, v);
    BuiltText(c, o);
    BuiltFields(c, o);
    ReadsBack(c, o);
  }

  // ---- what is lost ------------------------------------------------------

  // How often a text occurs among the fields a scan has collected.
  function Count(o: Scan, x: string): nat { RestCount(o, x) + AsBag(IgnoreText(o.ignored))[x] }

  function RestCount(o: Scan, x: string): nat {
    multiset(o.mac)[x] + multiset(o.tags)[x] + AsBag(o.ip)[x] + AsBag(o.hostname)[x] + AsBag(o.lease)[x]
    + multiset(o.extra)[x]
  }

  // The field that storing p overwrites.
  function Overwritten(o: Scan, k: Kind): multiset<string> {
    match k
    case Addr => AsBag(o.ip)
    case Ignore => AsBag(IgnoreText(o.ignored))
    case LeaseShaped => if o.hostname != "" then AsBag(o.lease) else multiset{}
    case _ => multiset{}
  }

  function Lost(c: Classes, fs: seq<string>, o: Scan): multiset<string>
    decreases |fs|
  {
    if fs == [] then multiset{} else Overwritten(o, KindOf(c, fs[0])) + Lost(c, fs[1..], Step(c, o, fs[0]))
  }

  lemma SnocCount(fs: seq<string>, p: string, x: string)
    ensures p != "" ==> multiset(fs + [p])[x] == multiset(fs)[x] + AsBag(p)[x]
  {
  }

  lemma PutRest(o: Scan, k: Kind, p: string, x: string)
    requires k != Ignore && (k == Nothing <==> p == "")
    ensures RestCount(Put(o, k, p), x) + Overwritten(o, k)[x] == RestCount(o, x) + AsBag(p)[x]
  {
    match k
    case Nothing =>
    case Tag => SnocCount(o.tags, p, x);
    case Mac => SnocCount(o.mac, p, x);
    case Addr =>
    case LeaseShaped =>
    case Name => if o.hostname != "" { SnocCount(o.extra, p, x); }
  }

  lemma PutCount(o: Scan, k: Kind, p: string, x: string)
    requires k != Ignore && (k == Nothing <==> p == "")
    ensures Count(Put(o, k, p), x) + Overwritten(o, k)[x] == Count(o, x) + AsBag(p)[x]
  {
    PutRest(o, k, p, x);
    assert Put(o, k, p).ignored == o.ignored;
  }

  lemma IgnoreCount(o: Scan, x: string)
    ensures Count(Put(o, Ignore, "ignore"), x) + Overwritten(o, Ignore)[x] == Count(o, x) + AsBag(IgnoreText(true))[x]
  {
  }

  lemma KindIgnore(c: Classes, p: string)
    ensures KindOf(c, p) == Ignore ==> p == "ignore"
    ensures KindOf(c, p) == Nothing <==> p == ""
  {
  }

  lemma NonEmptyCount(fs: seq<string>, x: string)
    requires fs != []
    ensures multiset(NonEmpty(fs))[x] == AsBag(fs[0])[x] + multiset(NonEmpty(fs[1..]))[x]
  {
  }

  lemma StepCount(c: Classes, o: Scan, p: string, x: string)
    ensures Count(Step(c, o, p), x) + Overwritten(o, KindOf(c, p))[x] == Count(o, x) + AsBag(p)[x]
  {
    KindIgnore(c, p);
    if KindOf(c, p) == Ignore {
      IgnoreCount(o, x);
    } else {
      PutCount(o, KindOf(c, p), p, x);
    }
  }

  lemma {:induction false} FoldCount(c: Classes, fs: seq<string>, o: Scan, x: string)
    ensures Count(Fold(c, fs, o), x) + Lost(c, fs, o)[x] == Count(o, x) + multiset(NonEmpty(fs))[x]
    decreases |fs|
  {
    if fs != [] {
      StepCount(c, o, fs[0], x);
      FoldCount(c, fs[1..], Step(c, o, fs[0]), x);
      NonEmptyCount(fs, x);
    }
  }

  lemma OneCount(s: string, rest: seq<string>, x: string)
    ensures multiset(One(s) + rest)[x] == AsBag(s)[x] + multiset(rest)[x]
  {
  }

  lemma ListCount(fs: seq<string>, rest: seq<string>, x: string)
    ensures multiset(fs + rest)[x] == multiset(fs)[x] + multiset(rest)[x]
  {
  }

  lemma OutCount(o: Scan, x: string)
    ensures multiset(Out(o))[x] == Count(o, x)
  {
    var r5 := One(IgnoreText(o.ignored)) + o.extra;
    var r4 := One(o.lease) + r5;
    var r3 := One(o.hostname) + r4;
    var r2 := One(o.ip) + r3;
    OneCount(IgnoreText(o.ignored), o.extra, x);
    OneCount(o.lease, r5, x);
    OneCount(o.hostname, r4, x);
    OneCount(o.ip, r3, x);
    ListCount(o.tags, r2, x);
    ListCount(o.mac, o.tags + r2, x);
  }

  // What is built, together with what was overwritten, is what was there.
  lemma OutAndLost(c: Classes, fs: seq<string>)
    ensures multiset(Out(Fold(c, fs, BLANK))) + Lost(c, fs, BLANK) == multiset(NonEmpty(fs))
  {
    forall x
      ensures (multiset(Out(Fold(c, fs, BLANK))) + Lost(c, fs, BLANK))[x] == multiset(NonEmpty(fs))[x]
    {
      FoldCount(c, fs, BLANK, x);
      OutCount(Fold(c, fs, BLANK), x);
    }
  }

  function CountKind(c: Classes, fs: seq<string>, k: Kind): nat {
    if fs == [] then 0 else (if KindOf(c, fs[0]) == k then 1 else 0) + CountKind(c, fs[1..], k)
  }

  // Lease-shaped fields behind the one that became the host name.
  function LateLeases(c: Classes, fs: seq<string>, named: bool): nat {
    if fs == [] then 0
    else
      var k := KindOf(c, fs[0]);
      (if k == LeaseShaped && named then 1 else 0) + LateLeases(c, fs[1..], named || k == LeaseShaped || k == Name)
  }

  predicate Room(n: nat, taken: bool) { if taken then n == 0 else n <= 1 }

  // Room for the fields to come in the single-valued boxes.
  predicate RoomFor(c: Classes, fs: seq<string>, o: Scan) {
    && Room(CountKind(c, fs, Addr), o.ip != "")
    && Room(CountKind(c, fs, Ignore), o.ignored)
    && Room(LateLeases(c, fs, o.hostname != ""), o.lease != "")
  }

  predicate Overwrites(o: Scan, k: Kind) {
    (k == Addr && o.ip != "") || (k == Ignore && o.ignored)
    || (k == LeaseShaped && o.hostname != "" && o.lease != "")
  }

  lemma RoomStep(c: Classes, fs: seq<string>, o: Scan)
    requires fs != [] && (o.hostname == "" ==> o.lease == "")
    ensures RoomFor(c, fs, o) <==> !Overwrites(o, KindOf(c, fs[0])) && RoomFor(c, fs[1..], Step(c, o, fs[0]))
  {
    KindIgnore(c, fs[0]);
  }

  // Nothing is lost exactly when no single-valued box is filled twice.
  lemma {:induction false} LostExactly(c: Classes, fs: seq<string>, o: Scan)
    requires o.hostname == "" ==> o.lease == ""
    ensures Lost(c, fs, o) == multiset{} <==> RoomFor(c, fs, o)
    decreases |fs|
  {
    if fs != [] {
      RoomStep(c, fs, o);
      KindBlank(c, fs[0]);
      LostExactly(c, fs[1..], Step(c, o, fs[0]));
      EmptySum(Overwritten(o, KindOf(c, fs[0])), Lost(c, fs[1..], Step(c, o, fs[0])));
      BoxTaken(o, KindOf(c, fs[0]));
    }
  }

  lemma EmptySum(a: multiset<string>, b: multiset<string>)
    ensures a + b == multiset{} <==> a == multiset{} && b == multiset{}
  {
    if a + b == multiset{} {
      forall x
        ensures a[x] == 0 && b[x] == 0
      {
        assert (a + b)[x] == 0;
      }
    }
  }

  lemma BoxTaken(o: Scan, k: Kind)
    ensures Overwritten(o, k) == multiset{} <==> !Overwrites(o, k)
  {
    assert o.ip != "" ==> AsBag(o.ip)[o.ip] == 1;
    assert o.lease != "" ==> AsBag(o.lease)[o.lease] == 1;
    assert AsBag("ignore")["ignore"] == 1;
  }

  // Rebuilding keeps exactly the non-empty fields if and only if there is at
  // most one address, at most one lease time after the host name and at most
  // one `ignore`.
  lemma HostKeepsFieldsExactly(c: Classes, v: string)
    requires Balanced(v) && Rebuilt(c, v).Some?
    ensures multiset(Cells(Rebuilt(c, v).value)) == multiset(Cells(v)) <==>
            && CountKind(c, SplitCSV(v), Addr) <= 1
            && CountKind(c, SplitCSV(v), Ignore) <= 1
            && LateLeases(c, SplitCSV(v), false) <= 1
  {
    HostIsCanonical(c, v);
    OutAndLost(c, SplitCSV(v));
    LostExactly(c, SplitCSV(v), BLANK);
    SameAfter(multiset(Out(Scanned(c, v))), Lost(c, SplitCSV(v), BLANK), multiset(Cells(v)));
  }

  // A host with an IPv4 and an IPv6 address: the form keeps only the second.
  lemma SecondAddressOverwrites(c: Classes)
    requires c.ip4("10.0.0.1") && !c.mac("10.0.0.1") && !c.mac("[fd00::1]")
    requires !c.mac("nas") && !c.ip4("nas") && !c.lease("nas")
    ensures Rebuilt(c, "nas,10.0.0.1,[fd00::1]") == Some("[fd00::1],nas")
  {
    TheFields();
    TheValues();
    NasIsName(c, "nas");
    IsAddr(c, "10.0.0.1");
    IsAddr(c, "[fd00::1]");
    LastAddressWins(c, "nas", "10.0.0.1", "[fd00::1]");
  }

  lemma TheFields()
    ensures Cell("nas") && Cell("10.0.0.1") && Cell("[fd00::1]") && Bracketed("[fd00::1]")
  {
    NamePlain();
    PlainIsCell("nas");
    Address4Plain();
    PlainIsCell("10.0.0.1");
    Address6Plain();
    PlainIsCell("[fd00::1]");
  }

  lemma NamePlain()
    ensures Plain("nas")
  {
  }

  lemma Address4Plain()
    ensures Plain("10.0.0.1")
  {
  }

  lemma Address6Plain()
    ensures Plain("[fd00::1]") && Bracketed("[fd00::1]")
  {
  }

  predicate Plain(f: string) { ',' !in f && '"' !in f && Trimmed(Js, f) }

  lemma TheValues()
    ensures "nas" + "," + ("10.0.0.1" + "," + "[fd00::1]") == "nas,10.0.0.1,[fd00::1]"
    ensures "[fd00::1]" + "," + "nas" == "[fd00::1],nas"
  {
  }

  lemma NasIsName(c: Classes, p: string)
    requires p == "nas" && !c.mac(p) && !c.ip4(p) && !c.lease(p)
    ensures KindOf(c, p) == Name
  {
    StartsOtherwise(p, "set:");
    StartsOtherwise(p, "tag:");
    StartsOtherwise(p, "id:");
    assert p != "ignore";
  }

  lemma IsAddr(c: Classes, p: string)
    requires p != "" && p[0] != 'i' && p[0] != 's' && p[0] != 't' && !c.mac(p) && (c.ip4(p) || Bracketed(p))
    ensures KindOf(c, p) == Addr
  {
    StartsOtherwise(p, "set:");
    StartsOtherwise(p, "tag:");
    StartsOtherwise(p, "id:");
  }

  lemma StartsOtherwise(p: string, q: string)
    requires p != "" && q != "" && p[0] != q[0]
    ensures !HasPrefix(p, q)
  {
    assert |q| <= |p| ==> p[..|q|][0] == p[0];
  }

  lemma LastAddressWins(c: Classes, name: string, a: string, b: string)
    requires KindOf(c, name) == Name && KindOf(c, a) == Addr && KindOf(c, b) == Addr
    requires Cell(name) && Cell(a) && Cell(b)
    ensures Rebuilt(c, name + "," + (a + "," + b)) == Some(b + "," + name)
  {
    ThreeFields(name, a, b);
    ScanOfThree(c, name, a, b);
    CellsOfCell("");
    TrimIdempotent(Js, name);
    BuiltFromTwo(b, name);
  }

  lemma ScanOfThree(c: Classes, name: string, a: string, b: string)
    requires KindOf(c, name) == Name && KindOf(c, a) == Addr && KindOf(c, b) == Addr
    ensures Fold(c, [name, a, b], BLANK) == BLANK.(hostname := name, ip := b)
  {
    var fs := [name, a, b];
    FoldStep(c, fs, 0, BLANK);
    FoldStep(c, fs, 1, BLANK.(hostname := name));
    FoldStep(c, fs, 2, BLANK.(hostname := name, ip := a));
    assert fs[0..] == fs && fs[3..] == [];
  }

  lemma ThreeFields(x: string, y: string, z: string)
    requires Cell(x) && Cell(y) && Cell(z)
    ensures SplitCSV(x + "," + (y + "," + z)) == [x, y, z]
  {
    var fs := [x, y, z];
    assert AllCells(fs);
    CellsMayBeOpen(fs);
    SplitJoin(fs, ",");
    assert fs[1..] == [y, z] && [y, z][1..] == [z];
    assert Join([y, z], ",") == y + "," + Join([z], ",");
    assert Join(fs, ",") == x + "," + Join([y, z], ",");
  }

  lemma {:induction false} NoQuotesClosed(f: string, open: bool)
    requires '"' !in f
    ensures Open(f, open) == open
  {
    if f != "" {
      NoQuotesClosed(f[1..], open);
    }
  }

  lemma {:induction false} NoCommaOneField(f: string, open: bool)
    requires ',' !in f
    ensures OneField(f, open)
  {
    if f != "" {
      NoCommaOneField(f[1..], if f[0] == '"' then !open else open);
    }
  }

  lemma PlainIsCell(f: string)
    requires Plain(f)
    ensures Cell(f)
  {
    NoQuotesClosed(f, false);
    NoCommaOneField(f, false);
  }

  lemma BuiltFromTwo(x: string, y: string)
    requires x != "" && y != ""
    ensures JoinCSV([] + [] + [x, y, "", IgnoreText(false)] + []) == x + "," + y
  {
    var fs := [x] + ([y] + ["", ""]);
    assert [] + [] + [x, y, "", IgnoreText(false)] + [] == fs;
    assert [""] + [""] == ["", ""] && [""] + [] == [""];
    NonEmptyCons("", []);
    NonEmptyCons("", [""]);
    NonEmptyCons(y, ["", ""]);
    NonEmptyCons(x, [y] + ["", ""]);
    assert NonEmpty(fs) == [x] + ([y] + []) == [x, y];
    assert [x, y][1..] == [y];
    assert Join([x, y], ",") == x + "," + Join([y], ",");
  }

  lemma SameAfter(a: multiset<string>, lost: multiset<string>, all: multiset<string>)
    requires a + lost == all
    ensures a == all <==> lost == multiset{}
  {
    if a == all {
      forall x
        ensures lost[x] == 0
      {
        assert (a + lost)[x] == a[x] + lost[x];
      }
    }
  }
}
