// The dhcp-range composer: an order-dependent classifier that must not lose
// a field, whatever the fields look like.
module DhcpRange {
  import opened Text
  import opened Filtering
  import opened Csv
  import opened Composers

  datatype Scan = Scan(start: string, end: string, netmask: string, broadcast: string, lease: string,
                       modes: seq<string>, left: seq<string>)

  datatype Form = Form(tags: string, start: string, end: string, netmask: string, broadcast: string, lease: string,
                       extra: seq<string>)

  predicate IsMode(p: string) {
    p in ["static", "proxy", "ra-only", "slaac", "ra-names", "ra-stateless", "ra-advrouter", "off-link"]
  }

  predicate IsStart(c: Classes, p: string) {
    c.ip4(p) || c.ip6(p) || HasPrefix(p, "constructor:")
  }

  // A bare number after an IPv6 start is a prefix length, not a lease time.
  predicate IsPrefixLen(c: Classes, o: Scan, p: string) {
    Digits(p) && Number(p) <= 128 && o.netmask == "" && (c.ip6(o.start) || HasPrefix(o.start, "constructor:"))
  }

  // Where a field goes, given what the scan has found so far.
  datatype Slot = Skip | Start | Mode | Lease | Netmask | End | Broadcast | Leftover

  function SlotOf(c: Classes, o: Scan, p: string): Slot {
    if p == "" then Skip
    else if o.start == "" && IsStart(c, p) then Start
    else if IsMode(p) then Mode
    else if c.lease(p) && o.lease == "" && (o.start != "" || o.end != "") then
      (if IsPrefixLen(c, o, p) then Netmask else Lease)
    else if o.end == "" && (c.ip4(p) || c.ip6(p)) then End
    else if o.netmask == "" && c.ip4(p) then Netmask
    else if o.broadcast == "" && c.ip4(p) then Broadcast
    else Leftover
  }

  function Put(o: Scan, slot: Slot, p: string): Scan {
    match slot
    case Skip => o
    case Start => o.(start := p)
    case Mode => o.(modes := o.modes + [p])
    case Lease => o.(lease := p)
    case Netmask => o.(netmask := p)
    case End => o.(end := p)
    case Broadcast => o.(broadcast := p)
    case Leftover => o.(left := o.left + [p])
  }

  function Step(c: Classes, o: Scan, p: string): Scan { Put(o, SlotOf(c, o, p), p) }

  function Fold(c: Classes, fs: seq<string>, o: Scan): Scan
    decreases |fs|
  {
    if fs == [] then o else Fold(c, fs[1..], Step(c, o, fs[0]))
  }

  const BLANK := Scan("", "", "", "", "", [], [])

  function Tags(v: string): seq<string> { Pick(SplitCSV(v), IsTagOrSet()) }

  function Scanned(c: Classes, v: string): Scan { Fold(c, Drop(SplitCSV(v), IsTagOrSet()), BLANK) }

  function EndBox(o: Scan): string {
    if o.modes == [] then o.end
    else if o.end != "" then o.end + "," + Join(o.modes, ",")
    else Join(o.modes, ",")
  }

  function Boxes(tags: seq<string>, o: Scan): Form {
    Form(Join(tags, ", "), o.start, EndBox(o), o.netmask, o.broadcast, o.lease, o.left)
  }

  method TakeTags(parts: seq<string>) returns (tags: seq<string>, rest: seq<string>)
    ensures tags == Pick(parts, IsTagOrSet()) && rest == Drop(parts, IsTagOrSet())
  {
    tags, rest := [], [];
    var i := 0;
    while i < |parts|
      invariant 0 <= i <= |parts|
      invariant tags == Pick(parts[..i], IsTagOrSet()) && rest == Drop(parts[..i], IsTagOrSet())
    {
      var p := parts[i];
      Filtering.Snoc(parts, i);
      PickSnoc(parts[..i], p, IsTagOrSet());
      DropSnoc(parts[..i], p, IsTagOrSet());
      if HasPrefix(p, "tag:") || HasPrefix(p, "set:") {
        tags := tags + [p];
      } else {
        rest := rest + [p];
      }
      i := i + 1;
    }
    assert parts[..i] == parts;
  }

  method Place(c: Classes, o: Scan, p: string) returns (r: Scan)
    ensures r == Step(c, o, p)
  {
    if p == "" {
      return o;
    }
    if o.start == "" && (c.ip4(p) || c.ip6(p) || HasPrefix(p, "constructor:")) {
      return o.(start := p);
    }
    if IsMode(p) {
      return o.(modes := o.modes + [p]);
    }
    if c.lease(p) && o.lease == "" && (o.start != "" || o.end != "") {
      if IsPrefixLen(c, o, p) {
        return o.(netmask := p);
      }
      return o.(lease := p);
    }
    if o.end == "" && (c.ip4(p) || c.ip6(p)) {
      return o.(end := p);
    }
    if o.netmask == "" && c.ip4(p) {
      return o.(netmask := p);
    }
    if o.broadcast == "" && c.ip4(p) {
      return o.(broadcast := p);
    }
    return o.(left := o.left + [p]);
  }

  method Parse(c: Classes, v: string) returns (form: Form)
    ensures form == Boxes(Tags(v), Scanned(c, v))
  {
    var parts := SplitLoop(v);
    var tags, rest := TakeTags(parts);
    var o := Classify(c, rest);
    form := Boxes(tags, o);
  }

  method Classify(c: Classes, rest: seq<string>) returns (o: Scan)
    ensures o == Fold(c, rest, BLANK)
  {
    o := BLANK;
    var i := 0;
    assert rest[0..] == rest;
    while i < |rest|
      invariant 0 <= i <= |rest|
      invariant Fold(c, rest[i..], o) == Fold(c, rest, BLANK)
    {
      FoldStep(c, rest, i, o);
      o := Place(c, o, rest[i]);
      i := i + 1;
    }
  }

  lemma FoldStep(c: Classes, fs: seq<string>, i: nat, o: Scan)
    requires i < |fs|
    ensures Fold(c, fs[i..], o) == Fold(c, fs[i + 1..], Step(c, o, fs[i]))
  {
    assert fs[i..][1..] == fs[i + 1..];
  }

  predicate AllTags(tags: seq<string>) {
    forall i :: 0 <= i < |tags| ==> IsTagOrSet()(tags[i])
  }

  function Build(f: Form): Option<string> {
    BuildFrom(Cells(f.tags), Trim(Js, f.start), f)
  }

  function BuildFrom(tags: seq<string>, start: string, f: Form): Option<string> {
    if start == "" || !AllTags(tags) then None
    else Some(JoinCSV(tags + ([start, f.end, f.netmask, f.broadcast, f.lease] + f.extra)))
  }

  function Rebuilt(c: Classes, v: string): Option<string> { Build(Boxes(Tags(v), Scanned(c, v))) }

  // ---- no field is lost --------------------------------------------------

  // Everything a scan has collected.
  function Bag(o: Scan): multiset<string> {
    AsBag(o.start) + AsBag(o.end) + AsBag(o.netmask) + AsBag(o.broadcast) + AsBag(o.lease)
    + multiset(o.modes) + multiset(o.left)
  }

  predicate ScanOk(o: Scan) {
    && Cell(o.start) && Cell(o.end) && Cell(o.netmask) && Cell(o.broadcast) && Cell(o.lease)
    && AllCells(o.modes) && AllCells(o.left) && NoBlanks(o.modes) && NoBlanks(o.left)
  }

  predicate Free(o: Scan, slot: Slot) {
    match slot
    case Start => o.start == ""
    case Lease => o.lease == ""
    case Netmask => o.netmask == ""
    case End => o.end == ""
    case Broadcast => o.broadcast == ""
    case _ => true
  }

  // Nothing is ever put where something already is.
  lemma SlotIsFree(c: Classes, o: Scan, p: string)
    ensures Free(o, SlotOf(c, o, p))
    ensures SlotOf(c, o, p) == Skip <==> p == ""
    ensures p != "" && o.start == "" ==> (SlotOf(c, o, p) == Start <==> IsStart(c, p))
    ensures o.start != "" ==> SlotOf(c, o, p) != Start
  {
  }

  lemma PutOk(o: Scan, slot: Slot, p: string)
    requires ScanOk(o) && Cell(p) && (slot == Skip <==> p == "")
    ensures ScanOk(Put(o, slot, p))
  {
    if slot.Mode? {
      Snoc2(o.modes, p);
    } else if slot.Leftover? {
      Snoc2(o.left, p);
    }
  }

  lemma PutBag(o: Scan, slot: Slot, p: string)
    requires Free(o, slot) && (slot == Skip <==> p == "")
    ensures Bag(Put(o, slot, p)) == Bag(o) + AsBag(p)
  {
  }

  lemma StepKeeps(c: Classes, o: Scan, p: string)
    requires ScanOk(o) && Cell(p)
    ensures ScanOk(Step(c, o, p))
  {
    SlotIsFree(c, o, p);
    PutOk(o, SlotOf(c, o, p), p);
  }

  lemma StepCollects(c: Classes, o: Scan, p: string)
    ensures Bag(Step(c, o, p)) == Bag(o) + AsBag(p)
    ensures Step(c, o, p).start != "" <==> o.start != "" || (p != "" && IsStart(c, p))
  {
    SlotIsFree(c, o, p);
    PutBag(o, SlotOf(c, o, p), p);
  }

  predicate AnyStart(c: Classes, fs: seq<string>) {
    exists i :: 0 <= i < |fs| && fs[i] != "" && IsStart(c, fs[i])
  }

  lemma AnyStartCons(c: Classes, f: string, fs: seq<string>)
    ensures AnyStart(c, [f] + fs) <==> (f != "" && IsStart(c, f)) || AnyStart(c, fs)
  {
    if f != "" && IsStart(c, f) {
      assert ([f] + fs)[0] == f;
    }
    if AnyStart(c, fs) {
      var i :| 0 <= i < |fs| && fs[i] != "" && IsStart(c, fs[i]);
      assert ([f] + fs)[i + 1] == fs[i];
    }
  }

  lemma {:induction false} FoldOk(c: Classes, fs: seq<string>, o: Scan)
    requires ScanOk(o) && AllCells(fs)
    ensures ScanOk(Fold(c, fs, o))
    decreases |fs|
  {
    if fs != [] {
      Csv.Uncons(fs);
      AllCellsCons(fs[0], fs[1..]);
      StepKeeps(c, o, fs[0]);
      FoldOk(c, fs[1..], Step(c, o, fs[0]));
    }
  }

  lemma NonEmptyBag(fs: seq<string>)
    requires fs != []
    ensures multiset(NonEmpty(fs)) == AsBag(fs[0]) + multiset(NonEmpty(fs[1..]))
  {
  }

  lemma {:induction false} FoldBag(c: Classes, fs: seq<string>, o: Scan)
    ensures Bag(Fold(c, fs, o)) == Bag(o) + multiset(NonEmpty(fs))
    ensures Fold(c, fs, o).start != "" <==> o.start != "" || AnyStart(c, fs)
    decreases |fs|
  {
    if fs != [] {
      Csv.Uncons(fs);
      AnyStartCons(c, fs[0], fs[1..]);
      StepCollects(c, o, fs[0]);
      FoldBag(c, fs[1..], Step(c, o, fs[0]));
      NonEmptyBag(fs);
    }
  }

  // Setting the tags aside keeps every non-empty field.
  lemma {:induction false} TagsAside(fs: seq<string>)
    ensures multiset(NonEmpty(fs)) ==
            multiset(Pick(fs, IsTagOrSet())) + multiset(NonEmpty(Drop(fs, IsTagOrSet())))
  {
    if fs != [] {
      TagsAside(fs[1..]);
      NonEmptyCons(fs[0], NonEmpty(fs[1..]));
      NonEmptyCons(fs[0], Drop(fs[1..], IsTagOrSet()));
    }
  }

  lemma {:induction false} TagsAreTags(fs: seq<string>)
    requires AllCells(fs)
    ensures AllCells(Pick(fs, IsTagOrSet())) && AllCells(Drop(fs, IsTagOrSet()))
    ensures AllTags(Pick(fs, IsTagOrSet()))
  {
    if fs != [] {
      Csv.Uncons(fs);
      AllCellsCons(fs[0], fs[1..]);
      TagsAreTags(fs[1..]);
      AllCellsCons(fs[0], Pick(fs[1..], IsTagOrSet()));
      AllCellsCons(fs[0], Drop(fs[1..], IsTagOrSet()));
    }
  }

  lemma TagsNotBlank(tags: seq<string>)
    requires AllTags(tags)
    ensures NoBlanks(tags)
  {
    assert forall i :: 0 <= i < |tags| ==> IsTagOrSet()(tags[i]);
  }

  lemma EndBoxCells(o: Scan)
    requires ScanOk(o)
    ensures Balanced(EndBox(o))
    ensures multiset(Cells(EndBox(o))) == AsBag(o.end) + multiset(o.modes)
  {
    CellsOfCell(o.end);
    if o.modes != [] {
      var modes := Join(o.modes, ",");
      ListBox(o.modes, ",");
      NonEmptyAll(o.modes);
      if o.end != "" {
        CellsConcat(o.end, modes);
        BalancedJoin(o.end, ",", modes);
      }
    }
  }

  lemma CellBag(f: string)
    requires Cell(f)
    ensures multiset(Cells(f)) == AsBag(f)
  {
    CellsOfCell(f);
  }

  lemma FirstPiece(p: string, ps: seq<string>)
    requires Balanced(p) && AllBalanced(ps)
    ensures AllBalanced([p] + ps)
    ensures multiset(CellsOfAll([p] + ps)) == multiset(Cells(p)) + multiset(CellsOfAll(ps))
  {
    AllBalancedCons(p, ps);
    CellsOfAllCons(p, ps);
  }

  function Pieces(o: Scan): seq<string> {
    [o.start] + ([EndBox(o)] + ([o.netmask] + ([o.broadcast] + ([o.lease] + o.left))))
  }

  lemma PiecesBag(o: Scan)
    requires ScanOk(o)
    ensures AllBalanced(Pieces(o)) && multiset(CellsOfAll(Pieces(o))) == Bag(o)
  {
    EndBoxCells(o);
    CellsOfCells(o.left);
    NonEmptyAll(o.left);
    CellBag(o.lease);
    CellBag(o.broadcast);
    CellBag(o.netmask);
    CellBag(o.start);
    var p5 := [o.lease] + o.left;
    FirstPiece(o.lease, o.left);
    var p4 := [o.broadcast] + p5;
    FirstPiece(o.broadcast, p5);
    var p3 := [o.netmask] + p4;
    FirstPiece(o.netmask, p4);
    FirstPiece(EndBox(o), p3);
    FirstPiece(o.start, [EndBox(o)] + p3);
  }

  lemma BuiltBag(tags: seq<string>, o: Scan)
    requires ScanOk(o) && AllCells(tags) && NoBlanks(tags) && AllTags(tags)
    ensures Build(Boxes(tags, o)).Some? <==> o.start != ""
    ensures o.start != "" ==> multiset(Cells(Build(Boxes(tags, o)).value)) == multiset(tags) + Bag(o)
  {
    ListBox(tags, ", ");
    NonEmptyAll(tags);
    TrimIdempotent(Js, o.start);
    if o.start != "" {
      BuiltText(tags, o);
      PiecesBag(o);
      TagPieces(tags);
      WithTags(tags, Pieces(o));
    }
  }

  lemma BuiltText(tags: seq<string>, o: Scan)
    requires Cells(Join(tags, ", ")) == tags && AllTags(tags) && Trim(Js, o.start) == o.start != ""
    ensures Build(Boxes(tags, o)) == Some(JoinCSV(tags + Pieces(o)))
  {
    PiecesFlat(o.start, EndBox(o), o.netmask, o.broadcast, o.lease, o.left);
  }

  lemma PiecesFlat(a: string, b: string, c: string, d: string, e: string, rest: seq<string>)
    ensures [a, b, c, d, e] + rest == [a] + ([b] + ([c] + ([d] + ([e] + rest))))
  {
  }

  lemma TagsAndRest(v: string)
    ensures multiset(Tags(v)) + multiset(NonEmpty(Drop(SplitCSV(v), IsTagOrSet()))) == multiset(Cells(v))
  {
    TagsAside(SplitCSV(v));
  }

  lemma BlankOk()
    ensures ScanOk(BLANK) && Bag(BLANK) == multiset{} && BLANK.start == ""
  {
    assert Cell("");
  }

  // A value with a recognisable start can be rebuilt, and then holds exactly
  // the non-empty fields it held before.
  lemma RangeKeepsEveryField(c: Classes, v: string)
    requires Balanced(v)
    ensures Rebuilt(c, v).Some? <==> AnyStart(c, Drop(SplitCSV(v), IsTagOrSet()))
    ensures Rebuilt(c, v).Some? ==> multiset(Cells(Rebuilt(c, v).value)) == multiset(Cells(v))
  {
    ScannedFacts(c, v);
    BuiltBag(Tags(v), Scanned(c, v));
  }

  lemma ScannedFacts(c: Classes, v: string)
    requires Balanced(v)
    ensures ScanOk(Scanned(c, v)) && AllCells(Tags(v)) && NoBlanks(Tags(v)) && AllTags(Tags(v))
    ensures multiset(Tags(v)) + Bag(Scanned(c, v)) == multiset(Cells(v))
    ensures Scanned(c, v).start != "" <==> AnyStart(c, Drop(SplitCSV(v), IsTagOrSet()))
  {
    SplitShape(v);
    TagsAreTags(SplitCSV(v));
    TagsNotBlank(Tags(v));
    BlankOk();
    FoldOk(c, Drop(SplitCSV(v), IsTagOrSet()), BLANK);
    FoldBag(c, Drop(SplitCSV(v), IsTagOrSet()), BLANK);
    TagsAndRest(v);
  }
}
