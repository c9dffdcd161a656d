// The form composers: a directive's value is parsed into the boxes of a form
// and built again from them. The regular expressions that classify fields
// are a parameter, so what is proved holds for any classification.
module Composers {
  import opened Text
  import opened Filtering
  import opened Csv

  datatype Classes = Classes(ip4: string -> bool, ip6: string -> bool, mac: string -> bool, lease: string -> bool)

  predicate Digits(s: string) {
    s != "" && forall i :: 0 <= i < |s| ==> '0' <= s[i] <= '9'
  }

  function Number(s: string): nat
    requires Digits(s)
  {
    var d := s[|s| - 1] as int - '0' as int;
    if |s| == 1 then d else 10 * Number(s[..|s| - 1]) + d
  }

  // The field as a multiset; a blank one is none.
  function AsBag(s: string): multiset<string> { if s == "" then multiset{} else multiset{s} }

  function IsTag(): string -> bool {
    (p: string) => HasPrefix(p, "tag:")
  }

  function IsTagOrSet(): string -> bool {
    (p: string) => HasPrefix(p, "tag:") || HasPrefix(p, "set:")
  }

  // ---- cname -------------------------------------------------------------

  datatype CnameForm = CnameForm(aliases: string, target: string, ttl: string)

  // The last field, blank when there is none.
  function Last(fs: seq<string>): string { if fs == [] then "" else fs[|fs| - 1] }

  function Front(fs: seq<string>): seq<string> { if fs == [] then [] else fs[..|fs| - 1] }

  function ParseCname(v: string): CnameForm { CnameBoxes(Cells(v)) }

  function CnameBoxes(parts: seq<string>): CnameForm {
    var hasTtl := |parts| > 2 && Digits(Last(parts));
    var rest := if hasTtl then Front(parts) else parts;
    CnameForm(Join(Front(rest), ", "), Last(rest), if hasTtl then Last(parts) else "")
  }

  function BuildCname(o: CnameForm): Option<string> {
    CnameFrom(Cells(o.aliases), Trim(Js, o.target), o.ttl)
  }

  function CnameFrom(aliases: seq<string>, target: string, ttl: string): Option<string> {
    if aliases == [] || target == "" then None else Some(JoinCSV(aliases + [target, ttl]))
  }

  lemma CellsAreCells(v: string)
    requires Balanced(v)
    ensures AllCells(Cells(v)) && NoBlanks(Cells(v)) && NonEmpty(Cells(v)) == Cells(v)
  {
    SplitShape(v);
    NonEmptyAll(SplitCSV(v));
  }

  lemma SubCells(fs: seq<string>, k: nat)
    requires AllCells(fs) && NoBlanks(fs) && k <= |fs|
    ensures AllCells(fs[..k]) && NoBlanks(fs[..k]) && NonEmpty(fs[..k]) == fs[..k]
  {
    NonEmptyAll(fs[..k]);
  }

  // The directive survives as long as there is an alias and a target: every
  // field in its place, a trailing TTL included.
  lemma CnameKeepsOrder(v: string)
    requires Balanced(v)
    ensures BuildCname(ParseCname(v)).Some? <==> |Cells(v)| >= 2
    ensures |Cells(v)| >= 2 ==> BuildCname(ParseCname(v)) == Some(Join(Cells(v), ","))
    ensures Cells(Join(Cells(v), ",")) == Cells(v)
  {
    CellsAreCells(v);
    CnameBuilt(Cells(v));
    ListBox(Cells(v), ",");
  }

  lemma CnameBuilt(parts: seq<string>)
    requires AllCells(parts) && NoBlanks(parts)
    ensures BuildCname(CnameBoxes(parts)).Some? <==> |parts| >= 2
    ensures |parts| >= 2 ==> BuildCname(CnameBoxes(parts)) == Some(Join(parts, ","))
  {
    var hasTtl := |parts| > 2 && Digits(Last(parts));
    var n := if hasTtl then |parts| - 1 else |parts|;
    if n == 0 {
      CellsOfCell("");
    } else {
      CnameForms(parts, hasTtl, n);
      CnameReads(parts, n);
      CnameRebuilt(parts, n, CnameBoxes(parts));
    }
  }

  lemma CnameRebuilt(parts: seq<string>, n: nat, form: CnameForm)
    requires 1 <= n <= |parts| <= n + 1 && NoBlanks(parts)
    requires Cells(form.aliases) == parts[..n - 1] && Trim(Js, form.target) == parts[n - 1]
    requires form.ttl == if n < |parts| then parts[n] else ""
    ensures BuildCname(form) == if n == 1 then None else Some(Join(parts, ","))
  {
    CnameWrites(parts[..n - 1], parts[n - 1], form.ttl);
    CnameSplit(parts, n);
  }

  lemma CnameSplit(parts: seq<string>, n: nat)
    requires 1 <= n <= |parts| <= n + 1
    ensures parts == parts[..n - 1] + [parts[n - 1]] + (if n < |parts| then [parts[n]] else [])
  {
  }

  // The two boxes hold what was put into them.
  lemma CnameReads(parts: seq<string>, n: nat)
    requires AllCells(parts) && NoBlanks(parts) && 1 <= n <= |parts|
    ensures Cells(Join(parts[..n - 1], ", ")) == parts[..n - 1] && Trim(Js, parts[n - 1]) == parts[n - 1]
    ensures NoBlanks(parts[..n - 1])
  {
    SubCells(parts, n - 1);
    ListBox(parts[..n - 1], ", ");
    TrimIdempotent(Js, parts[n - 1]);
  }

  lemma CnameWrites(head: seq<string>, target: string, ttl: string)
    requires NoBlanks(head) && target != ""
    ensures CnameFrom(head, target, ttl) ==
            if head == [] then None else Some(Join(head + [target] + (if ttl == "" then [] else [ttl]), ","))
  {
    CnameRejoins(head, target, ttl);
  }

  lemma CnameForms(parts: seq<string>, hasTtl: bool, n: nat)
    requires hasTtl <==> |parts| > 2 && Digits(Last(parts))
    requires n == (if hasTtl then |parts| - 1 else |parts|) && n >= 1
    ensures CnameBoxes(parts) == CnameForm(Join(parts[..n - 1], ", "), parts[n - 1], if hasTtl then Last(parts) else "")
  {
    var rest := if hasTtl then Front(parts) else parts;
    assert rest == parts[..n] && Front(rest) == parts[..n - 1];
  }

  lemma CnameRejoins(head: seq<string>, target: string, ttl: string)
    requires NoBlanks(head) && target != ""
    ensures NonEmpty(head + [target, ttl]) == head + [target] + (if ttl == "" then [] else [ttl])
  {
    NonEmptyAll(head);
    NonEmptyPair(target, ttl);
    NonEmptyConcat(head, [target, ttl]);
  }

  // ---- dhcp-option -------------------------------------------------------

  datatype OptionForm = OptionForm(tags: string, opt: string, value: string)

  datatype OptionScan = OptionScan(tags: seq<string>, opt: string, value: seq<string>, pre: seq<string>)

  predicate Encapsulated(p: string) {
    HasPrefix(p, "encap:") || HasPrefix(p, "vi-encap:") || HasPrefix(p, "vendor:")
  }

  function OptionStep(o: OptionScan, p: string): OptionScan {
    if HasPrefix(p, "tag:") then o.(tags := o.tags + [p])
    else if Encapsulated(p) && o.opt == "" then o.(pre := o.pre + [p])
    else if o.opt == "" then o.(opt := p)
    else o.(value := o.value + [p])
  }

  function OptionFold(fs: seq<string>, o: OptionScan): OptionScan
    decreases |fs|
  {
    if fs == [] then o else OptionFold(fs[1..], OptionStep(o, fs[0]))
  }

  function ScannedOption(v: string): OptionScan { OptionFold(SplitCSV(v), OptionScan([], "", [], [])) }

  function OptionBoxes(o: OptionScan): OptionForm {
    OptionForm(Join(o.tags, ", "), Join(NonEmpty(o.pre + [o.opt]), ","), Join(o.value, ","))
  }

  method ParseOption(v: string) returns (form: OptionForm)
    ensures form == OptionBoxes(ScannedOption(v))
  {
    var parts := SplitLoop(v);
    var tags, opt, value, pre, i := [], "", [], [], 0;
    while i < |parts|
      invariant 0 <= i <= |parts|
      invariant OptionFold(parts[i..], OptionScan(tags, opt, value, pre)) == ScannedOption(v)
    {
      var p := parts[i];
      assert parts[i..][0] == p && parts[i..][1..] == parts[i + 1..];
      if HasPrefix(p, "tag:") {
        tags := tags + [p];
      } else if Encapsulated(p) && opt == "" {
        pre := pre + [p];
      } else if opt == "" {
        opt := p;
      } else {
        value := value + [p];
      }
      i := i + 1;
    }
    form := OptionBoxes(OptionScan(tags, opt, value, pre));
  }

  function BuildOption(o: OptionForm): Option<string> {
    if Trim(Js, o.opt) == "" then None
    else Some(JoinCSV(Cells(o.tags) + [Trim(Js, o.opt), o.value]))
  }

  // The fields of a scan, in the order in which the form puts them.
  function OptionFields(o: OptionScan): seq<string> {
    NonEmpty(o.pre + [o.opt]) + NonEmpty(o.value)
  }

  predicate OptionScanOk(o: OptionScan) {
    && AllCells(o.tags) && AllCells(o.value) && AllCells(o.pre) && Cell(o.opt)
    && NoBlanks(o.tags) && NoBlanks(o.pre) && (o.opt == "" ==> o.value == [])
  }

  lemma Snoc2(fs: seq<string>, f: string)
    ensures NonEmpty(fs + [f]) == if f == "" then NonEmpty(fs) else NonEmpty(fs) + [f]
    ensures AllCells(fs) && Cell(f) ==> AllCells(fs + [f])
    ensures NoBlanks(fs) && f != "" ==> NoBlanks(fs + [f])
  {
    NonEmptyConcat(fs, [f]);
    NonEmptyCons(f, []);
    assert [f] + [] == [f];
  }

  lemma OptionStepKeeps(o: OptionScan, p: string)
    requires OptionScanOk(o) && Cell(p)
    ensures OptionScanOk(OptionStep(o, p))
    ensures OptionStep(o, p).tags == o.tags + (if p != "" && IsTag()(p) then [p] else [])
    ensures OptionFields(OptionStep(o, p)) == OptionFields(o) + (if p == "" || IsTag()(p) then [] else [p])
  {
    if HasPrefix(p, "tag:") {
      Snoc2(o.tags, p);
    } else if o.opt == "" {
      OptionFieldsOpen(o, p);
    } else {
      Snoc2(o.value, p);
    }
  }

  // While no option has been seen, a field goes behind the prefixes.
  lemma OptionFieldsOpen(o: OptionScan, p: string)
    requires o.opt == "" && o.value == [] && Cell(p) && AllCells(o.pre) && NoBlanks(o.pre)
    ensures OptionFields(o) == o.pre && NoBlanks([]) && AllCells([])
    ensures p != "" ==> OptionFields(o.(opt := p)) == o.pre + [p] && OptionFields(o.(pre := o.pre + [p])) == o.pre + [p]
    ensures p != "" ==> AllCells(o.pre + [p]) && NoBlanks(o.pre + [p])
  {
    NonEmptyAll(o.pre);
    Snoc2(o.pre, "");
    Snoc2(o.pre, p);
    Snoc2(o.pre + [p], "");
    assert o.pre + [] == o.pre && o.pre + [p] + [] == o.pre + [p];
  }

  lemma {:induction false} OptionFoldKeeps(fs: seq<string>, o: OptionScan)
    requires OptionScanOk(o) && AllCells(fs)
    ensures OptionScanOk(OptionFold(fs, o))
    ensures OptionFold(fs, o).tags == o.tags + Pick(NonEmpty(fs), IsTag())
    ensures OptionFields(OptionFold(fs, o)) == OptionFields(o) + Drop(NonEmpty(fs), IsTag())
    decreases |fs|
  {
    if fs == [] {
      EmptyTail(o.tags);
      EmptyTail(OptionFields(o));
    } else {
      var p, next := fs[0], OptionStep(o, fs[0]);
      Csv.Uncons(fs);
      AllCellsCons(p, fs[1..]);
      OptionStepKeeps(o, p);
      OptionFoldKeeps(fs[1..], next);
      TagsFirst(p, fs[1..]);
      ConcatAssoc(o.tags, if p != "" && IsTag()(p) then [p] else [], Pick(NonEmpty(fs[1..]), IsTag()));
      ConcatAssoc(OptionFields(o), if p == "" || IsTag()(p) then [] else [p], Drop(NonEmpty(fs[1..]), IsTag()));
    }
  }

  lemma EmptyTail(a: seq<string>)
    ensures a + [] == a
  {
  }

  lemma TagsFirst(p: string, fs: seq<string>)
    ensures Pick(NonEmpty([p] + fs), IsTag()) ==
            (if p != "" && IsTag()(p) then [p] else []) + Pick(NonEmpty(fs), IsTag())
    ensures Drop(NonEmpty([p] + fs), IsTag()) ==
            (if p == "" || IsTag()(p) then [] else [p]) + Drop(NonEmpty(fs), IsTag())
  {
    NonEmptyCons(p, fs);
    if p != "" {
      assert ([p] + NonEmpty(fs))[1..] == NonEmpty(fs);
    }
  }

  function RebuiltOption(v: string): Option<string> { BuildOption(OptionBoxes(ScannedOption(v))) }

  // Parsing and building sorts the tags to the front and changes nothing
  // else; it is possible exactly when something besides tags is there.
  lemma OptionIsStablePartition(v: string)
    requires Balanced(v)
    ensures RebuiltOption(v).Some? <==> Drop(Cells(v), IsTag()) != []
    ensures RebuiltOption(v).Some? ==>
              Cells(RebuiltOption(v).value) == Pick(Cells(v), IsTag()) + Drop(Cells(v), IsTag())
  {
    OptionScanned(v);
    OptionBuilt(ScannedOption(v));
  }

  lemma OptionScanned(v: string)
    requires Balanced(v)
    ensures OptionScanOk(ScannedOption(v))
    ensures ScannedOption(v).tags == Pick(Cells(v), IsTag())
    ensures OptionFields(ScannedOption(v)) == Drop(Cells(v), IsTag())
  {
    SplitShape(v);
    OptionStarts();
    OptionFoldKeeps(SplitCSV(v), OptionScan([], "", [], []));
  }

  lemma OptionStarts()
    ensures OptionScanOk(OptionScan([], "", [], [])) && OptionFields(OptionScan([], "", [], [])) == []
  {
    assert Cell("");
    OptionFieldsOpen(OptionScan([], "", [], []), "");
  }

  lemma OptionBuilt(o: OptionScan)
    requires OptionScanOk(o)
    ensures var built := BuildOption(OptionBoxes(o));
            && (built.Some? <==> OptionFields(o) != [])
            && (built.Some? ==> Cells(built.value) == o.tags + OptionFields(o))
  {
    var front := NonEmpty(o.pre + [o.opt]);
    var opt, value := Join(front, ","), Join(o.value, ",");
    Snoc2(o.pre, o.opt);
    NonEmptyAll(o.pre + [o.opt]);
    JoinTrimmed(front, ",");
    TrimIdempotent(Js, opt);
    ListBox(o.tags, ", ");
    ListBox(front, ",");
    ListBox(o.value, ",");
    NonEmptyAll(o.tags);
    if front == [] {
      assert o.opt == "" && o.value == [];
    } else {
      ThreePieces(o.tags, opt, value);
    }
  }

  lemma TwoPieces(a: string, b: string)
    ensures CellsOfAll([a, b]) == Cells(a) + Cells(b)
  {
    FlatMapPair(Cells, a, b);
  }

  lemma BalancedPieces(a: seq<string>, b: seq<string>)
    requires AllBalanced(a) && AllBalanced(b)
    ensures AllBalanced(a + b)
  {
  }

  lemma ThreePieces(tags: seq<string>, a: string, b: string)
    requires AllCells(tags) && NoBlanks(tags) && Balanced(a) && Balanced(b)
    ensures Cells(JoinCSV(tags + [a, b])) == tags + (Cells(a) + Cells(b))
  {
    TagPieces(tags);
    BalancedPieces(tags, [a, b]);
    WithTags(tags, [a, b]);
    TwoPieces(a, b);
  }

  lemma TagPieces(tags: seq<string>)
    requires AllCells(tags) && NoBlanks(tags)
    ensures AllBalanced(tags) && CellsOfAll(tags) == tags
  {
    CellsOfCells(tags);
    NonEmptyAll(tags);
  }

  lemma WithTags(tags: seq<string>, ps: seq<string>)
    requires AllBalanced(tags) && CellsOfAll(tags) == tags && AllBalanced(ps)
    ensures Cells(JoinCSV(tags + ps)) == tags + CellsOfAll(ps)
  {
    BalancedPieces(tags, ps);
    CellsOfJoinCSV(tags + ps);
    CellsOfAllConcat(tags, ps);
  }
}
