// Which box of a form holds what, and that a value written in the customary
// order of its fields comes back unchanged.
module Boxes {
  import opened Text
  import opened Filtering
  import opened Csv
  import opened Composers
  import R = DhcpRange
  import H = DhcpHost
  import D = DomainServers

  // ---- fields ------------------------------------------------------------------

  // Fields as a value holds them: not blank, and each one field.
  predicate Plain(fs: seq<string>) { AllCells(fs) && NoBlanks(fs) }

  lemma PlainConcat(a: seq<string>, b: seq<string>)
    requires Plain(a) && Plain(b)
    ensures Plain(a + b)
  {
  }

  lemma PlainSplits(fs: seq<string>)
    requires Plain(fs) && fs != []
    ensures SplitCSV(Join(fs, ",")) == fs && NonEmpty(fs) == fs
    ensures Cells(Join(fs, ",")) == fs
  {
    CellsMayBeOpen(fs);
    SplitJoin(fs, ",");
    NonEmptyAll(fs);
  }

  // ---- dhcp-range ----------------------------------------------------------------

  predicate NoTag(p: string) { !HasPrefix(p, "tag:") && !HasPrefix(p, "set:") }

  predicate TagsOnly(tags: seq<string>) {
    forall i :: 0 <= i < |tags| ==> HasPrefix(tags[i], "tag:") || HasPrefix(tags[i], "set:")
  }

  predicate NoTags(fs: seq<string>) {
    forall i :: 0 <= i < |fs| ==> NoTag(fs[i])
  }

  lemma {:induction false} AllPicked(fs: seq<string>, p: string -> bool)
    requires forall i :: 0 <= i < |fs| ==> p(fs[i])
    ensures Pick(fs, p) == fs && Drop(fs, p) == []
  {
    if fs != [] {
      assert forall i :: 0 <= i < |fs[1..]| ==> fs[1..][i] == fs[i + 1];
      AllPicked(fs[1..], p);
    }
  }

  lemma TagsPart(tags: seq<string>, fs: seq<string>)
    requires TagsOnly(tags) && NoTags(fs)
    ensures Pick(tags + fs, IsTagOrSet()) == tags && Drop(tags + fs, IsTagOrSet()) == fs
  {
    AllPicked(tags, IsTagOrSet());
    NothingPicked(fs, IsTagOrSet());
    Concat(tags, fs, IsTagOrSet());
    assert tags + [] == tags && [] + fs == fs;
  }

  // The value of a range: tags in front, then its fields.
  predicate RangeOf(tags: seq<string>, fs: seq<string>, v: string) {
    TagsOnly(tags) && NoTags(fs) && Plain(tags + fs) && fs != [] && v == Join(tags + fs, ",")
  }

  lemma RangeParts(c: Classes, tags: seq<string>, fs: seq<string>, v: string)
    requires RangeOf(tags, fs, v)
    ensures R.Tags(v) == tags && R.Scanned(c, v) == R.Fold(c, fs, R.BLANK)
  {
    PlainSplits(tags + fs);
    TagsPart(tags, fs);
  }

  predicate Mode(p: string) {
    p in {"static", "proxy", "ra-only", "slaac", "ra-names", "ra-stateless", "ra-advrouter", "off-link"}
  }

  lemma ModesAgree(p: string)
    ensures Mode(p) <==> R.IsMode(p)
  {
    var modes := ["static", "proxy", "ra-only", "slaac", "ra-names", "ra-stateless", "ra-advrouter", "off-link"];
    assert p in modes <==> exists i :: 0 <= i < |modes| && modes[i] == p;
    assert modes[0] == "static" && modes[1] == "proxy" && modes[2] == "ra-only" && modes[3] == "slaac";
    assert modes[4] == "ra-names" && modes[5] == "ra-stateless" && modes[6] == "ra-advrouter" && modes[7] == "off-link";
  }

  // Neither a mode nor a lease time: left to the address boxes.
  predicate JustAddress(c: Classes, p: string) { c.ip4(p) && !Mode(p) && !c.lease(p) }

  // A lease time with a unit, so not mistaken for a prefix length.
  predicate LeaseTime(c: Classes, l: string) {
    c.lease(l) && !Mode(l) && HasUnit(l)
  }

  predicate HasUnit(l: string) { exists i :: 0 <= i < |l| && !('0' <= l[i] <= '9') }

  lemma Fold3(c: Classes, x: string, y: string, z: string, o: R.Scan)
    ensures R.Fold(c, [x, y, z], o) == R.Step(c, R.Step(c, R.Step(c, o, x), y), z)
  {
    var fs := [x, y, z];
    R.FoldStep(c, fs, 0, o);
    R.FoldStep(c, fs, 1, R.Step(c, o, x));
    R.FoldStep(c, fs, 2, R.Step(c, R.Step(c, o, x), y));
    assert fs[0..] == fs && fs[3..] == [];
  }

  lemma Fold4(c: Classes, w: string, x: string, y: string, z: string, o: R.Scan)
    ensures R.Fold(c, [w, x, y, z], o) == R.Step(c, R.Step(c, R.Step(c, R.Step(c, o, w), x), y), z)
  {
    assert [w, x, y, z][1..] == [x, y, z];
    Fold3(c, x, y, z, R.Step(c, o, w));
  }

  lemma Fold5(c: Classes, u: string, w: string, x: string, y: string, z: string, o: R.Scan)
    ensures R.Fold(c, [u, w, x, y, z], o) ==
            R.Step(c, R.Step(c, R.Step(c, R.Step(c, R.Step(c, o, u), w), x), y), z)
  {
    assert [u, w, x, y, z][1..] == [w, x, y, z];
    Fold4(c, w, x, y, z, R.Step(c, o, u));
  }

  lemma AddressStep(c: Classes, o: R.Scan, p: string)
    requires p != "" && JustAddress(c, p) && o.start != ""
    ensures R.Step(c, o, p) ==
            if o.end == "" then o.(end := p)
            else if o.netmask == "" then o.(netmask := p)
            else if o.broadcast == "" then o.(broadcast := p) else o.(left := o.left + [p])
  {
    ModesAgree(p);
  }

  lemma LeaseStep(c: Classes, o: R.Scan, l: string)
    requires l != "" && LeaseTime(c, l) && o.start != "" && o.lease == ""
    ensures R.Step(c, o, l) == o.(lease := l)
  {
    ModesAgree(l);
  }

  // start, end, netmask, lease time: each in its own box.
  lemma RangeBoxes(c: Classes, s: string, e: string, n: string, l: string)
    requires s != "" && e != "" && n != "" && l != ""
    requires c.ip4(s) && JustAddress(c, e) && JustAddress(c, n) && LeaseTime(c, l)
    ensures R.Fold(c, [s, e, n, l], R.BLANK) == R.Scan(s, e, n, "", l, [], [])
  {
    var o := R.BLANK.(start := s);
    Fold4(c, s, e, n, l, R.BLANK);
    AddressStep(c, o, e);
    AddressStep(c, o.(end := e), n);
    LeaseStep(c, o.(end := e, netmask := n), l);
  }

  // The same with a broadcast address.
  lemma BroadcastBoxes(c: Classes, s: string, e: string, n: string, b: string, l: string)
    requires s != "" && e != "" && n != "" && b != "" && l != ""
    requires c.ip4(s) && JustAddress(c, e) && JustAddress(c, n) && JustAddress(c, b) && LeaseTime(c, l)
    ensures R.Fold(c, [s, e, n, b, l], R.BLANK) == R.Scan(s, e, n, b, l, [], [])
  {
    var o := R.BLANK.(start := s);
    Fold5(c, s, e, n, b, l, R.BLANK);
    AddressStep(c, o, e);
    AddressStep(c, o.(end := e), n);
    AddressStep(c, o.(end := e, netmask := n), b);
    LeaseStep(c, o.(end := e, netmask := n, broadcast := b), l);
  }

  predicate SmallNumber(p: string) { Digits(p) && Number(p) <= 128 }

  // Digits are read as decimal numbers, and zeros in front do not count.
  lemma DecimalNumber(x: char, y: char, z: char)
    requires '0' <= x <= '9' && '0' <= y <= '9' && '0' <= z <= '9'
    ensures Digits([x, y, z]) && Number([x, y, z]) == 100 * Worth(x) + 10 * Worth(y) + Worth(z)
  {
    assert [x, y, z][..2] == [x, y] && [x, y][..1] == [x];
    assert Number([x]) == Worth(x) && Number([x, y]) == 10 * Worth(x) + Worth(y);
  }

  function Worth(digit: char): int { digit as int - '0' as int }

  lemma {:induction false} ZerosInFront(s: string)
    requires Digits(s)
    ensures Digits("0" + s) && Number("0" + s) == Number(s)
    decreases |s|
  {
    var t := "0" + s;
    assert t[..|t| - 1] == "0" + s[..|s| - 1] && t[|t| - 1] == s[|s| - 1];
    if |s| > 1 {
      ZerosInFront(s[..|s| - 1]);
    } else {
      assert t[..1] == "0";
    }
  }

  // An IPv6 range: the bare number behind the addresses is the prefix length.
  lemma PrefixBoxes(c: Classes, s: string, e: string, p: string, l: string)
    requires s != "" && e != "" && p != "" && l != ""
    requires (c.ip6(s) || HasPrefix(s, "constructor:")) && c.ip6(e) && !Mode(e) && !c.lease(e)
    requires SmallNumber(p) && c.lease(p) && !Mode(p) && LeaseTime(c, l)
    ensures R.Fold(c, [s, e, p, l], R.BLANK) == R.Scan(s, e, p, "", l, [], [])
  {
    Fold4(c, s, e, p, l, R.BLANK);
    ModesAgree(e);
    ModesAgree(p);
    LeaseStep(c, R.BLANK.(start := s, end := e, netmask := p), l);
  }

  // After an IPv4 start a bare number is a lease time, and so is one above 128
  // anywhere.
  lemma NumberIsLease(c: Classes, s: string, e: string, l: string)
    requires s != "" && e != "" && l != "" && (c.ip4(s) || c.ip6(s) || HasPrefix(s, "constructor:"))
    requires (!c.ip6(s) && !HasPrefix(s, "constructor:")) || (Digits(l) && Number(l) > 128)
    requires (c.ip4(e) || c.ip6(e)) && !Mode(e) && !c.lease(e) && c.lease(l) && !Mode(l)
    ensures R.Fold(c, [s, e, l], R.BLANK) == R.Scan(s, e, "", "", l, [], [])
  {
    Fold3(c, s, e, l, R.BLANK);
  }

  // A mode stands where an end address would.
  lemma ModeBoxes(c: Classes, s: string, m: string, l: string)
    requires s != "" && l != "" && (c.ip4(s) || c.ip6(s) || HasPrefix(s, "constructor:"))
    requires Mode(m) && LeaseTime(c, l)
    ensures R.Fold(c, [s, m, l], R.BLANK) == R.Scan(s, "", "", "", l, [m], [])
    ensures R.EndBox(R.Scan(s, "", "", "", l, [m], [])) == m
  {
    ModesAgree(m);
    ModesAgree(l);
    Fold3(c, s, m, l, R.BLANK);
    ModeSteps(c, R.BLANK.(start := s), m, l);
  }

  lemma ModeSteps(c: Classes, o: R.Scan, m: string, l: string)
    requires o.start != "" && o.lease == "" && l != "" && R.IsMode(m)
    requires c.lease(l) && !R.IsMode(l) && HasUnit(l)
    ensures R.Step(c, R.Step(c, o, m), l) == o.(modes := o.modes + [m], lease := l)
  {
    ModeNotEmpty(m);
  }

  lemma ModeNotEmpty(m: string)
    requires R.IsMode(m)
    ensures m != ""
  {
  }

  // The box of the end address holds the end address first, then the modes.
  lemma EndAndMode(c: Classes, s: string, e: string, m: string, l: string)
    requires s != "" && e != "" && l != "" && c.ip4(s) && JustAddress(c, e) && Mode(m) && LeaseTime(c, l)
    ensures R.Boxes([], R.Fold(c, [s, e, m, l], R.BLANK)) == R.Form("", s, e + "," + m, "", "", l, [])
  {
    ModesAgree(e);
    ModesAgree(m);
    ModesAgree(l);
    Fold4(c, s, e, m, l, R.BLANK);
    ModeSteps(c, R.BLANK.(start := s, end := e), m, l);
  }

  // A lease time in front of the addresses is not taken for one: it is left
  // over, and kept behind the other fields.
  lemma EarlyLease(c: Classes, l: string, s: string, e: string)
    requires l != "" && s != "" && e != "" && LeaseTime(c, l) && c.ip4(s) && JustAddress(c, e)
    requires !c.ip4(l) && !c.ip6(l) && !HasPrefix(l, "constructor:")
    ensures R.Boxes([], R.Fold(c, [l, s, e], R.BLANK)) == R.Form("", s, e, "", "", "", [l])
  {
    Fold3(c, l, s, e, R.BLANK);
    ModesAgree(l);
    assert [] + [l] == [l];
    AddressStep(c, R.BLANK.(start := s, left := [l]), e);
  }

  // What is left over is built last.
  lemma LeftoversLast(tags: seq<string>, f: R.Form)
    requires Plain(tags) && TagsOnly(tags) && f.tags == Join(tags, ", ")
    requires Plain([f.start, f.end] + f.extra) && f.netmask == "" && f.broadcast == "" && f.lease == ""
    ensures R.Build(f) == Some(Join(tags + ([f.start, f.end] + f.extra), ","))
  {
    PlainBox(tags);
    PartsPlain([f.start, f.end], f.extra);
    assert [f.start, f.end][0] == f.start && [f.start, f.end][1] == f.end;
    TrimIdempotent(Js, f.start);
    FiveFields(f.start, f.end, "", "", "");
    assert [f.start] + ([f.end] + ([] + ([] + []))) == [f.start, f.end];
    NonEmptyConcat([f.start, f.end, "", "", ""], f.extra);
    NonEmptyConcat(tags, [f.start, f.end, "", "", ""] + f.extra);
    NonEmptyAll(f.extra);
    NonEmptyAll(tags);
    TagsAllowed(tags);
  }

  lemma TagsAllowed(tags: seq<string>)
    requires TagsOnly(tags)
    ensures R.AllTags(tags)
  {
  }

  predicate InBoxes(f: R.Form, tags: seq<string>, s: string, e: string, n: string, b: string, l: string) {
    && f.tags == Join(tags, ", ") && f.start == s && f.end == e && f.netmask == n && f.broadcast == b
    && f.lease == l && f.extra == []
  }

  // What is built of a scan with nothing left over.
  lemma ScanWrites(tags: seq<string>, o: R.Scan)
    requires TagsOnly(tags) && Plain(tags) && Cell(o.start) && o.start != "" && o.modes == [] && o.left == []
    ensures R.Build(R.Boxes(tags, o)) ==
            Some(Join(tags + NonEmpty([o.start, o.end, o.netmask, o.broadcast, o.lease]), ","))
    ensures InBoxes(R.Boxes(tags, o), tags, o.start, o.end, o.netmask, o.broadcast, o.lease)
  {
    var five := [o.start, o.end, o.netmask, o.broadcast, o.lease];
    ListBox(tags, ", ");
    NonEmptyAll(tags);
    TrimIdempotent(Js, o.start);
    assert five + [] == five;
    NonEmptyConcat(tags, five);
  }

  lemma Two(x: string, y: string)
    ensures NonEmpty([x, y]) == (if x == "" then [] else [x]) + (if y == "" then [] else [y])
  {
    NonEmptyCons(y, []);
    NonEmptyCons(x, [y]);
    assert [y] + [] == [y] && [x] + [y] == [x, y];
  }

  lemma FiveFields(a: string, b: string, c: string, d: string, e: string)
    ensures NonEmpty([a, b, c, d, e]) ==
            (if a == "" then [] else [a]) + ((if b == "" then [] else [b]) + ((if c == "" then [] else [c])
            + ((if d == "" then [] else [d]) + (if e == "" then [] else [e]))))
  {
    Two(d, e);
    NonEmptyCons(c, [d, e]);
    NonEmptyCons(b, [c] + [d, e]);
    NonEmptyCons(a, [b] + ([c] + [d, e]));
    assert [a] + ([b] + ([c] + [d, e])) == [a, b, c, d, e];
  }

  // A range in the customary order fills its boxes accordingly, and building
  // the form gives the same text.
  lemma RangeInOrder(c: Classes, tags: seq<string>, s: string, e: string, n: string, l: string, v: string)
    requires RangeOf(tags, [s, e, n, l], v)
    requires c.ip4(s) && JustAddress(c, e) && JustAddress(c, n) && LeaseTime(c, l)
    ensures InBoxes(R.Boxes(R.Tags(v), R.Scanned(c, v)), tags, s, e, n, "", l)
    ensures R.Rebuilt(c, v) == Some(v)
  {
    var fs := [s, e, n, l];
    PartsPlain(tags, fs);
    assert fs[0] == s && fs[1] == e && fs[2] == n && fs[3] == l;
    RangeParts(c, tags, fs, v);
    RangeBoxes(c, s, e, n, l);
    ScanWrites(tags, R.Scan(s, e, n, "", l, [], []));
    FiveFields(s, e, n, "", l);
    assert [s] + ([e] + ([n] + ([] + [l]))) == fs;
  }

  lemma BroadcastInOrder(c: Classes, tags: seq<string>, s: string, e: string, n: string, b: string, l: string,
                         v: string)
    requires RangeOf(tags, [s, e, n, b, l], v)
    requires c.ip4(s) && JustAddress(c, e) && JustAddress(c, n) && JustAddress(c, b) && LeaseTime(c, l)
    ensures InBoxes(R.Boxes(R.Tags(v), R.Scanned(c, v)), tags, s, e, n, b, l)
    ensures R.Rebuilt(c, v) == Some(v)
  {
    BroadcastFields(tags, s, e, n, b, l);
    RangeParts(c, tags, [s, e, n, b, l], v);
    BroadcastBoxes(c, s, e, n, b, l);
    ScanWrites(tags, R.Scan(s, e, n, b, l, [], []));
    AllFive(s, e, n, b, l);
  }

  lemma AllFive(s: string, e: string, n: string, b: string, l: string)
    requires s != "" && e != "" && n != "" && b != "" && l != ""
    ensures NonEmpty([s, e, n, b, l]) == [s, e, n, b, l]
  {
    FiveFields(s, e, n, b, l);
    assert [s] + ([e] + ([n] + ([b] + [l]))) == [s, e, n, b, l];
  }

  lemma BroadcastFields(tags: seq<string>, s: string, e: string, n: string, b: string, l: string)
    requires Plain(tags + [s, e, n, b, l])
    ensures Plain(tags) && Plain([s, e, n, b, l])
    ensures s != "" && e != "" && n != "" && b != "" && l != ""
  {
    var fs := [s, e, n, b, l];
    PartsPlain(tags, fs);
    assert fs[0] == s && fs[1] == e && fs[2] == n && fs[3] == b && fs[4] == l;
  }

  lemma PrefixInOrder(c: Classes, tags: seq<string>, s: string, e: string, p: string, l: string, v: string)
    requires RangeOf(tags, [s, e, p, l], v)
    requires (c.ip6(s) || HasPrefix(s, "constructor:")) && c.ip6(e) && !Mode(e) && !c.lease(e)
    requires SmallNumber(p) && c.lease(p) && !Mode(p) && LeaseTime(c, l)
    ensures InBoxes(R.Boxes(R.Tags(v), R.Scanned(c, v)), tags, s, e, p, "", l)
    ensures R.Rebuilt(c, v) == Some(v)
  {
    var fs := [s, e, p, l];
    PartsPlain(tags, fs);
    assert fs[0] == s && fs[1] == e && fs[2] == p && fs[3] == l;
    RangeParts(c, tags, fs, v);
    PrefixBoxes(c, s, e, p, l);
    ScanWrites(tags, R.Scan(s, e, p, "", l, [], []));
    FiveFields(s, e, p, "", l);
    assert [s] + ([e] + ([p] + ([] + [l]))) == fs;
  }

  lemma ShortRangeInOrder(c: Classes, tags: seq<string>, s: string, e: string, l: string, v: string)
    requires RangeOf(tags, [s, e, l], v)
    requires c.ip4(s) && !c.ip6(s) && !HasPrefix(s, "constructor:")
    requires (c.ip4(e) || c.ip6(e)) && !Mode(e) && !c.lease(e) && c.lease(l) && !Mode(l)
    ensures InBoxes(R.Boxes(R.Tags(v), R.Scanned(c, v)), tags, s, e, "", "", l)
    ensures R.Rebuilt(c, v) == Some(v)
  {
    var fs := [s, e, l];
    PartsPlain(tags, fs);
    assert fs[0] == s && fs[1] == e && fs[2] == l;
    RangeParts(c, tags, fs, v);
    NumberIsLease(c, s, e, l);
    ScanWrites(tags, R.Scan(s, e, "", "", l, [], []));
    FiveFields(s, e, "", "", l);
    assert [s] + ([e] + ([] + ([] + [l]))) == fs;
  }

  lemma PartsPlain(a: seq<string>, b: seq<string>)
    requires Plain(a + b)
    ensures Plain(a) && Plain(b)
  {
    assert forall i :: 0 <= i < |a| ==> (a + b)[i] == a[i];
    assert forall i :: 0 <= i < |b| ==> (a + b)[|a| + i] == b[i];
  }

  // ---- dhcp-host -----------------------------------------------------------------

  predicate Macs(c: Classes, fs: seq<string>) {
    forall i :: 0 <= i < |fs| ==> NoTag(fs[i]) && fs[i] != "ignore" && (HasPrefix(fs[i], "id:") || c.mac(fs[i]))
  }

  predicate Hosted(p: string, c: Classes) { p != "ignore" && NoTag(p) && !HasPrefix(p, "id:") && !c.mac(p) }

  lemma MacKinds(c: Classes, fs: seq<string>)
    requires Macs(c, fs) && NoBlanks(fs)
    ensures H.AllKind(c, fs, H.Mac)
  {
  }

  lemma TagKinds(c: Classes, fs: seq<string>)
    requires TagsOnly(fs)
    ensures H.AllKind(c, fs, H.Tag)
  {
    forall i | 0 <= i < |fs|
      ensures H.KindOf(c, fs[i]) == H.Tag
    {
      NotIgnore(fs[i]);
    }
  }

  lemma NotIgnore(p: string)
    requires HasPrefix(p, "tag:") || HasPrefix(p, "set:")
    ensures p != "" && p != "ignore"
  {
    assert p[..4][0] == p[0];
  }

  // An address, a name and a lease time behind the hardware addresses and the
  // tags, and the word that bars the host.
  lemma HostScan(c: Classes, macs: seq<string>, tags: seq<string>, a: string, h: string, l: string)
    requires Macs(c, macs) && NoBlanks(macs) && TagsOnly(tags)
    requires a != "" && Hosted(a, c) && c.ip4(a)
    requires h != "" && Hosted(h, c) && !c.ip4(h) && !H.Bracketed(h)
    requires l != "" && Hosted(l, c) && !c.ip4(l) && !H.Bracketed(l) && c.lease(l)
    ensures H.Fold(c, macs + (tags + [a, h, l, "ignore"]), H.BLANK) == H.Scan(macs, a, h, l, tags, true, [])
  {
    MacKinds(c, macs);
    TagKinds(c, tags);
    var o1 := H.BLANK.(mac := macs);
    var o2 := o1.(tags := tags);
    H.FoldConcat(c, macs, tags + [a, h, l, "ignore"], H.BLANK);
    H.FoldMacs(c, macs, H.BLANK);
    assert [] + macs == macs && [] + tags == tags;
    H.FoldConcat(c, tags, [a, h, l, "ignore"], o1);
    H.FoldTags(c, tags, o1);
    HostTail(c, o2, a, h, l);
  }

  lemma HostTail(c: Classes, o: H.Scan, a: string, h: string, l: string)
    requires o.hostname == ""
    requires a != "" && Hosted(a, c) && c.ip4(a)
    requires h != "" && Hosted(h, c) && !c.ip4(h) && !H.Bracketed(h)
    requires l != "" && Hosted(l, c) && !c.ip4(l) && !H.Bracketed(l) && c.lease(l)
    ensures H.Fold(c, [a, h, l, "ignore"], o) == o.(ip := a, hostname := h, lease := l, ignored := true)
  {
    var fs := [a, h, l, "ignore"];
    H.FoldStep(c, fs, 0, o);
    H.FoldStep(c, fs, 1, o.(ip := a));
    H.FoldStep(c, fs, 2, o.(ip := a, hostname := h));
    H.FoldStep(c, fs, 3, o.(ip := a, hostname := h, lease := l));
    assert fs[0..] == fs && fs[4..] == [];
  }

  // A host in the customary order: every field in its box, and the same text
  // when the form is built.
  lemma HostInOrder(c: Classes, macs: seq<string>, tags: seq<string>, a: string, h: string, l: string, v: string)
    requires Plain(macs + (tags + [a, h, l, "ignore"])) && v == Join(macs + (tags + [a, h, l, "ignore"]), ",")
    requires Macs(c, macs) && TagsOnly(tags) && Hosted(a, c) && c.ip4(a)
    requires Hosted(h, c) && !c.ip4(h) && !H.Bracketed(h)
    requires Hosted(l, c) && !c.ip4(l) && !H.Bracketed(l) && c.lease(l)
    ensures H.ParseHost(c, v) == H.Form(Join(macs, ", "), a, h, l, Join(tags, ", "), true, [])
    ensures H.Rebuilt(c, v) == Some(v)
  {
    HostFields(macs, tags, a, h, l);
    PlainSplits(macs + (tags + [a, h, l, "ignore"]));
    HostScan(c, macs, tags, a, h, l);
    HostWrites(macs, tags, a, h, l);
  }

  lemma HostFields(macs: seq<string>, tags: seq<string>, a: string, h: string, l: string)
    requires Plain(macs + (tags + [a, h, l, "ignore"]))
    ensures Plain(macs) && Plain(tags)
    ensures a != "" && h != "" && l != "" && Trim(Js, h) != ""
  {
    var tail := [a, h, l, "ignore"];
    PartsPlain(macs, tags + tail);
    PartsPlain(tags, tail);
    assert tail[0] == a && tail[1] == h && tail[2] == l;
    TrimIdempotent(Js, h);
  }

  lemma HostWrites(macs: seq<string>, tags: seq<string>, a: string, h: string, l: string)
    requires Plain(macs + (tags + [a, h, l, "ignore"]))
    ensures H.Build(H.Form(Join(macs, ", "), a, h, l, Join(tags, ", "), true, [])) ==
            Some(Join(macs + (tags + [a, h, l, "ignore"]), ","))
  {
    HostFields(macs, tags, a, h, l);
    PlainBox(macs);
    PlainBox(tags);
    FieldsJoined(macs, tags, [a, h, l, "ignore"]);
  }

  lemma FieldsJoined(macs: seq<string>, tags: seq<string>, tail: seq<string>)
    requires NoBlanks(macs + (tags + tail))
    ensures JoinCSV(macs + tags + tail + []) == Join(macs + (tags + tail), ",")
  {
    assert macs + tags + tail + [] == macs + (tags + tail);
    NonEmptyAll(macs + (tags + tail));
  }

  lemma PlainBox(fs: seq<string>)
    requires Plain(fs)
    ensures Cells(Join(fs, ", ")) == fs
  {
    ListBox(fs, ", ");
    NonEmptyAll(fs);
  }

  // What stands in brackets on one line goes to the address box; a bracket
  // around a line end does not count.
  lemma InBrackets(inner: string, lineEnd: char)
    requires forall i :: 0 <= i < |inner| ==> inner[i] !in {'\n', '\r', '\U{2028}', '\U{2029}'}
    requires lineEnd in {'\n', '\r', '\U{2028}', '\U{2029}'}
    ensures H.Bracketed("[" + inner + "]") && !H.Bracketed("[" + inner + [lineEnd] + "]")
  {
    var other := "[" + inner + [lineEnd] + "]";
    assert other[|inner| + 1] == lineEnd;
  }

  // ---- dhcp-option and cname -----------------------------------------------------

  predicate Prefixes(fs: seq<string>) {
    forall i :: 0 <= i < |fs| ==>
      HasPrefix(fs[i], "encap:") || HasPrefix(fs[i], "vi-encap:") || HasPrefix(fs[i], "vendor:")
  }

  predicate OnlyTag(fs: seq<string>) { forall i :: 0 <= i < |fs| ==> HasPrefix(fs[i], "tag:") }

  predicate Untagged(fs: seq<string>) { forall i :: 0 <= i < |fs| ==> !HasPrefix(fs[i], "tag:") }

  lemma {:induction false} OptionFoldConcat(a: seq<string>, b: seq<string>, o: OptionScan)
    ensures OptionFold(a + b, o) == OptionFold(b, OptionFold(a, o))
    decreases |a|
  {
    if a == [] {
      assert a + b == b;
    } else {
      assert (a + b)[1..] == a[1..] + b;
      OptionFoldConcat(a[1..], b, OptionStep(o, a[0]));
    }
  }

  lemma {:induction false} OptionTags(fs: seq<string>, o: OptionScan)
    requires OnlyTag(fs)
    ensures OptionFold(fs, o) == o.(tags := o.tags + fs)
    decreases |fs|
  {
    if fs == [] {
      assert o.tags + [] == o.tags;
    } else {
      assert forall i :: 0 <= i < |fs[1..]| ==> fs[1..][i] == fs[i + 1];
      OptionTags(fs[1..], OptionStep(o, fs[0]));
      assert o.tags + [fs[0]] + fs[1..] == o.tags + fs;
    }
  }

  lemma {:induction false} OptionPrefixes(fs: seq<string>, o: OptionScan)
    requires Prefixes(fs) && Untagged(fs) && o.opt == ""
    ensures OptionFold(fs, o) == o.(pre := o.pre + fs)
    decreases |fs|
  {
    if fs == [] {
      assert o.pre + [] == o.pre;
    } else {
      assert forall i :: 0 <= i < |fs[1..]| ==> fs[1..][i] == fs[i + 1];
      OptionPrefixes(fs[1..], OptionStep(o, fs[0]));
      assert o.pre + [fs[0]] + fs[1..] == o.pre + fs;
    }
  }

  lemma {:induction false} OptionValues(fs: seq<string>, o: OptionScan)
    requires Untagged(fs) && o.opt != ""
    ensures OptionFold(fs, o) == o.(value := o.value + fs)
    decreases |fs|
  {
    if fs == [] {
      assert o.value + [] == o.value;
    } else {
      assert forall i :: 0 <= i < |fs[1..]| ==> fs[1..][i] == fs[i + 1];
      OptionValues(fs[1..], OptionStep(o, fs[0]));
      assert o.value + [fs[0]] + fs[1..] == o.value + fs;
    }
  }

  // Tags, encapsulation, option, values: each in its box, in this order.
  lemma OptionBoxesInOrder(tags: seq<string>, pre: seq<string>, opt: string, values: seq<string>, v: string)
    requires OnlyTag(tags) && Prefixes(pre) && Untagged(pre) && Untagged([opt]) && Untagged(values)
    requires !HasPrefix(opt, "encap:") && !HasPrefix(opt, "vi-encap:") && !HasPrefix(opt, "vendor:")
    requires Plain(tags + (pre + ([opt] + values))) && v == Join(tags + (pre + ([opt] + values)), ",")
    ensures OptionBoxes(ScannedOption(v)) == OptionForm(Join(tags, ", "), Join(pre + [opt], ","), Join(values, ","))
  {
    var o0 := OptionScan([], "", [], []);
    PartsPlain(tags, pre + ([opt] + values));
    PartsPlain(pre, [opt] + values);
    PartsPlain([opt], values);
    assert [opt][0] == opt;
    PlainSplits(tags + (pre + ([opt] + values)));
    OptionFoldConcat(tags, pre + ([opt] + values), o0);
    OptionTags(tags, o0);
    assert [] + tags == tags && [] + pre == pre && [] + values == values;
    var o1 := o0.(tags := tags);
    OptionFoldConcat(pre, [opt] + values, o1);
    OptionPrefixes(pre, o1);
    var o2 := o1.(pre := pre);
    OptionFoldConcat([opt], values, o2);
    assert OptionFold([opt], o2) == o2.(opt := opt) by {
      assert [opt][1..] == [];
    }
    OptionValues(values, o2.(opt := opt));
    PlainConcat(pre, [opt]);
    NonEmptyAll(pre + [opt]);
  }

  // Aliases, target, and the lifetime behind them where there is one.
  lemma CnameInOrder(aliases: seq<string>, target: string, ttl: string, v: string)
    requires aliases != [] && target != "" && (ttl == "" || Digits(ttl))
    requires ttl != "" || |aliases| < 2 || !Digits(target)
    requires Plain(aliases + [target] + (if ttl == "" then [] else [ttl]))
    requires v == Join(aliases + [target] + (if ttl == "" then [] else [ttl]), ",")
    ensures ParseCname(v) == CnameForm(Join(aliases, ", "), target, ttl)
  {
    var tail := if ttl == "" then [] else [ttl];
    var parts := aliases + [target] + tail;
    PlainSplits(parts);
    CnameParts(aliases, target, tail);
    CnameForms(parts, tail != [], |aliases| + 1);
  }

  lemma CnameParts(aliases: seq<string>, target: string, tail: seq<string>)
    requires aliases != [] && |tail| <= 1
    ensures var parts := aliases + [target] + tail;
            && |parts| >= 2 && parts[..|aliases|] == aliases && parts[|aliases|] == target
            && Last(parts) == if tail == [] then target else tail[0]
  {
  }

  // ---- server ----------------------------------------------------------------------

  // A scoped server shows its domains and its address, any other its address.
  lemma ServerBoxes(doms: seq<string>, addr: string)
    requires doms != [] && AllFree(doms, '/') && NoBlanks(doms) && '/' !in addr
    ensures D.Parse("/" + Join(doms, "/") + "/" + addr) == D.Form(Join(doms, ", "), addr)
  {
    var v := "/" + Join(doms, "/") + "/" + addr;
    D.SlashFreeParts(doms, addr);
    Enclosed("", doms, addr);
    assert D.Middle(v) == doms && D.Tail(v) == addr;
    assert v[..1] == "/";
    NonEmptyAll(doms);
  }

  lemma Enclosed(first: string, doms: seq<string>, last: string)
    ensures var parts := [first] + (doms + [last]);
            |parts| >= 2 && parts[1..|parts| - 1] == doms && parts[|parts| - 1] == last
  {
  }

  lemma PlainServerBox(addr: string)
    requires addr == "" || addr[0] != '/'
    ensures D.Parse(addr) == D.Form("", addr)
  {
    assert addr != "" ==> addr[..1][0] == addr[0];
  }

  // ---- what a form refuses --------------------------------------------------------

  lemma BlankExactly(s: string)
    ensures Trim(Js, s) == "" <==> AllSpace(Js, s)
  {
    var a, b := TrimParts(Js, s);
    if Trim(Js, s) == "" {
      AllSpaceConcat(Js, a, b);
      assert s == a + b;
    } else {
      var t := Trim(Js, s);
      assert s[|a|] == t[0];
    }
  }

  // A form is refused if a box it cannot do without holds nothing but blanks,
  // or if a field among the tags of a range is none.
  lemma FormsRefused(f: R.Form, h: H.Form, o: OptionForm, n: CnameForm)
    ensures R.Build(f).None? <==>
              AllSpace(Js, f.start) || exists i :: 0 <= i < |Cells(f.tags)| && NoTag(Cells(f.tags)[i])
    ensures H.Build(h).None? <==> AllSpace(Js, h.hostname) && Cells(h.mac) == []
    ensures BuildOption(o).None? <==> AllSpace(Js, o.opt)
    ensures BuildCname(n).None? <==> AllSpace(Js, n.target) || Cells(n.aliases) == []
  {
    BlankExactly(f.start);
    BlankExactly(h.hostname);
    BlankExactly(o.opt);
    BlankExactly(n.target);
  }

  // So whatever is built of a range form has its tags where they are read: in
  // front, and apart from every other field.
  lemma TagsReadBack(f: R.Form, v: string)
    requires R.Build(f) == Some(v) && Balanced(f.tags)
    requires AllBalanced(OtherBoxes(f)) && NoTags(CellsOfAll(OtherBoxes(f)))
    ensures R.Tags(v) == Cells(f.tags)
  {
    var tags, rest := Cells(f.tags), OtherBoxes(f);
    CellsAreCells(f.tags);
    TagPieces(tags);
    WithTags(tags, rest);
    AllTagsAre(tags);
    TagsPart(tags, CellsOfAll(rest));
    TagsAmongCells(SplitCSV(v));
  }

  lemma AllTagsAre(tags: seq<string>)
    requires R.AllTags(tags)
    ensures TagsOnly(tags)
  {
    assert forall i :: 0 <= i < |tags| ==> IsTagOrSet()(tags[i]);
  }

  lemma {:induction false} TagsAmongCells(fs: seq<string>)
    ensures Pick(fs, IsTagOrSet()) == Pick(NonEmpty(fs), IsTagOrSet())
  {
    if fs != [] {
      TagsAmongCells(fs[1..]);
      if fs[0] != "" {
        assert ([fs[0]] + NonEmpty(fs[1..]))[1..] == NonEmpty(fs[1..]);
      }
    }
  }

  function OtherBoxes(f: R.Form): seq<string> {
    [Trim(Js, f.start), f.end, f.netmask, f.broadcast, f.lease] + f.extra
  }

  // ---- quotes ------------------------------------------------------------------------

  // A comma between quotes does not separate.
  lemma QuotedComma(a: string, b: string, c: string)
    requires Inert(a) && Inert(b) && Inert(c)
    ensures SplitCSV("\"" + a + "," + b + "\"" + "," + c) == ["\"" + a + "," + b + "\"", Trim(Js, c)]
  {
    var q := "\"" + a + "," + b + "\"";
    QuotedField(a, b);
    CellsConcat(q, c);
    InertField(c, false);
    FieldsOfOne(c, false);
    assert TrimAll([c]) == [Trim(Js, c)];
    CellsOfCell(q);
  }

  // Text without commas and quotes.
  predicate Inert(s: string) { ',' !in s && '"' !in s }

  lemma {:induction false} InertField(s: string, open: bool)
    requires Inert(s)
    ensures OneField(s, open) && Open(s, open) == open
  {
    if s != "" {
      InertField(s[1..], open);
    }
  }

  lemma QuotedField(a: string, b: string)
    requires Inert(a) && Inert(b)
    ensures var q := "\"" + a + "," + b + "\"";
            OneField(q, false) && Balanced(q) && Trimmed(Js, q)
  {
    var q := "\"" + a + "," + b + "\"";
    InertField(a, true);
    InertField(b, true);
    OneFieldConcat("\"", a, false);
    OpenConcat("\"", a, false);
    OneFieldConcat("\"" + a, ",", false);
    OpenConcat("\"" + a, ",", false);
    OneFieldConcat("\"" + a + ",", b, false);
    OpenConcat("\"" + a + ",", b, false);
    OneFieldConcat("\"" + a + "," + b, "\"", false);
    OpenConcat("\"" + a + "," + b, "\"", false);
    assert q[0] == '"' && q[|q| - 1] == '"';
  }
}
