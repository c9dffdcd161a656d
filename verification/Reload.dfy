// What is on disk after an edit or a toggle, compared with what was in memory:
// a line that ends in a carriage return loses it when it is read back.
module Reload {
  import opened Text
  import opened ConfText
  import opened Filtering
  import opened ConfEdits
  import opened Requests
  import Upstreams

  predicate NoneEndsCR(ls: seq<string>) {
    forall i :: 0 <= i < |ls| ==> !EndsCR(ls[i])
  }

  lemma NoneEndsCRMembers(ls: seq<string>)
    ensures NoneEndsCR(ls) <==> forall l :: l in ls ==> !EndsCR(l)
  {
    if forall l :: l in ls ==> !EndsCR(l) {
      forall i | 0 <= i < |ls|
        ensures !EndsCR(ls[i])
      {
        assert ls[i] in ls;
      }
    }
  }

  // ---- edits -----------------------------------------------------------------

  // The lines of the file that an edit leaves alone ...
  function Untouched(e: Edit, raws: seq<string>): seq<string>
    requires Apply(e, raws).Accepted?
  {
    match e
    case AddLine(_, _, _) => raws
    case UpdateLine(idx, _, _, _, _, _) => raws[..idx] + raws[idx + 1..]
    case DeleteLine(idx, _) => raws[..idx] + raws[idx + 1..]
    case SetScalar(key, _) => Others(raws, key)
    case SetFlag(key, on) => if on then raws else Others(raws, key)
  }

  // ... and whether it puts a line into it.
  predicate Writes(e: Edit, raws: seq<string>) {
    match e
    case AddLine(_, _, _) => true
    case UpdateLine(_, _, _, _, _, _) => true
    case DeleteLine(_, _) => false
    case SetScalar(_, value) => !Blank(value)
    case SetFlag(key, on) => on && !Present(raws, key)
  }

  ghost predicate MadeOf(n: seq<string>, kept: seq<string>, written: bool, line: string) {
    forall l :: l in n <==> l in kept || (written && l == line)
  }

  // An accepted edit makes the file of the lines it keeps and the one it writes.
  lemma EditMakes(e: Edit, raws: seq<string>)
    requires Apply(e, raws).Accepted?
    ensures MadeOf(Apply(e, raws).raws, Untouched(e, raws), Writes(e, raws), Written(e))
  {
    match e
    case AddLine(key, value, flag) => InsertMakes(raws, AddedAt(raws, key), Written(e));
    case UpdateLine(idx, _, _, _, _, _) => UpdateMakes(raws, idx, Written(e));
    case DeleteLine(_, _) =>
    case SetScalar(key, value) =>
      if !Blank(value) {
        ReplaceMakes(raws, Has(key), Written(e));
      }
    case SetFlag(_, _) =>
  }

  lemma InsertMakes(raws: seq<string>, at: nat, line: string)
    requires at <= |raws|
    ensures MadeOf(InsertAt(raws, at, line), raws, true, line)
  {
    var n := InsertAt(raws, at, line);
    SplitAt(raws, at);
    assert n == raws[..at] + [line] + raws[at..];
    assert raws == raws[..at] + raws[at..];
  }

  lemma UpdateMakes(raws: seq<string>, idx: nat, line: string)
    requires idx < |raws|
    ensures MadeOf(raws[idx := line], raws[..idx] + raws[idx + 1..], true, line)
  {
    assert raws[idx := line] == raws[..idx] + [line] + raws[idx + 1..];
  }

  lemma ReplaceMakes(raws: seq<string>, p: string -> bool, line: string)
    ensures MadeOf(Replaced(raws, p, line), Drop(raws, p), true, line)
  {
    FirstMeaning(raws, p);
  }

  lemma MadeNewlineFree(n: seq<string>, raws: seq<string>, line: string)
    requires FromOrWritten(n, raws, line) && NoNewline(raws) && OneLine(line)
    ensures NoNewline(n)
  {
    forall i | 0 <= i < |n|
      ensures '\n' !in n[i]
    {
      assert n[i] in n;
      if n[i] in raws {
        var k :| 0 <= k < |raws| && raws[k] == n[i];
      }
    }
  }

  lemma EditNoNewline(e: Edit, raws: seq<string>)
    requires NoNewline(raws) && Apply(e, raws).Accepted?
    ensures NoNewline(Apply(e, raws).raws)
  {
    EditOrigin(e, raws);
    MadeNewlineFree(Apply(e, raws).raws, raws, Written(e));
  }

  lemma MadeEnds(n: seq<string>, kept: seq<string>, written: bool, line: string)
    requires MadeOf(n, kept, written, line) && OneLine(line)
    ensures NoneEndsCR(n) <==> NoneEndsCR(kept)
  {
    NoneEndsCRMembers(n);
    NoneEndsCRMembers(kept);
    assert !EndsCR(line);
  }

  // After an accepted edit the file reloads to exactly the lines that were
  // written if and only if no line that the edit keeps ends in a carriage
  // return.
  lemma EditReloads(e: Edit, raws: seq<string>)
    requires NoNewline(raws) && Apply(e, raws).Accepted?
    ensures Lines(Serialize(Apply(e, raws).raws)) == Apply(e, raws).raws <==> NoneEndsCR(Untouched(e, raws))
  {
    EditNoNewline(e, raws);
    ReloadExact(Apply(e, raws).raws);
    EditMakes(e, raws);
    EditOrigin(e, raws);
    MadeEnds(Apply(e, raws).raws, Untouched(e, raws), Writes(e, raws), Written(e));
  }

  // The revision computed in memory is the one of the file under the same
  // condition.
  lemma EditKeepsRevision(e: Edit, raws: seq<string>, digest: string -> string)
    requires NoNewline(raws) && Apply(e, raws).Accepted? && Injective(digest)
    ensures Rev(digest, Lines(Serialize(Apply(e, raws).raws))) == Rev(digest, Apply(e, raws).raws)
            <==> NoneEndsCR(Untouched(e, raws))
  {
    var n := Apply(e, raws).raws;
    EditReloads(e, raws);
    EditNoNewline(e, raws);
    LinesNoNewline(Serialize(n));
    if Rev(digest, Lines(Serialize(n))) == Rev(digest, n) {
      SameRevSameLines(digest, Lines(Serialize(n)), n);
    }
  }

  // On a line of such a file that no one edited, the memory and the disk differ.
  lemma DoubleReturnIsLost()
    ensures Lines("a\r\r\n") == ["a\r"]
    ensures Apply(AddLine("b", "", true), ["a\r"]) == Accepted(["a\r", "b"])
    ensures Lines(Serialize(["a\r", "b"])) == ["a", "b"]
  {
    DoubleReturnFile();
    AddedLast();
    ScanSerialize(["a\r", "b"]);
    FirstTrimmed("a\r", "b");
    assert DropCR("a\r") == "a" && DropCR("b") == "b";
  }

  lemma FirstTrimmed(x: string, y: string)
    ensures DropCRs([x, y]) == [DropCR(x), DropCR(y)]
  {
    DropCRsCons(y, []);
    DropCRsCons(x, [y]);
    assert [y] + [] == [y] && [x] + [y] == [x, y];
  }

  lemma DoubleReturnFile()
    ensures Lines("a\r\r\n") == ["a\r"]
  {
    var l := "a\r\r";
    assert '\n' !in l;
    IndexOfFirst(l, '\n', "");
    ScanFirst(l, "");
    assert l + "\n" + "" == "a\r\r\n" && [l] + [] == [l];
    DropCRsCons(l, []);
    assert DropCR(l) == "a\r" && ["a\r"] + [] == ["a\r"];
  }

  lemma AddedLast()
    ensures Apply(AddLine("b", "", true), ["a\r"]) == Accepted(["a\r", "b"])
  {
    KeyOfReturn();
    LastIsNone(["a\r"], Has("b"));
    assert InsertAt(["a\r"], 1, "b") == ["a\r", "b"];
  }

  lemma KeyOfReturn()
    ensures KeyOf("a\r") == "a"
  {
    RenderParses(0, "a", "", true);
    SameDirective("a\r");
  }

  // ---- files without such lines ----------------------------------------------

  // No line on disk ends in two carriage returns.
  predicate NoDoubleCR(text: string) {
    forall i :: 0 <= i < |Scan(text)| ==> !EndsCR(DropCR(Scan(text)[i]))
  }

  lemma CleanLines(text: string)
    ensures NoDoubleCR(text) <==> NoneEndsCR(Lines(text))
  {
    forall i | 0 <= i < |Lines(text)|
      ensures Lines(text)[i] == DropCR(Scan(text)[i])
    {
      DropCRsAt(Scan(text), i);
    }
  }

  lemma CleanWritten(n: seq<string>)
    requires NoNewline(n) && NoneEndsCR(n)
    ensures NoDoubleCR(Serialize(n))
  {
    ReloadExact(n);
    ScanSerialize(n);
  }

  // Edits are exact on such files, and keep them such.
  lemma EditExact(e: Edit, text: string)
    requires Apply(e, Lines(text)).Accepted?
    ensures var n := Apply(e, Lines(text)).raws;
            && (Lines(Serialize(n)) == n <==> NoneEndsCR(Untouched(e, Lines(text))))
            && (NoDoubleCR(text) ==> Lines(Serialize(n)) == n && NoDoubleCR(Serialize(n)))
  {
    var raws := Lines(text);
    LinesNoNewline(text);
    EditReloads(e, raws);
    EditNoNewline(e, raws);
    if NoDoubleCR(text) {
      CleanLines(text);
      UntouchedIsFrom(e, raws);
      CleanEdit(e, raws);
    }
  }

  lemma CleanEdit(e: Edit, raws: seq<string>)
    requires NoNewline(raws) && Apply(e, raws).Accepted? && NoneEndsCR(Untouched(e, raws))
    ensures NoDoubleCR(Serialize(Apply(e, raws).raws))
  {
    EditNoNewline(e, raws);
    EditMakes(e, raws);
    EditOrigin(e, raws);
    MadeEnds(Apply(e, raws).raws, Untouched(e, raws), Writes(e, raws), Written(e));
    CleanWritten(Apply(e, raws).raws);
  }

  lemma UntouchedIsFrom(e: Edit, raws: seq<string>)
    requires Apply(e, raws).Accepted?
    ensures forall l :: l in Untouched(e, raws) ==> l in raws
    ensures NoneEndsCR(raws) ==> NoneEndsCR(Untouched(e, raws))
  {
    NoneEndsCRMembers(raws);
    NoneEndsCRMembers(Untouched(e, raws));
    if e.SetScalar? || e.SetFlag? {
      DropSubset(raws, Has(e.key));
    }
  }

  // ---- toggling the upstreams, on the file itself --------------------------

  function Toggled(text: string, encrypted: bool, p: Upstreams.Provider): string {
    Switched(Lines(text), encrypted, Upstreams.PlainDNS(p))
  }

  // The lines no toggle touches.
  function Untoggled(text: string): seq<string> { Drop(Lines(text), Upstreams.Global()) }

  // A carriage return at the end does not change what a line says.
  lemma SameDirective(l: string)
    ensures KeyOf(DropCR(l)) == KeyOf(l) && ValueOf(DropCR(l)) == ValueOf(l)
  {
    TrimDropsCR(l);
    SaysItsTrim(DropCR(l), l);
  }

  lemma TrimDropsCR(l: string)
    ensures Trim(Go, DropCR(l)) == Trim(Go, l)
  {
  }

  lemma SaysItsTrim(a: string, b: string)
    requires Trim(Go, a) == Trim(Go, b)
    ensures KeyOf(a) == KeyOf(b) && ValueOf(a) == ValueOf(b)
  {
  }

  lemma {:induction false} DropBeforeReload(ls: seq<string>)
    ensures Drop(DropCRs(ls), Upstreams.Global()) == DropCRs(Drop(ls, Upstreams.Global()))
  {
    if ls != [] {
      SameDirective(ls[0]);
      DropBeforeReload(ls[1..]);
      DropCRsCons(ls[0], Drop(ls[1..], Upstreams.Global()));
      DropCons(DropCR(ls[0]), DropCRs(ls[1..]), Upstreams.Global());
    }
  }

  lemma {:induction false} DropCRsExact(ls: seq<string>)
    ensures DropCRs(ls) == ls <==> NoneEndsCR(ls)
  {
    forall i | 0 <= i < |ls|
      ensures DropCRs(ls)[i] == ls[i] <==> !EndsCR(ls[i])
    {
      DropCRsAt(ls, i);
    }
  }

  lemma {:induction false} AddedNoNewline(raws: seq<string>, upstreams: seq<string>)
    requires NoNewline(raws) && forall i :: 0 <= i < |upstreams| ==> OneLine(upstreams[i])
    ensures NoNewline(Upstreams.AllAdded(raws, upstreams))
    decreases |upstreams|
  {
    if upstreams != [] {
      OneNoNewline(raws, upstreams[0]);
      AddedNoNewline(Added(raws, "server", upstreams[0], false), upstreams[1..]);
    }
  }

  lemma OneNoNewline(raws: seq<string>, upstream: string)
    requires NoNewline(raws) && OneLine(upstream)
    ensures NoNewline(Added(raws, "server", upstream, false))
  {
    InsertedFrom(raws, AddedAt(raws, "server"), RenderLine("server", upstream, false));
    ServerLineIsOne(upstream);
    MadeNewlineFree(Added(raws, "server", upstream, false), raws, RenderLine("server", upstream, false));
  }

  lemma ServerLineIsOne(upstream: string)
    requires OneLine(upstream)
    ensures OneLine(RenderLine("server", upstream, false))
  {
  }

  lemma UpstreamsOneLine(encrypted: bool, p: Upstreams.Provider)
    ensures forall i :: 0 <= i < |Upstreams.UpstreamsFor(encrypted, p)| ==>
              OneLine(Upstreams.UpstreamsFor(encrypted, p)[i])
  {
  }

  lemma DroppedNoNewline(raws: seq<string>)
    requires NoNewline(raws)
    ensures NoNewline(Drop(raws, Upstreams.Global()))
  {
    DropSubset(raws, Upstreams.Global());
    MadeNewlineFree(Drop(raws, Upstreams.Global()), raws, "");
  }

  // Reading back a toggled file and dropping its global servers.
  lemma ReloadedRest(raws: seq<string>, ups: seq<string>)
    requires NoNewline(raws) && Upstreams.Unscoped(ups) && forall i :: 0 <= i < |ups| ==> OneLine(ups[i])
    ensures Drop(Lines(Serialize(Upstreams.Rewritten(raws, ups))), Upstreams.Global())
            == DropCRs(Drop(raws, Upstreams.Global()))
  {
    var mid := Upstreams.Rewritten(raws, ups);
    DroppedNoNewline(raws);
    AddedNoNewline(Drop(raws, Upstreams.Global()), ups);
    ScanSerialize(mid);
    DropBeforeReload(mid);
    Upstreams.RewrittenMeaning(raws, ups);
  }

  // Two files that a toggle makes of two sets of other lines are the same
  // exactly when those lines are.
  lemma SameToggle(a: seq<string>, b: seq<string>, ups: seq<string>)
    requires NoNewline(a) && NoNewline(b) && Upstreams.Unscoped(ups)
    requires forall i :: 0 <= i < |ups| ==> OneLine(ups[i])
    requires NoneOf(a, Upstreams.Global()) && NoneOf(b, Upstreams.Global())
    ensures Serialize(Upstreams.AllAdded(a, ups)) == Serialize(Upstreams.AllAdded(b, ups)) <==> a == b
  {
    AddedNoNewline(a, ups);
    AddedNoNewline(b, ups);
    if Serialize(Upstreams.AllAdded(a, ups)) == Serialize(Upstreams.AllAdded(b, ups)) {
      SerializeInjective(Upstreams.AllAdded(a, ups), Upstreams.AllAdded(b, ups));
      Upstreams.AllAddedMeaning(a, ups);
      Upstreams.AllAddedMeaning(b, ups);
      NothingPicked(a, Upstreams.Global());
      NothingPicked(b, Upstreams.Global());
    }
  }

  lemma {:induction false} DropCRsNoNewline(ls: seq<string>)
    requires NoNewline(ls)
    ensures NoNewline(DropCRs(ls))
  {
    forall i | 0 <= i < |ls|
      ensures '\n' !in DropCRs(ls)[i]
    {
      DropCRsAt(ls, i);
    }
  }

  lemma ReloadedIsRest(rest: seq<string>)
    requires NoneOf(rest, Upstreams.Global())
    ensures NoneOf(DropCRs(rest), Upstreams.Global())
  {
    forall i | 0 <= i < |rest|
      ensures !Upstreams.Global()(DropCRs(rest)[i])
    {
      DropCRsAt(rest, i);
      SameDirective(rest[i]);
    }
  }

  // Written to disk and loaded again in between, the last toggle alone still
  // decides the file if and only if no line that toggles leave alone ends in a
  // carriage return once loaded.
  lemma LastToggleWinsOnDisk(text: string, e1: bool, p1: Upstreams.Provider, e2: bool, p2: Upstreams.Provider)
    ensures Toggled(Toggled(text, e1, p1), e2, p2) == Toggled(text, e2, p2) <==> NoneEndsCR(Untoggled(text))
  {
    var rest, ups := Untoggled(text), Upstreams.UpstreamsFor(e2, p2);
    LinesNoNewline(text);
    Upstreams.ProviderUnscoped(e1, p1);
    Upstreams.ProviderUnscoped(e2, p2);
    UpstreamsOneLine(e1, p1);
    UpstreamsOneLine(e2, p2);
    ReloadedRest(Lines(text), Upstreams.UpstreamsFor(e1, p1));
    DroppedNoNewline(Lines(text));
    DropMeaning(Lines(text), Upstreams.Global());
    ReloadedIsRest(rest);
    DropCRsNoNewline(rest);
    SameToggle(DropCRs(rest), rest, ups);
    DropCRsExact(rest);
  }

  // A file on which a toggle there and back is not the toggle back alone.
  lemma ToggleTrimsAgain(e1: bool, p1: Upstreams.Provider, e2: bool, p2: Upstreams.Provider)
    ensures Toggled(Toggled("a\r\r\n", e1, p1), e2, p2) != Toggled("a\r\r\n", e2, p2)
  {
    LastToggleWinsOnDisk("a\r\r\n", e1, p1, e2, p2);
    DoubleReturnFile();
    KeyOfReturn();
    assert Drop(["a\r"], Upstreams.Global()) == ["a\r"];
    assert EndsCR(["a\r"][0]);
  }
}
