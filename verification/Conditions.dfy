// The conditions under which the promises of the editing interface hold:
// when the file stays readable, and what the two optional guards buy.
module Conditions {
  import opened Text
  import opened ConfText
  import opened ConfEdits
  import opened ConfWriter
  import opened Requests
  import opened Reload

  // ---- lines too long to be read back --------------------------------------

  lemma FitsMember(ls: seq<string>, l: string)
    requires Fits(ls) && l in ls
    ensures FitsBuffer(l)
  {
    var i :| 0 <= i < |ls| && ls[i] == l;
  }

  lemma OnlyWrittenMayNotFit(n: seq<string>, raws: seq<string>, line: string)
    requires FromOrWritten(n, raws, line) && Fits(raws)
    ensures Fits(n) <==> FitsBuffer(line) || line !in n
  {
    if line in n && Fits(n) {
      FitsMember(n, line);
    }
    if FitsBuffer(line) || line !in n {
      forall i | 0 <= i < |n|
        ensures FitsBuffer(n[i])
      {
        assert n[i] in n;
        if n[i] != line {
          FitsMember(raws, n[i]);
        }
      }
    }
  }

  // The file can be loaded again after an accepted edit exactly when the line
  // it writes fits the scanner's buffer, or it writes none.
  lemma EditReadable(e: Edit, raws: seq<string>)
    requires NoNewline(raws) && Fits(raws) && Apply(e, raws).Accepted?
    ensures Load(Some(Serialize(Apply(e, raws).raws))).Some?
            <==> FitsBuffer(Written(e)) || !Writes(e, raws)
  {
    EditOrigin(e, raws);
    EditNoNewline(e, raws);
    ScanSerialize(Apply(e, raws).raws);
    OnlyWrittenMayNotFit(Apply(e, raws).raws, raws, Written(e));
    WrittenIsThere(e, raws);
  }

  lemma WrittenIsThere(e: Edit, raws: seq<string>)
    requires Fits(raws) && Apply(e, raws).Accepted?
    ensures FitsBuffer(Written(e)) || (Written(e) in Apply(e, raws).raws <==> Writes(e, raws))
  {
    EditMakes(e, raws);
    UntouchedIsFrom(e, raws);
    if Written(e) in raws {
      FitsMember(raws, Written(e));
    }
  }

  lemma {:induction false} ScanFits(text: string)
    requires Fits(Scan(text))
    ensures Fits(Lines(text))
  {
    forall i | 0 <= i < |Lines(text)|
      ensures FitsBuffer(Lines(text)[i])
    {
      DropCRsAt(Scan(text), i);
      DropCRFits(Scan(text)[i]);
    }
  }

  lemma {:induction false} DropCRFits(l: string)
    ensures ByteLen(DropCR(l)) <= ByteLen(l)
  {
    if l != "" {
      ByteLenSnoc(l[..|l| - 1], l[|l| - 1]);
      assert l[..|l| - 1] + [l[|l| - 1]] == l;
    }
  }

  lemma {:induction false} ByteLenSnoc(l: string, c: char)
    ensures ByteLen(l + [c]) == ByteLen(l) + Utf8Len(c)
  {
    if l != "" {
      assert (l + [c])[1..] == l[1..] + [c];
      ByteLenSnoc(l[1..], c);
    } else {
      assert ([] + [c])[1..] == [];
    }
  }

  // What a load yields: lines without line breaks that all fit.
  lemma LoadedLines(file: Option<string>)
    requires Load(file).Some?
    ensures NoNewline(Load(file).value) && Fits(Load(file).value)
  {
    if file.Some? {
      LinesNoNewline(file.value);
      ScanFits(file.value);
    }
  }

  lemma {:induction false} AtLeastOneByteEach(s: string)
    ensures ByteLen(s) >= |s|
  {
    if s != "" {
      AtLeastOneByteEach(s[1..]);
    }
  }

  // A comment line of a million characters: the edit is accepted, the file
  // replaced, and no handler can load it any more.
  lemma LongLineLocksOut(d: Disk, digest: string -> string) returns (e: Edit)
    requires d.live == Some("x\n")
    ensures Admissible(e) && PlanFor(Change(e), d, digest).Install?
    ensures Load(Some(PlanFor(Change(e), d, digest).text)).None?
    ensures FinalStatus(Change(e), Some(PlanFor(Change(e), d, digest).text)) == 500
  {
    var long := seq(MAX_TOKEN, _ => '#');
    e := UpdateLine(0, "x", "", "", false, long);
    OneLineFile();
    AtLeastOneByteEach(long);
    assert OneLine(long);
    LongReplacement(long);
  }

  lemma LongReplacement(long: string)
    requires OneLine(long) && !FitsBuffer(long)
    ensures Apply(UpdateLine(0, "x", "", "", false, long), ["x"]) == Accepted([long])
    ensures Load(Some(Serialize([long]))).None?
  {
    assert ["x"][0 := long] == [long];
    assert FitsBuffer("x") by {
      assert ByteLen("x") == 1 + ByteLen("x"[1..]);
    }
    EditReadable(UpdateLine(0, "x", "", "", false, long), ["x"]);
    assert [long][0] == long;
  }

  lemma OneLineFile()
    ensures Load(Some("x\n")) == Some(["x"])
  {
    ScanFirst("x", "");
    DropCRsCons("x", []);
    assert "x" + "\n" + "" == "x\n" && ["x"] + [] == ["x"];
    assert ByteLen("x") == 1 + ByteLen("x"[1..]);
  }

  // ---- the revision guard --------------------------------------------------

  // A save with this revision is accepted only over the lines its author saw.
  ghost predicate OverwritesOnlySeen(digest: string -> string, content: string, rev: string, seen: Option<string>) {
    forall d :: PlanFor(PutRaw(content, rev), d, digest).Install? ==> Load(d.live) == Load(seen)
  }

  // The guard protects the author exactly when it is there.
  lemma RevGuardExact(digest: string -> string, content: string, rev: string, seen: Option<string>)
    requires Injective(digest) && Load(seen).Some?
    requires rev == "" || rev == Rev(digest, Load(seen).value)
    ensures OverwritesOnlySeen(digest, content, rev, seen) <==> rev != ""
  {
    if rev == "" {
      var d := OtherFile(seen);
      assert PlanFor(PutRaw(content, rev), d, digest).Install?;
    } else {
      forall d | PlanFor(PutRaw(content, rev), d, digest).Install?
        ensures Load(d.live) == Load(seen)
      {
        LoadedLines(d.live);
        LoadedLines(seen);
        SameRevSameLines(digest, Load(d.live).value, Load(seen).value);
      }
    }
  }

  // A readable file with other lines than the one seen.
  lemma OtherFile(seen: Option<string>) returns (d: Disk)
    requires Load(seen).Some?
    ensures Load(d.live).Some? && Load(d.live) != Load(seen)
  {
    OneLineFile();
    d := Disk(if Load(seen) == Some([]) then Some("x\n") else None, None, map[]);
  }

  // ---- the guard of line edits ---------------------------------------------

  // Edits that are refused whatever the file holds.
  predicate NeverApplies(e: Edit) {
    match e
    case UpdateLine(idx, _, key, value, flag, raw) =>
      idx < 0 || (if key == "" then !OneLine(raw) else !Writable(key, value, flag))
    case DeleteLine(idx, _) => idx < 0
    case _ => false
  }

  // Lines that a file can hold: read back, they lose one carriage return.
  predicate CanBeLine(l: string) { '\n' !in l && FitsBuffer(Token(l)) }

  function Token(l: string): string { if EndsCR(l) then l + "\r" else l }

  lemma LoadedLineCanBe(file: Option<string>, i: nat)
    requires Load(file).Some? && i < |Load(file).value|
    ensures CanBeLine(Load(file).value[i])
  {
    LoadedLines(file);
    var t := Scan(file.value)[i];
    DropCRsAt(Scan(file.value), i);
    if EndsCR(DropCR(t)) {
      assert t == DropCR(t) + "\r";
    } else {
      DropCRFits(t);
    }
  }

  // A file with this line at this place.
  lemma FileWith(l: string, i: nat) returns (d: Disk)
    requires CanBeLine(l)
    ensures Load(d.live).Some? && i < |Load(d.live).value| && Load(d.live).value[i] == l
  {
    var tokens := seq(i + 1, _ => Token(l));
    d := Disk(Some(Serialize(tokens)), None, map[]);
    ScanSerialize(tokens);
    DropCRsAt(tokens, i);
    assert DropCR(Token(l)) == l;
  }

  // The edit is applied only where the line at its index is the one seen.
  ghost predicate HitsOnlySeen(digest: string -> string, e: Edit, seen: string)
    requires e.UpdateLine? || e.DeleteLine?
  {
    forall d :: PlanFor(Change(e), d, digest).Install? ==> HasLine(d.live, e.idx, seen)
  }

  predicate HasLine(file: Option<string>, idx: int, seen: string) {
    Load(file).Some? && 0 <= idx < |Load(file).value| && Load(file).value[idx] == seen
  }

  // The guard protects the line seen; or else the edit is never applied.
  predicate Guarded(e: Edit, seen: string)
    requires e.UpdateLine? || e.DeleteLine?
  {
    (e.was == seen && seen != "") || NeverApplies(e) || (e.was != "" && !CanBeLine(e.was))
  }

  // An edit protects a line exactly when it names its text, so a blank line
  // cannot be protected at all. Edits that no file can satisfy are harmless.
  lemma LineGuardExact(digest: string -> string, e: Edit, seen: string)
    requires e.UpdateLine? || e.DeleteLine?
    ensures HitsOnlySeen(digest, e, seen) <==> Guarded(e, seen)
  {
    if Guarded(e, seen) {
      forall d | PlanFor(Change(e), d, digest).Install?
        ensures HasLine(d.live, e.idx, seen)
      {
        LineEditPlan(d, digest, e);
        GuardedHits(d, e, seen);
      }
    } else {
      var d := UnguardedFile(e, seen);
      LineEditPlan(d, digest, e);
      assert PlanFor(Change(e), d, digest).Install? && !HasLine(d.live, e.idx, seen);
    }
  }

  lemma LineEditPlan(d: Disk, digest: string -> string, e: Edit)
    requires e.UpdateLine? || e.DeleteLine?
    ensures PlanFor(Change(e), d, digest).Install? <==> Load(d.live).Some? && Apply(e, Load(d.live).value).Accepted?
  {
  }

  lemma GuardedHits(d: Disk, e: Edit, seen: string)
    requires (e.UpdateLine? || e.DeleteLine?) && Guarded(e, seen)
    requires Load(d.live).Some? && Apply(e, Load(d.live).value).Accepted?
    ensures HasLine(d.live, e.idx, seen)
  {
    LineEditHits(e, Load(d.live).value);
    LoadedLineCanBe(d.live, e.idx);
  }

  lemma LineEditHits(e: Edit, raws: seq<string>)
    requires (e.UpdateLine? || e.DeleteLine?) && Apply(e, raws).Accepted?
    ensures 0 <= e.idx < |raws| && (e.was == "" || raws[e.idx] == e.was) && !NeverApplies(e)
  {
  }

  // A file on which the edit hits another line.
  lemma UnguardedFile(e: Edit, seen: string) returns (d: Disk)
    requires (e.UpdateLine? || e.DeleteLine?) && !Guarded(e, seen)
    ensures Load(d.live).Some? && Apply(e, Load(d.live).value).Accepted? && !HasLine(d.live, e.idx, seen)
  {
    ShortLines();
    var other := if e.was != "" then e.was else if seen == "" then "x" else "";
    d := FileWith(other, e.idx);
  }

  lemma ShortLines()
    ensures CanBeLine("") && CanBeLine("x")
  {
    assert ByteLen("x") == 1 + ByteLen("x"[1..]);
  }
}
