// The configuration in memory: a growing array of parsed lines, edited in
// place. Index, parse and revision are derived data that every edit renews.
module ConfStore {
  import opened Text
  import opened ConfText
  import opened Filtering
  import opened ConfEdits

  // ---- lines and the texts they were parsed from -------------------------

  // A line without its position, and the parse of a text without a position.
  function Erase(l: Line): Line { l.(idx := 0) }

  function Parse(raw: string): Line { ParseLine(0, raw) }

  function Keyed(key: string): Line -> bool {
    (l: Line) => l.key == key
  }

  function LineAt(ls: seq<Line>, i: nat): Line
    requires i < |ls|
  {
    Erase(ls[i])
  }

  function ParseAt(raws: seq<string>, i: nat): Line
    requires i < |raws|
  {
    Parse(raws[i])
  }

  // Every line is the parse of its text.
  predicate Holds(ls: seq<Line>, raws: seq<string>) {
    |ls| == |raws| && forall i :: 0 <= i < |ls| ==> LineAt(ls, i) == ParseAt(raws, i)
  }

  lemma HoldsAsMap(ls: seq<Line>, raws: seq<string>)
    ensures Holds(ls, raws) <==> Map(Erase, ls) == Map(Parse, raws)
  {
    if |ls| == |raws| {
      forall i | 0 <= i < |ls|
        ensures Map(Erase, ls)[i] == LineAt(ls, i) && Map(Parse, raws)[i] == ParseAt(raws, i)
      {
        MapAt(Erase, ls, i);
        MapAt(Parse, raws, i);
      }
      if Holds(ls, raws) {
        assert forall i :: 0 <= i < |ls| ==> Map(Erase, ls)[i] == Map(Parse, raws)[i];
      }
    } else {
      assert |Map(Erase, ls)| != |Map(Parse, raws)|;
    }
  }

  predicate Numbered(ls: seq<Line>) {
    forall i :: 0 <= i < |ls| ==> ls[i].idx == i
  }

  lemma ParseMoves(i: nat, raw: string)
    ensures ParseLine(0, raw).(idx := i) == ParseLine(i, raw)
    ensures ParseLine(i, raw).raw == raw
  {
  }

  lemma HoldsAt(ls: seq<Line>, raws: seq<string>, i: nat)
    requires Holds(ls, raws) && i < |ls|
    ensures ls[i].raw == raws[i]
  {
    assert LineAt(ls, i) == ParseAt(raws, i);
    ParseMoves(0, raws[i]);
  }

  lemma HoldsParsed(ls: seq<Line>, raws: seq<string>, i: nat)
    requires Holds(ls, raws) && i < |ls| && ls[i].idx == i
    ensures ls[i] == ParseLine(i, raws[i]) && ls[i].value == ValueOf(raws[i])
  {
    assert LineAt(ls, i) == ParseAt(raws, i);
    ParseMoves(i, raws[i]);
  }

  lemma HoldsInsert(ls: seq<Line>, raws: seq<string>, at: nat, raw: string)
    requires Holds(ls, raws) && at <= |ls|
    ensures Holds(InsertAt(ls, at, ParseLine(0, raw)), InsertAt(raws, at, raw))
  {
    HoldsAsMap(ls, raws);
    MapInsert(Erase, ls, at, ParseLine(0, raw));
    MapInsert(Parse, raws, at, raw);
    HoldsAsMap(InsertAt(ls, at, ParseLine(0, raw)), InsertAt(raws, at, raw));
  }

  lemma HoldsAppend(ls: seq<Line>, raws: seq<string>, raw: string)
    requires Holds(ls, raws)
    ensures Holds(ls + [ParseLine(0, raw)], raws + [raw])
  {
    HoldsInsert(ls, raws, |ls|, raw);
    assert InsertAt(ls, |ls|, ParseLine(0, raw)) == ls + [ParseLine(0, raw)];
    assert InsertAt(raws, |raws|, raw) == raws + [raw];
  }

  lemma HoldsDelete(ls: seq<Line>, raws: seq<string>, at: nat)
    requires Holds(ls, raws) && at < |ls|
    ensures Holds(ls[..at] + ls[at + 1..], raws[..at] + raws[at + 1..])
  {
    var x, y := ls[..at] + ls[at + 1..], raws[..at] + raws[at + 1..];
    forall i | 0 <= i < |x|
      ensures LineAt(x, i) == ParseAt(y, i)
    {
      var k := if i < at then i else i + 1;
      assert LineAt(ls, k) == ParseAt(raws, k);
    }
  }

  lemma HoldsUpdate(ls: seq<Line>, raws: seq<string>, at: nat, l: Line, raw: string)
    requires Holds(ls, raws) && at < |ls| && l == ParseLine(at, raw)
    ensures Holds(ls[at := l], raws[at := raw])
  {
    var x, y := ls[at := l], raws[at := raw];
    forall i | 0 <= i < |x|
      ensures LineAt(x, i) == ParseAt(y, i)
    {
      if i == at {
        ParseMoves(at, raw);
      } else {
        assert LineAt(ls, i) == ParseAt(raws, i);
      }
    }
  }

  lemma HoldsDrop(ls: seq<Line>, raws: seq<string>, key: string)
    requires Holds(ls, raws)
    ensures Holds(Drop(ls, Keyed(key)), Others(raws, key))
  {
    HoldsAsMap(ls, raws);
    DropMap(Erase, ls, Keyed(key), Keyed(key));
    DropMap(Parse, raws, Has(key), Keyed(key));
    HoldsAsMap(Drop(ls, Keyed(key)), Others(raws, key));
  }

  lemma HoldsPick(ls: seq<Line>, raws: seq<string>, key: string)
    requires Holds(ls, raws)
    ensures Holds(Pick(ls, Keyed(key)), Entries(raws, key))
  {
    HoldsAsMap(ls, raws);
    PickMap(Erase, ls, Keyed(key), Keyed(key));
    PickMap(Parse, raws, Has(key), Keyed(key));
    HoldsAsMap(Pick(ls, Keyed(key)), Entries(raws, key));
  }

  lemma HoldsLast(ls: seq<Line>, raws: seq<string>, key: string)
    requires Holds(ls, raws)
    ensures LastOf(ls, Keyed(key)) == LastOf(raws, Has(key))
  {
    HoldsAsMap(ls, raws);
    LastMap(Erase, ls, Keyed(key), Keyed(key));
    LastMap(Parse, raws, Has(key), Keyed(key));
  }

  lemma HoldsReplaced(ls: seq<Line>, raws: seq<string>, key: string, raw: string)
    requires Holds(ls, raws)
    ensures Holds(Replaced(ls, Keyed(key), ParseLine(0, raw)), Replaced(raws, Has(key), raw))
  {
    HoldsAsMap(ls, raws);
    ReplacedMap(Erase, ls, Keyed(key), Keyed(key), ParseLine(0, raw));
    ReplacedMap(Parse, raws, Has(key), Keyed(key), raw);
    HoldsAsMap(Replaced(ls, Keyed(key), ParseLine(0, raw)), Replaced(raws, Has(key), raw));
  }

  lemma HoldsSnoc(ls: seq<Line>, raws: seq<string>, l: Line, raw: string)
    requires Holds(ls, raws) && Numbered(ls) && l == ParseLine(|ls|, raw)
    ensures Holds(ls + [l], raws + [raw]) && Numbered(ls + [l])
  {
    var x, y := ls + [l], raws + [raw];
    ParseMoves(|ls|, raw);
    forall i | 0 <= i < |x|
      ensures LineAt(x, i) == ParseAt(y, i)
    {
      if i < |ls| {
        assert LineAt(ls, i) == ParseAt(raws, i);
      }
    }
    IdxOfParse(|ls|, raw);
  }

  lemma IdxOfParse(i: nat, raw: string)
    ensures ParseLine(i, raw).idx == i
  {
  }

  // What the loop of SetScalar keeps, and where the first entry ended up.
  predicate KeptFirst(was: seq<Line>, key: string, out: seq<Line>, first: int) {
    && out == Dedup(was, Keyed(key))
    && first == if NoneOf(was, Keyed(key)) then -1 else |Before(was, Keyed(key))|
  }

  // ---- the store ---------------------------------------------------------

  ghost predicate Reflects(e: Edited, refused: Option<Why>, before: seq<string>, after: seq<string>) {
    match e
    case Accepted(raws) => refused == None && after == raws
    case Refused(why) => refused == Some(why) && after == before
  }

  class ConfFile {
    const digest: string -> string
    var lines: array<Line>
    var n: nat
    var rev: string
    ghost var raws: seq<string>  // the file as a list of raw lines

    // Positions are contiguous, every line is the parse of its text, and the
    // revision is that of the text.
    ghost predicate Valid()
      reads this, lines
    {
      && n <= lines.Length
      && Holds(lines[..n], raws)
      && Numbered(lines[..n])
      && rev == Rev(digest, raws)
    }

    // The configuration of a missing file: empty, but writable.
    constructor (digest: string -> string)
      ensures Valid() && raws == [] && this.digest == digest && fresh(lines)
    {
      this.digest := digest;
      lines := new Line[0];
      n := 0;
      rev := Rev(digest, []);
      raws := [];
    }

    method SerializeText() returns (text: string)
      requires n <= lines.Length && Holds(lines[..n], raws)
      ensures text == Serialize(raws)
    {
      text := "";
      var i := 0;
      while i < n
        invariant 0 <= i <= n
        invariant text + Serialize(raws[i..]) == Serialize(raws)
      {
        HoldsAt(lines[..n], raws, i);
        SerializeStep(raws, i, text);
        text := text + lines[i].raw + "\n";
        i := i + 1;
      }
      assert text + "" == text;
    }

    // The revision is the hash of the text the lines make.
    method Rehash(ghost now: seq<string>)
      requires n <= lines.Length && Holds(lines[..n], now) && Numbered(lines[..n])
      modifies this`rev, this`raws
      ensures Valid() && raws == now
    {
      raws := now;
      var text := SerializeText();
      rev := digest(text);
    }

    // Renew what is derived from the lines; `now` is the file they stand for.
    method Reindex(ghost now: seq<string>)
      requires n <= lines.Length && Holds(lines[..n], now)
      modifies this`rev, this`raws, lines
      ensures Valid() && raws == now
    {
      ghost var was := lines[..n];
      var i := 0;
      while i < n
        modifies lines
        invariant 0 <= i <= n
        invariant forall j :: 0 <= j < i ==> lines[j] == was[j].(idx := j)
        invariant forall j :: i <= j < n ==> lines[j] == was[j]
      {
        lines[i] := lines[i].(idx := i);
        i := i + 1;
      }
      RenumberHolds(was, lines[..n], now);
      Rehash(now);
    }

    // ---- reading -----------------------------------------------------------

    method EntriesOf(key: string) returns (out: seq<Line>)
      requires Valid()
      ensures Holds(out, Entries(raws, key))
      ensures forall i :: 0 <= i < |out| ==> 0 <= out[i].idx < n && lines[out[i].idx] == out[i]
    {
      ghost var all := lines[..n];
      out := [];
      var i := 0;
      while i < n
        invariant 0 <= i <= n == |all|
        invariant out == Pick(all[..i], Keyed(key))
      {
        PickStep(all, i, key);
        if lines[i].key == key {
          out := out + [lines[i]];
        }
        i := i + 1;
      }
      assert all[..n] == all;
      HoldsPick(all, raws, key);
      PickedAtHome(all, key);
    }

    // Backwards, so the last occurrence wins.
    method ScalarOf(key: string) returns (value: string, ok: bool)
      requires Valid()
      ensures ok == Present(raws, key)
      ensures (if ok then Some(value) else None) == Scalar(raws, key)
      ensures !ok ==> value == ""
    {
      var i := n - 1;
      while i >= 0
        invariant -1 <= i < n
        invariant forall j :: i < j < n ==> lines[j].key != key
      {
        if lines[i].key == key {
          ScalarFound(lines[..n], raws, key, i);
          return lines[i].value, true;
        }
        i := i - 1;
      }
      ScalarMissing(lines[..n], raws, key);
      return "", false;
    }

    method HasFlag(key: string) returns (ok: bool)
      requires Valid()
      ensures ok == Present(raws, key)
    {
      var value;
      value, ok := ScalarOf(key);
    }

    // ---- growing and shifting ----------------------------------------------

    // Grows the slice by one: in place while there is room, else in a larger copy.
    method Append(l: Line)
      requires n <= lines.Length
      modifies this`lines, this`n, lines
      ensures n == old(n) + 1 <= lines.Length && lines[..n] == old(lines[..n]) + [l]
      ensures lines == old(lines) || fresh(lines)
    {
      if n == lines.Length {
        var bigger := new Line[2 * n + 1](_ => l);
        forall i | 0 <= i < n { bigger[i] := lines[i]; }
        lines := bigger;
      }
      lines[n] := l;
      n := n + 1;
    }

    // A line that is kept goes into the very array that is being read; what is
    // still to be read stays as it was.
    method Store(k: nat, l: Line, i: nat)
      requires k <= i < n <= lines.Length
      modifies lines
      ensures lines[..k + 1] == old(lines[..k]) + [l]
      ensures lines[i + 1..n] == old(lines[i + 1..n])
    {
      lines[k] := l;
    }

    method ReadAt(i: nat, ghost rest: seq<Line>) returns (l: Line)
      requires i < n <= lines.Length && lines[i..n] == rest
      ensures rest != [] && l == rest[0] && lines[i + 1..n] == rest[1..]
    {
      l := lines[i];
    }

    // One round of loading: the next line is parsed and added.
    method AppendParsed(raw: string, ghost sofar: seq<string>)
      requires n <= lines.Length && Holds(lines[..n], sofar) && Numbered(lines[..n])
      modifies this`lines, this`n, lines
      ensures n == old(n) + 1 <= lines.Length && (lines == old(lines) || fresh(lines))
      ensures Holds(lines[..n], sofar + [raw]) && Numbered(lines[..n])
    {
      var l := ParseLine(n, raw);
      HoldsSnoc(lines[..n], sofar, l, raw);
      Append(l);
    }

    // The scanning loop of LoadConf.
    method ReadLines(tokens: seq<string>)
      requires Valid() && n == 0
      modifies this`lines, this`n, lines
      ensures lines == old(lines) || fresh(lines)
      ensures n <= lines.Length && Holds(lines[..n], DropCRs(tokens)) && Numbered(lines[..n])
    {
      ghost var all := DropCRs(tokens);
      var idx := 0;
      while idx < |tokens|
        invariant 0 <= idx <= |tokens| && n == idx <= lines.Length
        invariant lines == old(lines) || fresh(lines)
        invariant Holds(lines[..idx], all[..idx]) && Numbered(lines[..idx])
      {
        Snoc(all, idx);
        DropCRsAt(tokens, idx);
        AppendParsed(DropCR(tokens[idx]), all[..idx]);
        idx := idx + 1;
      }
      assert all[..idx] == all;
    }

    method AddLine(key: string, value: string, flag: bool) returns (added: Line)
      requires Valid()
      modifies this, lines
      ensures Valid() && (lines == old(lines) || fresh(lines))
      ensures raws == Added(old(raws), key, value, flag)
      ensures added == ParseLine(AddedAt(old(raws), key), RenderLine(key, value, flag))
    {
      var raw := RenderLine(key, value, flag);
      var nl := ParseLine(0, raw);
      ghost var was := lines[..n];
      var insertAt := InsertionIndex(key);
      InsertLine(insertAt, nl);
      HoldsInsert(was, raws, insertAt, raw);
      Reindex(InsertAt(raws, insertAt, raw));
      added := lines[insertAt];
      InsertedAt(old(raws), insertAt, raw);
      HoldsParsed(lines[..n], raws, insertAt);
    }

    method InsertLine(at: nat, l: Line)
      requires at <= n <= lines.Length
      modifies this`lines, this`n, lines
      ensures n == old(n) + 1 <= lines.Length && lines[..n] == InsertAt(old(lines[..n]), at, l)
      ensures lines == old(lines) || fresh(lines)
    {
      Append(l);
      ghost var mid := lines[..n];
      // everything from the insertion point on moves up by one
      forall i | at <= i < n - 1 { lines[i + 1] := lines[i]; }
      lines[at] := l;
      assert forall i :: at < i < n ==> lines[i] == mid[i - 1];
      Shifted(lines[..n], mid, at, l);
    }

    method InsertionIndex(key: string) returns (at: nat)
      requires Valid()
      ensures at == AddedAt(raws, key)
    {
      var pos, i := -1, 0;
      while i < n
        invariant 0 <= i <= n && -1 <= pos < i
        invariant pos >= 0 ==> lines[pos].key == key
        invariant forall j :: pos < j < i ==> lines[j].key != key
      {
        if lines[i].key == key {
          pos := i;
        }
        i := i + 1;
      }
      InsertionPoint(lines[..n], raws, key, pos);
      at := if pos >= 0 then pos + 1 else n;
    }

    // ---- guarded line edits ------------------------------------------------

    method UpdateLine(idx: int, was: string, key: string, value: string, flag: bool) returns (refused: Option<Why>)
      requires Valid()
      modifies this, lines
      ensures Valid() && lines == old(lines)
      ensures Reflects(Updated(old(raws), idx, was, key, value, flag), refused, old(raws), raws)
    {
      if idx < 0 || idx >= n {
        return Some(NoSuchLine);
      }
      HoldsAt(lines[..n], raws, idx);
      if was != "" && lines[idx].raw != was {
        return Some(Conflict);
      }
      Overwrite(idx, RenderLine(key, value, flag));
      return None;
    }

    method UpdateRawLine(idx: int, was: string, raw: string) returns (refused: Option<Why>)
      requires Valid()
      modifies this, lines
      ensures Valid() && lines == old(lines)
      ensures Reflects(UpdatedRaw(old(raws), idx, was, raw), refused, old(raws), raws)
    {
      if idx < 0 || idx >= n {
        return Some(NoSuchLine);
      }
      HoldsAt(lines[..n], raws, idx);
      if was != "" && lines[idx].raw != was {
        return Some(Conflict);
      }
      if '\n' in raw || '\r' in raw {
        return Some(HasNewline);
      }
      Overwrite(idx, raw);
      return None;
    }

    method Overwrite(idx: nat, raw: string)
      requires Valid() && idx < n
      modifies this, lines
      ensures Valid() && lines == old(lines) && raws == old(raws)[idx := raw]
    {
      ghost var was := lines[..n];
      var l := ParseLine(idx, raw);
      lines[idx] := l;
      assert lines[..n] == was[idx := l];
      HoldsUpdate(was, raws, idx, l, raw);
      Reindex(raws[idx := raw]);
    }

    method DeleteLine(idx: int, was: string) returns (refused: Option<Why>)
      requires Valid()
      modifies this, lines
      ensures Valid() && lines == old(lines)
      ensures Reflects(Deleted(old(raws), idx, was), refused, old(raws), raws)
    {
      if idx < 0 || idx >= n {
        return Some(NoSuchLine);
      }
      HoldsAt(lines[..n], raws, idx);
      if was != "" && lines[idx].raw != was {
        return Some(Conflict);
      }
      ghost var ls := lines[..n];
      CloseGap(idx);
      HoldsDelete(ls, raws, idx);
      Reindex(raws[..idx] + raws[idx + 1..]);
      return None;
    }

    // Everything behind the deleted line moves down by one.
    method CloseGap(idx: nat)
      requires idx < n <= lines.Length
      modifies this`n, lines
      ensures n == old(n) - 1
      ensures lines[..n] == old(lines[..n])[..idx] + old(lines[..n])[idx + 1..]
    {
      forall i | idx <= i < n - 1 { lines[i] := lines[i + 1]; }
      n := n - 1;
    }

    // ---- compaction through an alias ---------------------------------------

    // The lines that are kept share the array that is being read.
    method RemoveAll(key: string)
      requires Valid()
      modifies this, lines
      ensures Valid() && lines == old(lines) && raws == Others(old(raws), key)
    {
      ghost var was := lines[..n];
      DropEntries(key);
      HoldsDrop(was, raws, key);
      Reindex(Others(raws, key));
    }

    method DropEntries(key: string)
      requires n <= lines.Length
      modifies this`n, lines
      ensures n <= lines.Length && lines[..n] == Drop(old(lines[..n]), Keyed(key))
    {
      ghost var was := lines[..n];
      var kept, i := 0, 0;
      while i < n
        modifies lines
        invariant 0 <= kept <= i <= n == |was| && lines[i..n] == was[i..]
        invariant lines[..kept] == Drop(was[..i], Keyed(key))
      {
        var l := ReadAt(i, was[i..]);
        DropStep(was, i, key);
        if l.key != key {
          Store(kept, l, i);
          kept := kept + 1;
        }
        i := i + 1;
      }
      assert was[..n] == was;
      n := kept;
    }

    method SetScalar(key: string, value: string)
      requires Valid()
      modifies this, lines
      ensures Valid() && (lines == old(lines) || fresh(lines))
      ensures raws == WithScalar(old(raws), key, value)
    {
      if Trim(Go, value) == "" {
        RemoveAll(key);
        return;
      }
      KeepOne(key, RenderLine(key, value, false));
    }

    // First entry rewritten, later ones dropped, or a new entry at the end.
    method KeepOne(key: string, raw: string)
      requires Valid()
      modifies this, lines
      ensures Valid() && (lines == old(lines) || fresh(lines))
      ensures raws == Replaced(old(raws), Has(key), raw)
    {
      ghost var was := lines[..n];
      var first := KeepFirst(key);
      Place(first, ParseLine(0, raw), was, key);
      HoldsReplaced(was, raws, key, raw);
      Reindex(Replaced(raws, Has(key), raw));
    }

    method Place(first: int, nl: Line, ghost was: seq<Line>, ghost key: string)
      requires n <= lines.Length && KeptFirst(was, key, lines[..n], first)
      modifies this`lines, this`n, lines
      ensures n <= lines.Length && lines[..n] == Replaced(was, Keyed(key), nl)
      ensures lines == old(lines) || fresh(lines)
    {
      ghost var mid := lines[..n];
      if first >= 0 {
        DedupReplaced(was, Keyed(key), nl);
        lines[first] := nl;
        assert lines[..n] == mid[first := nl];
      } else {
        DedupNone(was, Keyed(key));
        Append(nl);
      }
    }

    // The loop of SetScalar: drop every entry of the key but the first.
    method KeepFirst(key: string) returns (first: int)
      requires n <= lines.Length
      modifies this`n, lines
      ensures n <= lines.Length && KeptFirst(old(lines[..n]), key, lines[..n], first)
    {
      ghost var was := lines[..n];
      first := -1;
      var kept, i := 0, 0;
      while i < n
        modifies lines
        invariant 0 <= kept <= i <= n == |was| && lines[i..n] == was[i..]
        invariant KeptFirst(was[..i], key, lines[..kept], first)
      {
        var l := ReadAt(i, was[i..]);
        KeepStep(was, i, key, lines[..kept], first);
        if l.key != key || first == -1 {
          if l.key == key {
            first := kept;
          }
          Store(kept, l, i);
          kept := kept + 1;
        }
        i := i + 1;
      }
      assert was[..n] == was;
      n := kept;
    }

    method SetFlag(key: string, on: bool)
      requires Valid()
      modifies this, lines
      ensures Valid() && (lines == old(lines) || fresh(lines))
      ensures raws == WithFlag(old(raws), key, on)
    {
      if !on {
        RemoveAll(key);
        return;
      }
      var present := HasFlag(key);
      if present {
        return;
      }
      HoldsAppend(lines[..n], raws, key);
      Append(ParseLine(0, key));
      Reindex(raws + [key]);
    }
  }

  // ---- loading -----------------------------------------------------------

  // None of the file is kept when it cannot be opened or read to its end, or
  // when one line is too long for the scanner.
  method LoadConf(file: Option<string>, unreadable: bool, digest: string -> string) returns (conf: ConfFile?)
    ensures conf == null <==> unreadable || Load(file).None?
    ensures conf != null ==> fresh(conf) && fresh(conf.lines) && conf.Valid()
                             && conf.raws == Load(file).value && conf.digest == digest
  {
    if unreadable {
      return null;
    }
    var c := new ConfFile(digest);
    if file.None? {
      return c;
    }
    var tokens := Scan(file.value);
    c.ReadLines(tokens);
    if !Fits(tokens) {  // what was read so far is thrown away
      return null;
    }
    c.Rehash(DropCRs(tokens));
    return c;
  }

  // ---- loop steps --------------------------------------------------------

  lemma SerializeStep(raws: seq<string>, i: nat, text: string)
    requires i < |raws|
    ensures text + Serialize(raws[i..]) == text + raws[i] + "\n" + Serialize(raws[i + 1..])
  {
    assert raws[i..][1..] == raws[i + 1..];
    assert text + (raws[i] + "\n" + Serialize(raws[i + 1..])) == text + raws[i] + "\n" + Serialize(raws[i + 1..]);
  }

  lemma RenumberHolds(was: seq<Line>, now: seq<Line>, raws: seq<string>)
    requires Holds(was, raws) && |now| == |was|
    requires forall j :: 0 <= j < |was| ==> now[j] == was[j].(idx := j)
    ensures Holds(now, raws) && Numbered(now)
  {
    forall j | 0 <= j < |was|
      ensures LineAt(now, j) == ParseAt(raws, j)
    {
      assert LineAt(was, j) == ParseAt(raws, j);
    }
  }

  lemma Shifted(now: seq<Line>, mid: seq<Line>, at: nat, l: Line)
    requires at < |mid| && |now| == |mid| && now[at] == l
    requires forall i :: 0 <= i < at ==> now[i] == mid[i]
    requires forall i :: at < i < |mid| ==> now[i] == mid[i - 1]
    ensures now == InsertAt(mid[..|mid| - 1], at, l)
  {
  }

  lemma LastIs(ls: seq<Line>, key: string, i: nat)
    requires i < |ls| && ls[i].key == key
    requires forall j :: i < j < |ls| ==> ls[j].key != key
    ensures LastOf(ls, Keyed(key)) == i
  {
    var l := LastOf(ls, Keyed(key));
    assert !(i < l < |ls|) && !(l < i);
  }

  lemma {:induction false} PickedAtHome(ls: seq<Line>, key: string)
    requires Numbered(ls)
    ensures forall i :: 0 <= i < |Pick(ls, Keyed(key))| ==>
              0 <= Pick(ls, Keyed(key))[i].idx < |ls| && ls[Pick(ls, Keyed(key))[i].idx] == Pick(ls, Keyed(key))[i]
  {
    if ls != [] {
      var k := |ls| - 1;
      PickedAtHome(ls[..k], key);
      Snoc(ls, k);
      PickSnoc(ls[..k], ls[k], Keyed(key));
      assert ls[..k + 1] == ls;
    }
  }

  lemma InsertionPoint(ls: seq<Line>, raws: seq<string>, key: string, pos: int)
    requires Holds(ls, raws) && -1 <= pos < |ls| && (pos >= 0 ==> ls[pos].key == key)
    requires forall j :: pos < j < |ls| ==> ls[j].key != key
    ensures AddedAt(raws, key) == if pos >= 0 then pos + 1 else |ls|
  {
    HoldsLast(ls, raws, key);
    if pos >= 0 {
      LastIs(ls, key, pos);
    } else {
      LastIsNone(ls, Keyed(key));
    }
  }

  lemma ScalarFound(ls: seq<Line>, raws: seq<string>, key: string, i: nat)
    requires Holds(ls, raws) && Numbered(ls) && i < |ls| && ls[i].key == key
    requires forall j :: i < j < |ls| ==> ls[j].key != key
    ensures Present(raws, key) && Scalar(raws, key) == Some(ls[i].value)
  {
    LastIs(ls, key, i);
    HoldsLast(ls, raws, key);
    HoldsParsed(ls, raws, i);
  }

  lemma ScalarMissing(ls: seq<Line>, raws: seq<string>, key: string)
    requires Holds(ls, raws) && forall j :: 0 <= j < |ls| ==> ls[j].key != key
    ensures !Present(raws, key) && Scalar(raws, key) == None
  {
    LastIsNone(ls, Keyed(key));
    HoldsLast(ls, raws, key);
  }

  lemma PickStep(was: seq<Line>, i: nat, key: string)
    requires i < |was|
    ensures Pick(was[..i + 1], Keyed(key)) ==
            if was[i].key == key then Pick(was[..i], Keyed(key)) + [was[i]] else Pick(was[..i], Keyed(key))
  {
    Snoc(was, i);
    PickSnoc(was[..i], was[i], Keyed(key));
  }

  lemma DropStep(was: seq<Line>, i: nat, key: string)
    requires i < |was|
    ensures Drop(was[..i + 1], Keyed(key)) ==
            if was[i].key == key then Drop(was[..i], Keyed(key)) else Drop(was[..i], Keyed(key)) + [was[i]]
  {
    Snoc(was, i);
    DropSnoc(was[..i], was[i], Keyed(key));
  }

  lemma KeepStep(was: seq<Line>, i: nat, key: string, out: seq<Line>, first: int)
    requires i < |was| && KeptFirst(was[..i], key, out, first)
    ensures if was[i].key == key && first != -1 then KeptFirst(was[..i + 1], key, out, first)
            else KeptFirst(was[..i + 1], key, out + [was[i]], if was[i].key == key then |out| else first)
  {
    var xs, p := was[..i], Keyed(key);
    Snoc(was, i);
    DedupSnoc(xs, was[i], p);
    NoneOfSnoc(xs, was[i], p);
    if NoneOf(xs, p) {
      DedupNone(xs, p);
      FirstOfConcat(xs, [was[i]], p);
    } else {
      BeforeSnoc(xs, was[i], p);
    }
  }
}
