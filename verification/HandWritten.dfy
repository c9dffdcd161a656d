// Lines that people write into the file by hand: comments, blank lines, and
// directives with blanks around the key, the equals sign and the value.
module HandWritten {
  import opened Text
  import opened ConfText
  import opened Filtering
  import opened ConfEdits
  import opened Upstreams
  import Csv

  // ---- comments and blank lines --------------------------------------------

  // A blank line, or one whose first visible character is the comment sign.
  function Silent(): string -> bool {
    (raw: string) => Trim(Go, raw) == "" || Trim(Go, raw)[0] == '#'
  }

  // It says nothing: no key, no value, no flag, no upstream.
  lemma SilentSaysNothing(idx: nat, raw: string)
    requires Silent()(raw)
    ensures ParseLine(idx, raw) == Line(idx, raw, "", "", false)
    ensures KeyOf(raw) == "" && ValueOf(raw) == "" && !Global()(raw)
  {
  }

  lemma CommentSaysNothing(raw: string)
    requires HasPrefix(Trim(Go, raw), "#")
    ensures KeyOf(raw) == "" && !Global()(raw)
  {
    SignFirst(Trim(Go, raw), '#');
    SilentSaysNothing(0, raw);
  }

  lemma SignFirst(s: string, sign: char)
    ensures HasPrefix(s, [sign]) <==> s != "" && s[0] == sign
  {
    if s != "" {
      assert s[..1] == [s[0]];
    }
  }

  lemma KeyedIsNotSilent(raw: string)
    requires KeyOf(raw) != ""
    ensures !Silent()(raw)
  {
    if Silent()(raw) {
      SilentSaysNothing(0, raw);
    }
  }

  predicate Apart(p: string -> bool, q: string -> bool, xs: seq<string>) {
    forall i :: 0 <= i < |xs| && p(xs[i]) ==> !q(xs[i])
  }

  lemma {:induction false} DropOutside(xs: seq<string>, p: string -> bool, q: string -> bool)
    requires Apart(p, q, xs)
    ensures Pick(Drop(xs, q), p) == Pick(xs, p)
  {
    if xs != [] {
      assert forall i :: 0 <= i < |xs[1..]| ==> xs[1..][i] == xs[i + 1];
      DropOutside(xs[1..], p, q);
      PickCons(xs[0], Drop(xs[1..], q), p);
    }
  }

  lemma PickCons(x: string, xs: seq<string>, p: string -> bool)
    ensures Pick([x] + xs, p) == if p(x) then [x] + Pick(xs, p) else Pick(xs, p)
  {
    assert ([x] + xs)[1..] == xs;
  }

  lemma ReplaceOutside(xs: seq<string>, p: string -> bool, q: string -> bool, line: string)
    requires Apart(p, q, xs) && !p(line)
    ensures Pick(Replaced(xs, q, line), p) == Pick(xs, p)
  {
    FirstMeaning(xs, q);
    DropOutside(xs, p, q);
    PickConcat(Before(xs, q), After(xs, q), p);
    PickConcat(Before(xs, q) + [line], After(xs, q), p);
    PickConcat(Before(xs, q), [line], p);
    PickCons(line, [], p);
    assert [line] + [] == [line];
  }

  lemma SilentApart(raws: seq<string>, key: string)
    requires key != ""
    ensures Apart(Silent(), Has(key), raws)
  {
    forall i | 0 <= i < |raws| && Silent()(raws[i])
      ensures !Has(key)(raws[i])
    {
      SilentSaysNothing(0, raws[i]);
    }
  }

  lemma RenderedSpeaks(key: string, value: string, flag: bool)
    requires ValidKey(key)
    ensures !Silent()(RenderLine(key, value, flag))
  {
    RenderParses(0, key, value, flag);
    KeyedIsNotSilent(RenderLine(key, value, flag));
  }

  // Every comment and blank line survives every edit of a directive, and
  // they keep their order.
  lemma SilentSurvivesAdd(raws: seq<string>, key: string, value: string, flag: bool)
    requires ValidKey(key)
    ensures Pick(Added(raws, key, value, flag), Silent()) == Pick(raws, Silent())
  {
    RenderedSpeaks(key, value, flag);
    InsertedElsewhere(raws, AddedAt(raws, key), RenderLine(key, value, flag), Silent());
  }

  lemma SilentSurvivesScalar(raws: seq<string>, key: string, value: string)
    requires ValidKey(key)
    ensures Pick(WithScalar(raws, key, value), Silent()) == Pick(raws, Silent())
  {
    SilentApart(raws, key);
    RenderedSpeaks(key, value, false);
    DropOutside(raws, Silent(), Has(key));
    ReplaceOutside(raws, Silent(), Has(key), RenderLine(key, value, false));
  }

  lemma SilentSurvivesFlag(raws: seq<string>, key: string, on: bool)
    requires ValidKey(key)
    ensures Pick(WithFlag(raws, key, on), Silent()) == Pick(raws, Silent())
  {
    SilentApart(raws, key);
    RenderedSpeaks(key, "", true);
    DropOutside(raws, Silent(), Has(key));
    PickSnoc(raws, key, Silent());
  }

  lemma {:induction false} SilentSurvivesServers(raws: seq<string>, upstreams: seq<string>)
    ensures Pick(AllAdded(raws, upstreams), Silent()) == Pick(raws, Silent())
    decreases |upstreams|
  {
    if upstreams != [] {
      SilentSurvivesAdd(raws, "server", upstreams[0], false);
      SilentSurvivesServers(Added(raws, "server", upstreams[0], false), upstreams[1..]);
    }
  }

  lemma SilentSurvivesToggle(raws: seq<string>, upstreams: seq<string>)
    ensures Pick(Rewritten(raws, upstreams), Silent()) == Pick(raws, Silent())
  {
    forall i | 0 <= i < |raws| && Silent()(raws[i])
      ensures !Global()(raws[i])
    {
      SilentSaysNothing(0, raws[i]);
    }
    DropOutside(raws, Silent(), Global());
    SilentSurvivesServers(Drop(raws, Global()), upstreams);
  }

  // ---- directives with blanks ----------------------------------------------

  lemma BlanksHoldNoEquals(key: string, b: string)
    requires ValidKey(key) && AllSpace(Go, b)
    ensures '=' !in key + b
  {
  }

  // The key part of a trimmed line, and what follows the first equals sign.
  lemma SplitTrimmed(idx: nat, raw: string, key: string, b: string, rest: string)
    requires ValidKey(key) && AllSpace(Go, b) && Trim(Go, raw) == key + b + "=" + rest
    ensures ParseLine(idx, raw) == Line(idx, raw, key, Trim(Go, rest), false)
  {
    var t := Trim(Go, raw);
    BlanksHoldNoEquals(key, b);
    assert t == (key + b) + ['='] + rest;
    IndexOfFirst(key + b, '=', rest);
    assert t[..|key + b|] == key + b && t[|key + b| + 1..] == rest;
    assert t[0] == key[0] && KeyChar(key[0]);
    KeyIsPlain(key);
    TrimUnique(Go, "", key, b);
    assert "" + key + b == key + b;
  }

  // However a directive is spaced out, it is read as its key and its trimmed
  // value; only the first equals sign counts.
  lemma SpacedDirective(idx: nat, a: string, key: string, b: string, c: string, value: string, d: string)
    requires ValidKey(key) && AllSpace(Go, a) && AllSpace(Go, b) && AllSpace(Go, c) && AllSpace(Go, d)
    ensures var raw := a + (key + b + "=" + (c + value + d));
            ParseLine(idx, raw) == Line(idx, raw, key, Trim(Go, value), false)
  {
    var raw := a + (key + b + "=" + (c + value + d));
    TrimPadded(Go, c, value, d);
    var rest := TrimRight(Go, c + value + d);
    TrimRightTwice(c + value + d);
    TrimmedWhole(a, key, b, c + value + d);
    SplitTrimmed(idx, raw, key, b, rest);
  }

  lemma TrimmedWhole(a: string, key: string, b: string, tail: string)
    requires ValidKey(key) && AllSpace(Go, a) && AllSpace(Go, b)
    ensures Trim(Go, a + (key + b + "=" + tail)) == key + b + "=" + TrimRight(Go, tail)
  {
    var head := key + b + "=";
    StartsWithKey(key, b, TrimRight(Go, tail));
    EndsInEquals(a, head, tail);
    TrimRightKeeps(Go, a + head, tail);
    TrimmedFront(a, head, TrimRight(Go, tail));
  }

  lemma StartsWithKey(key: string, b: string, rest: string)
    requires ValidKey(key)
    ensures (key + b + "=" + rest) != "" && !IsSpace(Go, (key + b + "=" + rest)[0])
  {
    assert KeyChar(key[0]) && (key + b + "=" + rest)[0] == key[0];
  }

  lemma TrimmedFront(a: string, head: string, rest: string)
    requires AllSpace(Go, a) && (head + rest) != "" && !IsSpace(Go, (head + rest)[0])
    ensures TrimLeft(Go, (a + head) + rest) == head + rest
  {
    assert (a + head) + rest == a + (head + rest);
    TrimLeftSkips(Go, a, head + rest);
  }

  lemma EndsInEquals(a: string, head: string, tail: string)
    requires head != "" && head[|head| - 1] == '='
    ensures a + (head + tail) == (a + head) + tail
    ensures (a + head) != "" && !IsSpace(Go, (a + head)[|a + head| - 1])
  {
  }

  // A key alone is a flag.
  lemma SpacedFlag(idx: nat, a: string, key: string, b: string)
    requires ValidKey(key) && AllSpace(Go, a) && AllSpace(Go, b)
    ensures ParseLine(idx, a + key + b) == Line(idx, a + key + b, key, "", true)
  {
    KeyIsPlain(key);
    TrimUnique(Go, a, key, b);
    IndexOfNone(key, '=');
  }

  // A hand-written server line is replaced by a toggle exactly when its value
  // does not begin with a slash.
  lemma SpacedServer(a: string, b: string, c: string, value: string, d: string)
    requires AllSpace(Go, a) && AllSpace(Go, b) && AllSpace(Go, c) && AllSpace(Go, d)
    ensures Global()(a + ("server" + b + "=" + (c + value + d))) <==>
            !(Trim(Go, value) != "" && Trim(Go, value)[0] == '/')
  {
    SpacedDirective(0, a, "server", b, c, value, d);
    assert HasPrefix(Trim(Go, value), "/") <==> Trim(Go, value) != "" && Trim(Go, value)[0] == '/' by {
      SignFirst(Trim(Go, value), '/');
    }
  }

  // ---- names and sizes -------------------------------------------------------

  // Names that a handler takes, and characters that none of them may hold.
  lemma NamesTaken()
    ensures ValidKey("server") && ValidKey("dhcp-range") && ValidKey("A_9")
  {
  }

  lemma NamesRefused(key: string, c: char)
    requires c in key && c in {'=', '#', ' ', '\t', '\n', '\r', '.', ',', ':', '/', '\\', '\'', '"'}
    ensures !ValidKey(key)
  {
    var i :| 0 <= i < |key| && key[i] == c;
    assert !KeyChar(key[i]);
  }

  lemma {:induction false} AsciiLength(l: string)
    requires forall i :: 0 <= i < |l| ==> l[i] < '\U{80}'
    ensures ByteLen(l) == |l|
  {
    if l != "" {
      assert forall i :: 0 <= i < |l[1..]| ==> l[1..][i] == l[i + 1];
      AsciiLength(l[1..]);
    }
  }

  // The longest plain line that can be read back has 1,048,575 characters.
  lemma LongestLine(l: string)
    requires '\n' !in l && forall i :: 0 <= i < |l| ==> l[i] < '\U{80}'
    ensures Load(Some(Serialize([l]))).Some? <==> |l| <= 1_048_575
  {
    AsciiLength(l);
    ScanSerialize([l]);
  }

  lemma {:induction false} SameWidth(l: string, w: nat)
    requires forall i :: 0 <= i < |l| ==> Utf8Len(l[i]) == w
    ensures ByteLen(l) == w * |l|
  {
    if l != "" {
      assert forall i :: 0 <= i < |l[1..]| ==> l[1..][i] == l[i + 1];
      SameWidth(l[1..], w);
    }
  }

  predicate Between(l: string, low: char, high: char) {
    forall i :: 0 <= i < |l| ==> low <= l[i] <= high
  }

  // Other characters take two, three or four bytes of that.
  lemma LongestWideLine(l: string)
    ensures Between(l, '\U{80}', '\U{7FF}') ==> (FitsBuffer(l) <==> |l| <= 524_287)
    ensures Between(l, '\U{800}', '\U{FFFF}') ==> (FitsBuffer(l) <==> |l| <= 349_525)
    ensures Between(l, '\U{10000}', '\U{10FFFF}') ==> (FitsBuffer(l) <==> |l| <= 262_143)
  {
    if Between(l, '\U{80}', '\U{7FF}') {
      SameWidth(l, 2);
    }
    if Between(l, '\U{800}', '\U{FFFF}') {
      SameWidth(l, 3);
    }
    if Between(l, '\U{10000}', '\U{10FFFF}') {
      SameWidth(l, 4);
    }
  }

  // ---- white space ---------------------------------------------------------

  // The characters the server trims.
  lemma BlankCharacters(c: char)
    ensures Trim(Go, [c]) == "" <==>
            c in {' ', '\t', '\n', '\U{0B}', '\U{0C}', '\r', '\U{85}', '\U{A0}', '\U{1680}', '\U{2000}', '\U{2001}',
                  '\U{2002}', '\U{2003}', '\U{2004}', '\U{2005}', '\U{2006}', '\U{2007}', '\U{2008}', '\U{2009}',
                  '\U{200A}', '\U{2028}', '\U{2029}', '\U{202F}', '\U{205F}', '\U{3000}'}
  {
    if IsSpace(Go, c) {
      TrimUnique(Go, "", "", [c]);
      assert "" + "" + [c] == [c];
    } else {
      TrimIdempotent(Go, [c]);
    }
  }

  // The two programs differ over two characters: a next-line sign is blank to
  // the server and a field to the browser, a byte-order mark the other way
  // round.
  lemma BlanksDiffer(raws: seq<string>, key: string)
    ensures WithScalar(raws, key, "\U{85}") == Others(raws, key) && Csv.Cells("\U{85}") == ["\U{85}"]
    ensures WithScalar(raws, key, "\U{FEFF}") == Replaced(raws, Has(key), key + "=" + "\U{FEFF}")
    ensures Csv.Cells("\U{FEFF}") == []
  {
    TrimUnique(Go, "", "", "\U{85}");
    assert "" + "" + "\U{85}" == "\U{85}";
    TrimIdempotent(Go, "\U{FEFF}");
    Csv.CellsOfCell("\U{85}");
    TrimUnique(Js, "", "", "\U{FEFF}");
    assert "" + "" + "\U{FEFF}" == "\U{FEFF}";
    OneCharField('\U{FEFF}');
  }

  lemma OneCharField(c: char)
    requires c != ',' && c != '"'
    ensures Csv.Fields([c], false) == [[c]]
  {
    assert [c][1..] == "" && [c] + "" == [c];
    assert Csv.Fields("", false) == [""] && [""][1..] == [];
    assert [[c]] + [] == [[c]];
  }
}
