// The text of dnsmasq.conf: one directive line, and the file as a whole.
module ConfText {
  import opened Text

  datatype Line = Line(idx: nat, raw: string, key: string, value: string, flag: bool)

  function ParseLine(idx: nat, raw: string): Line {
    var t := Trim(Go, raw);
    if t == "" || t[0] == '#' then Line(idx, raw, "", "", false)
    else
      var eq := IndexOf(t, '=');
      if eq < |t| then Line(idx, raw, Trim(Go, t[..eq]), Trim(Go, t[eq + 1..]), false)
      else Line(idx, raw, t, "", true)
  }

  function RenderLine(key: string, value: string, flag: bool): string {
    if flag then key else key + "=" + value
  }

  // What a raw line says, whatever its position.
  function KeyOf(raw: string): string { ParseLine(0, raw).key }

  function ValueOf(raw: string): string { ParseLine(0, raw).value }

  predicate KeyChar(c: char) {
    c == '-' || c == '_' || 'a' <= c <= 'z' || 'A' <= c <= 'Z' || '0' <= c <= '9'
  }

  // The two checks every handler makes before it writes a directive.
  predicate ValidKey(key: string) {
    key != "" && forall i :: 0 <= i < |key| ==> KeyChar(key[i])
  }

  predicate ValidValue(value: string) {
    '\n' !in value && '\r' !in value
  }

  predicate Blank(value: string) { Trim(Go, value) == "" }

  // A directive written for a valid key reads back as that key, with the
  // value trimmed: no value can smuggle in another key, a comment or a flag.
  lemma RenderParses(idx: nat, key: string, value: string, flag: bool)
    requires ValidKey(key)
    ensures var l := ParseLine(idx, RenderLine(key, value, flag));
            l.key == key && l.flag == flag && l.value == if flag then "" else Trim(Go, value)
  {
    KeyIsPlain(key);
    TrimIdempotent(Go, key);
    if flag {
      IndexOfNone(key, '=');
    } else {
      var tail := TrimRight(Go, value);
      RenderedTrim(key, value);
      IndexOfFirst(key, '=', tail);
      SplitAtEquals(key, tail);
      TrimRightTwice(value);
    }
  }

  lemma KeyIsPlain(key: string)
    requires ValidKey(key)
    ensures Trimmed(Go, key) && '=' !in key && key[0] != '#' && !IsSpace(Go, key[|key| - 1])
  {
  }

  lemma RenderedTrim(key: string, value: string)
    requires key != "" && Trimmed(Go, key)
    ensures Trim(Go, key + "=" + value) == key + ['='] + TrimRight(Go, value)
  {
    TrimRightKeeps(Go, key + "=", value);
    assert key + "=" == key + ['='];
  }

  lemma SplitAtEquals(key: string, tail: string)
    ensures (key + ['='] + tail)[..|key|] == key && (key + ['='] + tail)[|key| + 1..] == tail
  {
  }

  lemma TrimRightTwice(value: string)
    ensures Trim(Go, TrimRight(Go, value)) == Trim(Go, value)
  {
    var r := TrimRight(Go, value);
    assert TrimRight(Go, r) == r;
  }

  // ---- the file ----------------------------------------------------------

  function Serialize(raws: seq<string>): string {
    if raws == [] then "" else raws[0] + "\n" + Serialize(raws[1..])
  }

  // The physical lines of a text, as a scanner splits it: the last one may
  // lack its newline, and an empty remainder is not a line.
  function Scan(text: string): seq<string>
    decreases |text|
  {
    if text == "" then []
    else
      var n := IndexOf(text, '\n');
      if n == |text| then [text] else [text[..n]] + Scan(text[n + 1..])
  }

  function DropCR(l: string): string {
    if l != "" && l[|l| - 1] == '\r' then l[..|l| - 1] else l
  }

  function DropCRs(ls: seq<string>): (rs: seq<string>)
    ensures |rs| == |ls|
  {
    if ls == [] then [] else [DropCR(ls[0])] + DropCRs(ls[1..])
  }

  function Lines(text: string): seq<string> { DropCRs(Scan(text)) }

  // Bytes a code point takes in UTF-8, the unit of the scanner's limit.
  function Utf8Len(c: char): nat {
    if c < '\U{80}' then 1 else if c < '\U{800}' then 2 else if c < '\U{10000}' then 3 else 4
  }

  function ByteLen(s: string): nat {
    if s == "" then 0 else Utf8Len(s[0]) + ByteLen(s[1..])
  }

  // A line and its newline must fit the scanner's buffer of 1 MiB.
  const MAX_TOKEN: nat := 1024 * 1024

  predicate FitsBuffer(l: string) { ByteLen(l) < MAX_TOKEN }

  predicate Fits(ls: seq<string>) {
    forall i :: 0 <= i < |ls| ==> FitsBuffer(ls[i])
  }

  // LoadConf on a file's content; a missing file is the empty configuration.
  function Load(file: Option<string>): Option<seq<string>> {
    match file
    case None => Some([])
    case Some(text) => if Fits(Scan(text)) then Some(Lines(text)) else None
  }

  predicate NoNewline(raws: seq<string>) {
    forall i :: 0 <= i < |raws| ==> '\n' !in raws[i]
  }

  predicate EndsCR(l: string) { l != "" && l[|l| - 1] == '\r' }

  // Lines that survive being written and read back.
  predicate Stable(raws: seq<string>) {
    NoNewline(raws) && forall i :: 0 <= i < |raws| ==> !EndsCR(raws[i])
  }

  lemma {:induction false} ScanNoNewline(text: string)
    ensures NoNewline(Scan(text))
    decreases |text|
  {
    if text != "" {
      var n := IndexOf(text, '\n');
      NoneBefore(text, '\n');
      if n == |text| {
        assert text[..n] == text;
      } else {
        ScanNoNewline(text[n + 1..]);
      }
    }
  }

  lemma {:induction false} DropCRsAt(ls: seq<string>, i: nat)
    requires i < |ls|
    ensures DropCRs(ls)[i] == DropCR(ls[i])
  {
    if i > 0 {
      DropCRsAt(ls[1..], i - 1);
    }
  }

  lemma LinesNoNewline(text: string)
    ensures NoNewline(Lines(text))
  {
    ScanNoNewline(text);
    forall i | 0 <= i < |Lines(text)|
      ensures '\n' !in Lines(text)[i]
    {
      DropCRsAt(Scan(text), i);
    }
  }

  lemma {:induction false} ScanSerialize(raws: seq<string>)
    requires NoNewline(raws)
    ensures Scan(Serialize(raws)) == raws
  {
    if raws != [] {
      var l, tail := raws[0], Serialize(raws[1..]);
      IndexOfFirst(l, '\n', tail);
      ScanSerialize(raws[1..]);
      ScanFirst(l, tail);
      assert raws == [l] + raws[1..];
    }
  }

  lemma ScanFirst(l: string, tail: string)
    requires IndexOf(l + ['\n'] + tail, '\n') == |l|
    ensures Scan(l + "\n" + tail) == [l] + Scan(tail)
  {
    var s := l + "\n" + tail;
    assert s == l + ['\n'] + tail;
    assert s[..|l|] == l && s[|l| + 1..] == tail;
  }

  // Reading back what was written gives the same lines exactly when no line
  // holds a newline or ends in a carriage return.
  lemma ReloadExact(raws: seq<string>)
    ensures Lines(Serialize(raws)) == raws <==> Stable(raws)
  {
    var back := Lines(Serialize(raws));
    LinesNoNewline(Serialize(raws));
    if NoNewline(raws) {
      ScanSerialize(raws);
      forall i | 0 <= i < |raws|
        ensures back[i] == DropCR(raws[i]) && (back[i] == raws[i] <==> !EndsCR(raws[i]))
      {
        DropCRsAt(raws, i);
      }
    }
  }

  predicate HasCRLF(s: string) {
    exists i :: 0 <= i < |s| - 1 && s[i] == '\r' && s[i + 1] == '\n'
  }

  predicate NewlineTerminated(s: string) { s == "" || s[|s| - 1] == '\n' }

  // Loading and writing back is the identity on exactly the newline-terminated
  // texts without a CR LF pair.
  lemma {:induction false} RoundTripExact(text: string)
    ensures Serialize(Lines(text)) == text <==> NewlineTerminated(text) && !HasCRLF(text)
    decreases |text|
  {
    var n := IndexOf(text, '\n');
    NoneBefore(text, '\n');
    if text == "" {
    } else if n == |text| {
      assert text[..n] == text;
      Unterminated(text);
    } else {
      var head, rest := text[..n], text[n + 1..];
      PeelLine(text, n);
      RoundTripExact(rest);
      CRLFSplits(head, rest);
      SameWithHead(head, Serialize(Lines(rest)), rest);
      TerminatedByTail(head, rest);
    }
  }

  // A file written on Windows changes although no line was edited.
  lemma CarriageReturnIsLost()
    ensures Serialize(Lines("a\r\n")) == "a\n"
  {
    ScanFirst("a\r", "");
    assert "a\r" + "\n" + "" == "a\r\n" && ["a\r"] + [] == ["a\r"];
    DropCRsCons("a\r", []);
    SerializeCons("a", []);
    assert ["a"] + [] == ["a"] && "a" + "\n" + "" == "a\n";
  }

  // A last line without its newline gets one.
  lemma Unterminated(text: string)
    requires text != "" && '\n' !in text && IndexOf(text, '\n') == |text|
    ensures Serialize(Lines(text)) != text && !NewlineTerminated(text)
  {
    DropCRsCons(text, []);
    SerializeCons(DropCR(text), []);
    assert [text] + [] == [text] && [DropCR(text)] + [] == [DropCR(text)];
    assert '\n' in DropCR(text) + "\n" + Serialize([]);
  }

  lemma TerminatedByTail(head: string, rest: string)
    ensures NewlineTerminated(head + "\n" + rest) <==> NewlineTerminated(rest)
  {
  }

  lemma PeelLine(text: string, n: nat)
    requires n < |text| && n == IndexOf(text, '\n')
    ensures text == text[..n] + "\n" + text[n + 1..]
    ensures Serialize(Lines(text)) == DropCR(text[..n]) + "\n" + Serialize(Lines(text[n + 1..]))
  {
    Rejoin(text, n);
    LinesPeel(text, n);
    SerializeCons(DropCR(text[..n]), Lines(text[n + 1..]));
  }

  lemma LinesPeel(text: string, n: nat)
    requires n < |text| && n == IndexOf(text, '\n')
    ensures Lines(text) == [DropCR(text[..n])] + Lines(text[n + 1..])
  {
    DropCRsCons(text[..n], Scan(text[n + 1..]));
  }

  lemma Rejoin(text: string, n: nat)
    requires n < |text| && text[n] == '\n'
    ensures text == text[..n] + "\n" + text[n + 1..]
  {
  }

  lemma DropCRsCons(l: string, ls: seq<string>)
    ensures DropCRs([l] + ls) == [DropCR(l)] + DropCRs(ls)
  {
    assert ([l] + ls)[1..] == ls;
  }

  lemma SerializeCons(l: string, ls: seq<string>)
    ensures Serialize([l] + ls) == l + "\n" + Serialize(ls)
  {
    assert ([l] + ls)[1..] == ls;
  }

  lemma SameWithHead(head: string, x: string, rest: string)
    ensures DropCR(head) + "\n" + x == head + "\n" + rest <==> !EndsCR(head) && x == rest
  {
    var l, r := DropCR(head) + "\n" + x, head + "\n" + rest;
    if EndsCR(head) {
      assert l[|head| - 1] == '\n' && r[|head| - 1] == '\r';
    } else if l == r {
      assert x == l[|head| + 1..] == r[|head| + 1..] == rest;
    }
  }

  lemma CRLFSplits(head: string, rest: string)
    requires '\n' !in head
    ensures HasCRLF(head + "\n" + rest) <==> EndsCR(head) || HasCRLF(rest)
  {
    var s := head + "\n" + rest;
    if EndsCR(head) {
      assert s[|head| - 1] == '\r' && s[|head|] == '\n';
    }
    if HasCRLF(rest) {
      var i :| 0 <= i < |rest| - 1 && rest[i] == '\r' && rest[i + 1] == '\n';
      assert s[|head| + 1 + i] == '\r' && s[|head| + 1 + i + 1] == '\n';
    }
    if HasCRLF(s) && !EndsCR(head) {
      var i :| 0 <= i < |s| - 1 && s[i] == '\r' && s[i + 1] == '\n';
      assert i > |head|;
      assert rest[i - |head| - 1] == '\r' && rest[i - |head| - 1 + 1] == '\n';
    }
  }

  lemma {:induction false} SerializeInjective(a: seq<string>, b: seq<string>)
    requires NoNewline(a) && NoNewline(b)
    requires Serialize(a) == Serialize(b)
    ensures a == b
  {
    ScanSerialize(a);
    ScanSerialize(b);
  }

  // The revision is a hash of the text. Its collision freedom is a
  // hypothesis wherever a result depends on it.
  ghost predicate Injective(digest: string -> string) {
    forall x, y :: digest(x) == digest(y) ==> x == y
  }

  function Rev(digest: string -> string, raws: seq<string>): string {
    digest(Serialize(raws))
  }

  lemma SameRevSameLines(digest: string -> string, a: seq<string>, b: seq<string>)
    requires Injective(digest) && NoNewline(a) && NoNewline(b)
    requires Rev(digest, a) == Rev(digest, b)
    ensures a == b
  {
    SerializeInjective(a, b);
  }
}
