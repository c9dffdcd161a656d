// The settings of the local forwarder, edited line by line in its TOML file.
module ForwarderToml {
  import opened Text
  import opened Upstreams

  function LinesOf(content: string): (ls: seq<string>)
    ensures |ls| >= 1
  {
    SplitOn(content, '\n')
  }

  // ---- setting a key -----------------------------------------------------

  function SkipSpaces(s: string): (r: string)
    ensures |r| <= |s|
  {
    if s != "" && s[0] == ' ' then SkipSpaces(s[1..]) else s
  }

  // The key stands at the very start, with blanks at most before the equals sign.
  predicate IsSet(line: string, key: string) {
    HasPrefix(line, key) && HasPrefix(SkipSpaces(line[|key|..]), "=")
  }

  // The same behind a comment sign and blanks.
  predicate IsCommented(line: string, key: string) {
    HasPrefix(line, "#") && IsSet(SkipSpaces(line[1..]), key)
  }

  function Setting(key: string, value: string): string { key + " = " + value }

  function ReplaceSet(ls: seq<string>, key: string, value: string): (r: seq<string>)
    ensures |r| == |ls|
    ensures forall i :: 0 <= i < |ls| ==> r[i] == if IsSet(ls[i], key) then Setting(key, value) else ls[i]
  {
    if ls == [] then []
    else [if IsSet(ls[0], key) then Setting(key, value) else ls[0]] + ReplaceSet(ls[1..], key, value)
  }

  predicate AnySet(ls: seq<string>, key: string) {
    exists i :: 0 <= i < |ls| && IsSet(ls[i], key)
  }

  // The first commented line for the key, or |ls|.
  function FirstComment(ls: seq<string>, key: string): (i: nat)
    ensures i <= |ls| && (i < |ls| ==> IsCommented(ls[i], key))
    ensures forall j :: 0 <= j < i ==> !IsCommented(ls[j], key)
  {
    if ls == [] || IsCommented(ls[0], key) then 0 else 1 + FirstComment(ls[1..], key)
  }

  function SetKey(ls: seq<string>, key: string, value: string): seq<string> {
    if AnySet(ls, key) then ReplaceSet(ls, key, value)
    else
      var i := FirstComment(ls, key);
      if i < |ls| then ls[i := Setting(key, value)]
      else [Setting(key, value)] + ls  // above any [section]
  }

  function SetTomlKey(content: string, key: string, value: string): string {
    Join(SetKey(LinesOf(content), key, value), "\n")
  }

  predicate BareKey(key: string) {
    key != "" && forall i :: 0 <= i < |key| ==> key[i] == '_' || 'a' <= key[i] <= 'z'
  }

  lemma {:induction false} SettingIsSet(key: string, value: string)
    ensures IsSet(Setting(key, value), key)
  {
    var s := Setting(key, value);
    assert s[|key|..] == " = " + value;
    assert (" = " + value)[1..] == "= " + value;
  }

  // A line sets at most one key.
  lemma SetsOneKey(line: string, k1: string, k2: string)
    requires BareKey(k1) && BareKey(k2) && IsSet(line, k1) && IsSet(line, k2)
    ensures k1 == k2
  {
    KeyEnds(line, k1);
    KeyEnds(line, k2);
    assert forall i :: 0 <= i < |k1| ==> line[i] == k1[i];
    assert forall i :: 0 <= i < |k2| ==> line[i] == k2[i];
  }

  lemma KeyEnds(line: string, key: string)
    requires IsSet(line, key)
    ensures |key| < |line| && line[..|key|] == key && (line[|key|] == ' ' || line[|key|] == '=')
  {
    var rest := line[|key|..];
    assert rest != "" && rest[0] == line[|key|];
  }

  lemma CommentSetsNothing(line: string, key: string, other: string)
    requires BareKey(other) && IsCommented(line, key)
    ensures !IsSet(line, other)
  {
    assert line[0] == line[..1][0] == '#';
  }

  predicate AllSetTo(ls: seq<string>, key: string, value: string) {
    AnySet(ls, key) && forall i :: 0 <= i < |ls| && IsSet(ls[i], key) ==> ls[i] == Setting(key, value)
  }

  // Afterwards the key is set, and to nothing else anywhere.
  lemma SetKeySets(ls: seq<string>, key: string, value: string)
    requires BareKey(key)
    ensures AllSetTo(SetKey(ls, key, value), key, value)
  {
    var n, line := SetKey(ls, key, value), Setting(key, value);
    SettingIsSet(key, value);
    if AnySet(ls, key) {
      var i :| 0 <= i < |ls| && IsSet(ls[i], key);
      assert IsSet(n[i], key);
    } else {
      var i := FirstComment(ls, key);
      if i < |ls| {
        assert IsSet(n[i], key);
      } else {
        assert IsSet(n[0], key);
        assert forall j :: 1 <= j < |n| ==> n[j] == ls[j - 1];
      }
    }
  }

  // What changes: the lines that set the key, or else one commented line, or
  // else one new line at the very top.
  lemma SetKeyTouches(ls: seq<string>, key: string, value: string)
    ensures var n := SetKey(ls, key, value);
            if AnySet(ls, key) then
              |n| == |ls| && forall i :: 0 <= i < |ls| && !IsSet(ls[i], key) ==> n[i] == ls[i]
            else if exists i :: 0 <= i < |ls| && IsCommented(ls[i], key) then
              exists i :: 0 <= i < |ls| && IsCommented(ls[i], key) && n == ls[i := Setting(key, value)]
                          && forall j :: 0 <= j < i ==> !IsCommented(ls[j], key)
            else |n| == |ls| + 1 && n[1..] == ls && n[0] == Setting(key, value)
  {
  }

  // A later setting of the same key absorbs an earlier one; in particular
  // setting a key is idempotent.
  lemma SetKeyAbsorbs(ls: seq<string>, key: string, v1: string, v2: string)
    requires BareKey(key)
    ensures SetKey(SetKey(ls, key, v1), key, v2) == SetKey(ls, key, v2)
  {
    SetKeySets(ls, key, v1);
    SettingIsSet(key, v1);
    if AnySet(ls, key) {
      AbsorbsSet(ls, key, v1, v2);
    } else if FirstComment(ls, key) < |ls| {
      AbsorbsComment(ls, key, FirstComment(ls, key), v1, v2);
    } else {
      AbsorbsTop(ls, key, v1, v2);
    }
  }

  lemma AbsorbsSet(ls: seq<string>, key: string, v1: string, v2: string)
    requires IsSet(Setting(key, v1), key)
    ensures ReplaceSet(ReplaceSet(ls, key, v1), key, v2) == ReplaceSet(ls, key, v2)
  {
  }

  lemma AbsorbsComment(ls: seq<string>, key: string, c: nat, v1: string, v2: string)
    requires !AnySet(ls, key) && c < |ls| && IsSet(Setting(key, v1), key)
    ensures ReplaceSet(ls[c := Setting(key, v1)], key, v2) == ls[c := Setting(key, v2)]
  {
    assert forall i :: 0 <= i < |ls| ==> !IsSet(ls[i], key);
  }

  lemma AbsorbsTop(ls: seq<string>, key: string, v1: string, v2: string)
    requires !AnySet(ls, key) && IsSet(Setting(key, v1), key)
    ensures ReplaceSet([Setting(key, v1)] + ls, key, v2) == [Setting(key, v2)] + ls
  {
    assert forall i :: 0 <= i < |ls| ==> !IsSet(ls[i], key);
    var n := [Setting(key, v1)] + ls;
    assert forall i :: 1 <= i < |n| ==> n[i] == ls[i - 1];
  }

  // Setting one key leaves the settings of another alone.
  lemma SetKeyKeepsOther(ls: seq<string>, key: string, value: string, other: string, v: string)
    requires BareKey(key) && BareKey(other) && key != other && AllSetTo(ls, other, v)
    ensures AllSetTo(SetKey(ls, key, value), other, v)
  {
    var n, line := SetKey(ls, key, value), Setting(key, value);
    SettingIsSet(key, value);
    if IsSet(line, other) {
      SetsOneKey(line, key, other);
    }
    var w :| 0 <= w < |ls| && IsSet(ls[w], other);
    if IsSet(ls[w], key) {
      SetsOneKey(ls[w], key, other);
    }
    if IsCommented(ls[w], key) {
      CommentSetsNothing(ls[w], key, other);
    }
    LineStays(ls, key, value, w);
    OthersFromBefore(ls, n, line, other, v);
  }

  lemma LineStays(ls: seq<string>, key: string, value: string, w: nat)
    requires w < |ls| && !IsSet(ls[w], key) && !IsCommented(ls[w], key)
    ensures ls[w] in SetKey(ls, key, value)
    ensures forall l :: l in SetKey(ls, key, value) ==> l == Setting(key, value) || l in ls
  {
    var n := SetKey(ls, key, value);
    if |n| == |ls| {
      assert n[w] == ls[w];
    } else {
      assert n[w + 1] == ls[w];
    }
  }

  lemma OthersFromBefore(ls: seq<string>, n: seq<string>, line: string, other: string, v: string)
    requires AllSetTo(ls, other, v) && !IsSet(line, other)
    requires forall l :: l in n ==> l == line || l in ls
    requires exists l :: l in n && IsSet(l, other)
    ensures AllSetTo(n, other, v)
  {
    var l :| l in n && IsSet(l, other);
    var i :| 0 <= i < |n| && n[i] == l;
    forall j | 0 <= j < |n| && IsSet(n[j], other)
      ensures n[j] == Setting(other, v)
    {
      assert n[j] in ls;
      var k :| 0 <= k < |ls| && ls[k] == n[j];
    }
  }

  // ---- writing and reading back the provider ------------------------------

  const SERVER_NAMES := "server_names"
  const LISTEN := "listen_addresses"
  const CACHE := "cache"
  const LISTEN_VALUE := "['127.0.0.1:5053']"

  function ResolverName(p: Provider): string {
    match p
    case Cloudflare => "cloudflare"
    case Quad9 => "quad9-doh-ip4-port443-filter-pri"
    case Google => "google"
  }

  function Quoted(p: Provider): string { "'" + ResolverName(p) + "'" }

  // writeEncConfig on the file's content.
  function WithProvider(content: string, p: Provider): string {
    var named := SetTomlKey(content, SERVER_NAMES, "[" + Quoted(p) + "]");
    SetTomlKey(SetTomlKey(named, LISTEN, LISTEN_VALUE), CACHE, "false")
  }

  // What follows the bracket that opens the key's value, on a line that has it.
  function Opened(line: string, key: string): Option<string> {
    if !IsSet(line, key) then None
    else
      var value := SkipSpaces(SkipSpaces(line[|key|..])[1..]);
      if HasPrefix(value, "[") then Some(value[1..]) else None
  }

  // The bracketed list of the first match; the list may run over several lines.
  function ListOf(ls: seq<string>, key: string): Option<string> {
    if ls == [] then None
    else
      match Opened(ls[0], key)
      case None => ListOf(ls[1..], key)
      case Some(rest) =>
        var text := if |ls| == 1 then rest else rest + "\n" + Join(ls[1..], "\n");
        var end := IndexOf(text, ']');
        if end < |text| then Some(text[..end]) else ListOf(ls[1..], key)
  }

  function Names(content: string): Option<string> { ListOf(LinesOf(content), SERVER_NAMES) }

  predicate Contains(s: string, t: string) {
    exists i :: 0 <= i <= |s| - |t| && s[i..][..|t|] == t
  }

  predicate Mentions(names: string, p: Provider) {
    Contains(names, Quoted(p)) || Contains(names, "\"" + ResolverName(p) + "\"")
  }

  datatype Reading = NotSet | Custom | Is(provider: Provider)

  // currentEncProvider: the providers are tried in no fixed order, so any one
  // that is mentioned may be reported.
  predicate MayRead(content: string, r: Reading) {
    match Names(content)
    case None => r == NotSet
    case Some(names) =>
      match r
      case NotSet => false
      case Is(p) => Mentions(names, p)
      case Custom => !Mentions(names, Cloudflare) && !Mentions(names, Quad9) && !Mentions(names, Google)
  }

  lemma SetKeyNewlineFree(ls: seq<string>, key: string, value: string)
    requires AllFree(ls, '\n') && '\n' !in key && '\n' !in value
    ensures AllFree(SetKey(ls, key, value), '\n')
  {
    assert '\n' !in Setting(key, value);
  }

  lemma SetTomlKeyLines(content: string, key: string, value: string)
    requires '\n' !in key && '\n' !in value
    ensures LinesOf(SetTomlKey(content, key, value)) == SetKey(LinesOf(content), key, value)
  {
    SplitOnFree(content, '\n');
    SetKeyNewlineFree(LinesOf(content), key, value);
    SplitOfJoin(SetKey(LinesOf(content), key, value), '\n');
  }

  lemma {:induction false} ListOfSetting(ls: seq<string>, key: string, names: string)
    requires AllSetTo(ls, key, "[" + names + "]") && ']' !in names
    ensures ListOf(ls, key) == Some(names)
  {
    if IsSet(ls[0], key) {
      OpenedSetting(key, names);
      FirstBracket(names, if |ls| == 1 then "" else "\n" + Join(ls[1..], "\n"));
      assert names + "]" + "" == names + "]";
      assert |ls| > 1 ==> names + "]" + "\n" + Join(ls[1..], "\n") == names + "]" + ("\n" + Join(ls[1..], "\n"));
    } else {
      AllSetToTail(ls, key, "[" + names + "]");
      ListOfSetting(ls[1..], key, names);
    }
  }

  lemma AllSetToTail(ls: seq<string>, key: string, value: string)
    requires AllSetTo(ls, key, value) && !IsSet(ls[0], key)
    ensures AllSetTo(ls[1..], key, value)
  {
    var i :| 0 <= i < |ls| && IsSet(ls[i], key);
    assert IsSet(ls[1..][i - 1], key);
    assert forall j :: 0 <= j < |ls[1..]| ==> ls[1..][j] == ls[j + 1];
  }

  lemma FirstBracket(names: string, after: string)
    requires ']' !in names
    ensures IndexOf(names + "]" + after, ']') == |names| && (names + "]" + after)[..|names|] == names
  {
    IndexOfFirst(names, ']', after);
    assert names + "]" + after == names + [']'] + after;
  }

  lemma SkipOne(s: string)
    requires s != "" && s[0] != ' '
    ensures SkipSpaces(" " + s) == s && SkipSpaces(s) == s
  {
    assert (" " + s)[1..] == s;
  }

  lemma AfterKey(key: string, value: string)
    ensures SkipSpaces(Setting(key, value)[|key|..]) == "= " + value
  {
    assert Setting(key, value)[|key|..] == " " + ("= " + value);
    SkipOne("= " + value);
  }

  lemma AfterEquals(value: string)
    requires value != "" && value[0] != ' '
    ensures SkipSpaces(("= " + value)[1..]) == value
  {
    assert ("= " + value)[1..] == " " + value;
    SkipOne(value);
  }

  lemma BracketFirst(names: string)
    ensures HasPrefix("[" + names + "]", "[") && ("[" + names + "]")[1..] == names + "]"
  {
  }

  lemma OpenedSetting(key: string, names: string)
    ensures Opened(Setting(key, "[" + names + "]"), key) == Some(names + "]")
  {
    SettingIsSet(key, "[" + names + "]");
    AfterKey(key, "[" + names + "]");
    AfterEquals("[" + names + "]");
    BracketFirst(names);
  }

  // A quoted name is found in another quoted name only if they are equal.
  lemma QuotedInQuoted(m: string, t: string)
    requires '\'' !in m && '\'' !in t
    ensures Contains("'" + m + "'", "'" + t + "'") <==> m == t
  {
    var s, q := "'" + m + "'", "'" + t + "'";
    if Contains(s, q) {
      var i :| 0 <= i <= |s| - |q| && s[i..][..|q|] == q;
      assert s[i] == s[i..][..|q|][0] == '\'';
      assert i == 0;
      assert s[..|q|] == q;
      assert s[|t| + 1] == q[|t| + 1] == '\'';
      assert m == s[1..|m| + 1] && t == q[1..|t| + 1];
    }
    if m == t {
      assert s[0..][..|q|] == q;
    }
  }

  lemma NoDoubleQuotes(s: string, q: string)
    requires '"' !in s && |q| > 0 && q[0] == '"'
    ensures !Contains(s, q)
  {
    assert forall i :: 0 <= i <= |s| - |q| ==> s[i..][..|q|][0] == s[i];
  }

  lemma QuotedExact(m: string, t: string)
    requires '\'' !in m && '"' !in m && '\'' !in t
    ensures Contains("'" + m + "'", "'" + t + "'") || Contains("'" + m + "'", "\"" + t + "\"") <==> m == t
  {
    QuotedInQuoted(m, t);
    NoDoubleQuotes("'" + m + "'", "\"" + t + "\"");
  }

  lemma NoQuotesInName(p: Provider)
    ensures '\'' !in ResolverName(p)
  {
  }

  lemma NoDoubleQuotesInName(p: Provider)
    ensures '"' !in ResolverName(p)
  {
  }

  lemma NoBracketInName(p: Provider)
    ensures ']' !in ResolverName(p)
  {
  }

  lemma NoNewlineInName(p: Provider)
    ensures '\n' !in ResolverName(p)
  {
  }

  lemma MentionsItself(p: Provider, q: Provider)
    ensures Mentions(Quoted(p), q) <==> p == q
  {
    NoQuotesInName(p);
    NoDoubleQuotesInName(p);
    NoQuotesInName(q);
    QuotedExact(ResolverName(p), ResolverName(q));
    NamesDiffer(p, q);
  }

  lemma NamesDiffer(p: Provider, q: Provider)
    ensures ResolverName(p) == ResolverName(q) <==> p == q
  {
    assert ResolverName(Cloudflare)[0] == 'c' && ResolverName(Quad9)[0] == 'q' && ResolverName(Google)[0] == 'g';
  }

  lemma TheKeys()
    ensures BareKey(SERVER_NAMES) && BareKey(LISTEN) && BareKey(CACHE)
    ensures SERVER_NAMES != LISTEN && SERVER_NAMES != CACHE && LISTEN != CACHE
    ensures '\n' !in SERVER_NAMES && '\n' !in LISTEN && '\n' !in CACHE && '\n' !in LISTEN_VALUE && '\n' !in "false"
  {
    assert |SERVER_NAMES| == 12 && |LISTEN| == 16 && |CACHE| == 5;
  }

  // One call on the text: it sets its key and keeps what another key says.
  lemma SetTomlKeeps(content: string, key: string, value: string, other: string, v: string)
    requires BareKey(key) && BareKey(other) && key != other && '\n' !in key && '\n' !in value
    requires AllSetTo(LinesOf(content), other, v)
    ensures AllSetTo(LinesOf(SetTomlKey(content, key, value)), other, v)
  {
    SetTomlKeyLines(content, key, value);
    SetKeyKeepsOther(LinesOf(content), key, value, other, v);
  }

  // Three settings in a row: the first one still stands.
  lemma FirstStands(content: string, k1: string, v1: string, k2: string, v2: string, k3: string, v3: string)
    requires BareKey(k1) && BareKey(k2) && BareKey(k3) && k1 != k2 && k1 != k3
    requires '\n' !in k1 + v1 && '\n' !in k2 + v2 && '\n' !in k3 + v3
    ensures AllSetTo(LinesOf(SetTomlKey(SetTomlKey(SetTomlKey(content, k1, v1), k2, v2), k3, v3)), k1, v1)
  {
    var c1 := SetTomlKey(content, k1, v1);
    NotInParts(k1, v1);
    NotInParts(k2, v2);
    NotInParts(k3, v3);
    SetTomlKeyLines(content, k1, v1);
    SetKeySets(LinesOf(content), k1, v1);
    SetTomlKeeps(c1, k2, v2, k1, v1);
    SetTomlKeeps(SetTomlKey(c1, k2, v2), k3, v3, k1, v1);
  }

  lemma NotInParts(a: string, b: string)
    requires '\n' !in a + b
    ensures '\n' !in a && '\n' !in b
  {
    assert forall i :: 0 <= i < |a| ==> (a + b)[i] == a[i];
    assert forall i :: 0 <= i < |b| ==> (a + b)[|a| + i] == b[i];
  }

  lemma ProviderIsSet(content: string, p: Provider)
    ensures AllSetTo(LinesOf(WithProvider(content, p)), SERVER_NAMES, "[" + Quoted(p) + "]")
  {
    TheKeys();
    NoNewlineInName(p);
    FirstStands(content, SERVER_NAMES, "[" + Quoted(p) + "]", LISTEN, LISTEN_VALUE, CACHE, "false");
  }

  // Whatever the file held, the provider written is the one read back.
  lemma ProviderRoundTrip(content: string, p: Provider, r: Reading)
    ensures MayRead(WithProvider(content, p), r) <==> r == Is(p)
  {
    ProviderNames(content, p);
    ReadsNames(WithProvider(content, p), p, r);
  }

  lemma ProviderNames(content: string, p: Provider)
    ensures Names(WithProvider(content, p)) == Some(Quoted(p))
  {
    ProviderIsSet(content, p);
    NoBracketInName(p);
    ListOfSetting(LinesOf(WithProvider(content, p)), SERVER_NAMES, Quoted(p));
  }

  lemma ReadsNames(content: string, p: Provider, r: Reading)
    requires Names(content) == Some(Quoted(p))
    ensures MayRead(content, r) <==> r == Is(p)
  {
    match r
    case NotSet =>
    case Is(q) => MentionsItself(p, q);
    case Custom => NeverCustom(p);
  }

  lemma NeverCustom(p: Provider)
    ensures Mentions(Quoted(p), Cloudflare) || Mentions(Quoted(p), Quad9) || Mentions(Quoted(p), Google)
  {
    MentionsItself(p, p);
    match p
    case Cloudflare =>
    case Quad9 =>
    case Google =>
  }

  // ---- switching providers back and forth ---------------------------------

  lemma BareHasNoNewline(key: string)
    requires BareKey(key)
    ensures '\n' !in key
  {
  }

  // On the text: the later setting of a key alone decides.
  lemma SetTomlKeyAbsorbs(content: string, key: string, v1: string, v2: string)
    requires BareKey(key) && '\n' !in v1
    ensures SetTomlKey(SetTomlKey(content, key, v1), key, v2) == SetTomlKey(content, key, v2)
  {
    BareHasNoNewline(key);
    SetTomlKeyLines(content, key, v1);
    SetKeyAbsorbs(LinesOf(content), key, v1, v2);
  }

  // Writing a value into the lines that set one key moves nothing that
  // matters to another.
  lemma SameMarks(line: string, k1: string, w: string, k2: string)
    requires BareKey(k1) && BareKey(k2) && k1 != k2 && IsSet(line, k1)
    ensures !IsSet(line, k2) && !IsSet(Setting(k1, w), k2)
    ensures !IsCommented(line, k2) && !IsCommented(Setting(k1, w), k2)
  {
    SettingIsSet(k1, w);
    if IsSet(line, k2) {
      SetsOneKey(line, k1, k2);
    }
    if IsSet(Setting(k1, w), k2) {
      SetsOneKey(Setting(k1, w), k1, k2);
    }
    if IsCommented(line, k2) {
      CommentSetsNothing(line, k2, k1);
    }
    if IsCommented(Setting(k1, w), k2) {
      CommentSetsNothing(Setting(k1, w), k2, k1);
    }
  }

  lemma MarksStay(ls: seq<string>, k1: string, w: string, k2: string)
    requires BareKey(k1) && BareKey(k2) && k1 != k2
    ensures forall i :: 0 <= i < |ls| ==> (IsSet(ReplaceSet(ls, k1, w)[i], k2) <==> IsSet(ls[i], k2))
    ensures forall i :: 0 <= i < |ls| ==> (IsCommented(ReplaceSet(ls, k1, w)[i], k2) <==> IsCommented(ls[i], k2))
  {
    forall i | 0 <= i < |ls| && IsSet(ls[i], k1)
      ensures !IsSet(ls[i], k2) && !IsSet(Setting(k1, w), k2)
      ensures !IsCommented(ls[i], k2) && !IsCommented(Setting(k1, w), k2)
    {
      SameMarks(ls[i], k1, w, k2);
    }
  }

  lemma SamePlaces(ls: seq<string>, n: seq<string>, key: string)
    requires |n| == |ls|
    requires forall i :: 0 <= i < |ls| ==> (IsSet(n[i], key) <==> IsSet(ls[i], key))
    requires forall i :: 0 <= i < |ls| ==> (IsCommented(n[i], key) <==> IsCommented(ls[i], key))
    ensures AnySet(n, key) <==> AnySet(ls, key)
    ensures FirstComment(n, key) == FirstComment(ls, key)
  {
    if AnySet(ls, key) {
      var i :| 0 <= i < |ls| && IsSet(ls[i], key);
      assert IsSet(n[i], key);
    }
    var a, b := FirstComment(ls, key), FirstComment(n, key);
    assert !(a < b) && !(b < a);
  }

  // Setting one key and overwriting the settings of another commute.
  lemma SetAndReplace(ls: seq<string>, k1: string, w: string, k2: string, v: string)
    requires BareKey(k1) && BareKey(k2) && k1 != k2
    ensures SetKey(ReplaceSet(ls, k1, w), k2, v) == ReplaceSet(SetKey(ls, k2, v), k1, w)
  {
    MarksStay(ls, k1, w, k2);
    SamePlaces(ls, ReplaceSet(ls, k1, w), k2);
    SettingIsSet(k2, v);
    if IsSet(Setting(k2, v), k1) {
      SetsOneKey(Setting(k2, v), k2, k1);
    }
    if AnySet(ls, k2) {
      BothReplaced(ls, k1, w, k2, v);
    } else if FirstComment(ls, k2) < |ls| {
      var c := FirstComment(ls, k2);
      CommentSetsNothing(ls[c], k2, k1);
      OneReplaced(ls, k1, w, c, Setting(k2, v));
    } else {
      TopReplaced(ls, k1, w, Setting(k2, v));
    }
  }

  function LineSet(line: string, key: string, value: string): string {
    if IsSet(line, key) then Setting(key, value) else line
  }

  lemma LineCommutes(line: string, k1: string, w: string, k2: string, v: string)
    requires BareKey(k1) && BareKey(k2) && k1 != k2 && !IsSet(Setting(k2, v), k1)
    ensures LineSet(LineSet(line, k1, w), k2, v) == LineSet(LineSet(line, k2, v), k1, w)
  {
    if IsSet(line, k1) {
      SameMarks(line, k1, w, k2);
    }
  }

  lemma TwiceAt(ls: seq<string>, k1: string, w: string, k2: string, v: string, i: nat)
    requires i < |ls|
    ensures ReplaceSet(ReplaceSet(ls, k1, w), k2, v)[i] == LineSet(LineSet(ls[i], k1, w), k2, v)
  {
    assert ReplaceSet(ls, k1, w)[i] == LineSet(ls[i], k1, w);
  }

  lemma BothReplaced(ls: seq<string>, k1: string, w: string, k2: string, v: string)
    requires BareKey(k1) && BareKey(k2) && k1 != k2 && !IsSet(Setting(k2, v), k1)
    ensures ReplaceSet(ReplaceSet(ls, k1, w), k2, v) == ReplaceSet(ReplaceSet(ls, k2, v), k1, w)
  {
    forall i | 0 <= i < |ls|
      ensures ReplaceSet(ReplaceSet(ls, k1, w), k2, v)[i] == ReplaceSet(ReplaceSet(ls, k2, v), k1, w)[i]
    {
      TwiceAt(ls, k1, w, k2, v, i);
      TwiceAt(ls, k2, v, k1, w, i);
      LineCommutes(ls[i], k1, w, k2, v);
    }
  }

  lemma OneReplaced(ls: seq<string>, key: string, w: string, c: nat, line: string)
    requires c < |ls| && !IsSet(ls[c], key) && !IsSet(line, key)
    ensures ReplaceSet(ls, key, w)[c := line] == ReplaceSet(ls[c := line], key, w)
  {
  }

  lemma TopReplaced(ls: seq<string>, key: string, w: string, line: string)
    requires !IsSet(line, key)
    ensures [line] + ReplaceSet(ls, key, w) == ReplaceSet([line] + ls, key, w)
  {
    assert ([line] + ls)[1..] == ls;
  }

  lemma AlreadySet(ls: seq<string>, key: string, v: string)
    requires AllSetTo(ls, key, v)
    ensures SetKey(ls, key, v) == ls
  {
  }

  function Three(ls: seq<string>, k1: string, v1: string, k2: string, v2: string, k3: string, v3: string): seq<string> {
    SetKey(SetKey(SetKey(ls, k1, v1), k2, v2), k3, v3)
  }

  predicate Distinct(k1: string, k2: string, k3: string) {
    BareKey(k1) && BareKey(k2) && BareKey(k3) && k1 != k2 && k1 != k3 && k2 != k3
  }

  lemma ThreeStand(ls: seq<string>, k1: string, v1: string, k2: string, v2: string, k3: string, v3: string)
    requires Distinct(k1, k2, k3)
    ensures AllSetTo(Three(ls, k1, v1, k2, v2, k3, v3), k1, v1)
    ensures AllSetTo(Three(ls, k1, v1, k2, v2, k3, v3), k2, v2)
    ensures AllSetTo(Three(ls, k1, v1, k2, v2, k3, v3), k3, v3)
  {
    var a := SetKey(ls, k1, v1);
    var b := SetKey(a, k2, v2);
    SetKeySets(ls, k1, v1);
    SetKeyKeepsOther(a, k2, v2, k1, v1);
    SetKeyKeepsOther(b, k3, v3, k1, v1);
    SetKeySets(a, k2, v2);
    SetKeyKeepsOther(b, k3, v3, k2, v2);
    SetKeySets(b, k3, v3);
  }

  // Only the first of three settings differs: doing all three again is
  // overwriting that one.
  lemma ThreeAgain(ls: seq<string>, k1: string, w: string, k2: string, v2: string, k3: string, v3: string)
    requires Distinct(k1, k2, k3) && AnySet(ls, k1) && AllSetTo(ls, k2, v2) && AllSetTo(ls, k3, v3)
    ensures Three(ls, k1, w, k2, v2, k3, v3) == ReplaceSet(ls, k1, w)
  {
    SetKeyKeepsOther(ls, k1, w, k2, v2);
    SetKeyKeepsOther(ls, k1, w, k3, v3);
    AlreadySet(ReplaceSet(ls, k1, w), k2, v2);
    AlreadySet(ReplaceSet(ls, k1, w), k3, v3);
  }

  lemma ThreeAbsorb(ls: seq<string>, k1: string, v: string, w: string, k2: string, v2: string, k3: string, v3: string)
    requires Distinct(k1, k2, k3)
    ensures Three(Three(ls, k1, v, k2, v2, k3, v3), k1, w, k2, v2, k3, v3) == Three(ls, k1, w, k2, v2, k3, v3)
  {
    var a := SetKey(ls, k1, v);
    ThreeStand(ls, k1, v, k2, v2, k3, v3);
    ThreeAgain(Three(ls, k1, v, k2, v2, k3, v3), k1, w, k2, v2, k3, v3);
    SetKeySets(ls, k1, v);
    SetKeyAbsorbs(ls, k1, v, w);
    SetAndReplace(a, k1, w, k2, v2);
    SetAndReplace(SetKey(a, k2, v2), k1, w, k3, v3);
  }

  lemma ProviderLines(content: string, p: Provider)
    ensures WithProvider(content, p) ==
            Join(Three(LinesOf(content), SERVER_NAMES, "[" + Quoted(p) + "]", LISTEN, LISTEN_VALUE, CACHE, "false"),
                 "\n")
    ensures LinesOf(WithProvider(content, p)) ==
            Three(LinesOf(content), SERVER_NAMES, "[" + Quoted(p) + "]", LISTEN, LISTEN_VALUE, CACHE, "false")
  {
    TheKeys();
    NoNewlineInName(p);
    var named := SetTomlKey(content, SERVER_NAMES, "[" + Quoted(p) + "]");
    SetTomlKeyLines(content, SERVER_NAMES, "[" + Quoted(p) + "]");
    SetTomlKeyLines(named, LISTEN, LISTEN_VALUE);
    SetTomlKeyLines(SetTomlKey(named, LISTEN, LISTEN_VALUE), CACHE, "false");
  }

  // Whatever the file held and whichever provider was chosen before, the file
  // is the one that the last choice alone would have made.
  lemma LastProviderWins(content: string, p1: Provider, p2: Provider)
    ensures WithProvider(WithProvider(content, p1), p2) == WithProvider(content, p2)
  {
    TheKeys();
    ProviderLines(content, p1);
    ProviderLines(content, p2);
    ProviderLines(WithProvider(content, p1), p2);
    ThreeAbsorb(LinesOf(content), SERVER_NAMES, "[" + Quoted(p1) + "]", "[" + Quoted(p2) + "]",
                LISTEN, LISTEN_VALUE, CACHE, "false");
  }
}
