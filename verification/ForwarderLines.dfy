// The forwarder's file, line by line: which lines set a key, what the lines
// written by a switch of provider say, and how a hand-written list is read.
module ForwarderLines {
  import opened Text
  import opened Upstreams
  import opened ForwarderToml

  predicate Spaces(s: string) { forall i :: 0 <= i < |s| ==> s[i] == ' ' }

  lemma {:induction false} SkipsSpaces(a: string, s: string)
    requires Spaces(a) && (s == "" || s[0] != ' ')
    ensures SkipSpaces(a + s) == s
  {
    if a == "" {
      assert a + s == s;
    } else {
      assert (a + s)[1..] == a[1..] + s;
      SkipsSpaces(a[1..], s);
    }
  }

  lemma {:induction false} SkippedParts(s: string) returns (a: string)
    ensures Spaces(a) && s == a + SkipSpaces(s) && (SkipSpaces(s) == "" || SkipSpaces(s)[0] != ' ')
  {
    if s != "" && s[0] == ' ' {
      var rest := SkippedParts(s[1..]);
      a := " " + rest;
      assert s == [' '] + s[1..];
    } else {
      a := "";
    }
  }

  lemma StartsWith(p: string, s: string)
    ensures HasPrefix(p + s, p) && (p + s)[|p|..] == s
  {
  }

  lemma PrefixParts(s: string, p: string)
    requires HasPrefix(s, p)
    ensures s == p + s[|p|..]
  {
  }

  // A line sets a key exactly if it is the key, blanks, and an equals sign.
  lemma SetLine(key: string, a: string, rest: string)
    requires Spaces(a)
    ensures IsSet(key + a + "=" + rest, key)
  {
    var line := key + a + "=" + rest;
    assert line == key + (a + ("=" + rest));
    StartsWith(key, a + ("=" + rest));
    SkipsSpaces(a, "=" + rest);
    StartsWith("=", rest);
  }

  lemma SetLineParts(line: string, key: string) returns (a: string, rest: string)
    requires IsSet(line, key)
    ensures Spaces(a) && line == key + a + "=" + rest
  {
    PrefixParts(line, key);
    a := SkippedParts(line[|key|..]);
    var s := SkipSpaces(line[|key|..]);
    PrefixParts(s, "=");
    rest := s[1..];
    assert key + (a + ("=" + rest)) == key + a + "=" + rest;
  }

  // It has the key commented out exactly if that stands behind a comment sign
  // and blanks.
  lemma CommentLine(key: string, a: string, b: string, rest: string)
    requires Spaces(a) && Spaces(b) && BareKey(key)
    ensures IsCommented("#" + (a + (key + b + "=" + rest)), key)
  {
    var set_ := key + b + "=" + rest;
    StartsWith("#", a + set_);
    assert set_[0] == key[0];
    SkipsSpaces(a, set_);
    SetLine(key, b, rest);
  }

  lemma CommentLineParts(line: string, key: string) returns (a: string, b: string, rest: string)
    requires IsCommented(line, key)
    ensures Spaces(a) && Spaces(b) && line == "#" + (a + (key + b + "=" + rest))
  {
    PrefixParts(line, "#");
    a := SkippedParts(line[1..]);
    b, rest := SetLineParts(SkipSpaces(line[1..]), key);
  }

  // ---- what a switch of provider writes ------------------------------------

  function ServerNamesLine(p: Provider): string {
    var name := match p
      case Cloudflare => "cloudflare"
      case Quad9 => "quad9-doh-ip4-port443-filter-pri"
      case Google => "google";
    "server_names = ['" + name + "']"
  }

  predicate AllSay(ls: seq<string>, key: string, line: string) {
    line in ls && forall l :: l in ls && IsSet(l, key) ==> l == line
  }

  lemma SaysTheLine(ls: seq<string>, key: string, value: string)
    requires AllSetTo(ls, key, value)
    ensures AllSay(ls, key, key + " = " + value)
  {
    var i :| 0 <= i < |ls| && IsSet(ls[i], key);
    assert ls[i] in ls;
  }

  // The file then names the provider, listens on the forwarder's address and
  // leaves caching to dnsmasq, in just these words and nowhere otherwise.
  lemma ProviderSettings(content: string, p: Provider)
    ensures AllSay(LinesOf(WithProvider(content, p)), "server_names", ServerNamesLine(p))
    ensures AllSay(LinesOf(WithProvider(content, p)), "listen_addresses", "listen_addresses = ['127.0.0.1:5053']")
    ensures AllSay(LinesOf(WithProvider(content, p)), "cache", "cache = false")
  {
    var ls := LinesOf(WithProvider(content, p));
    TheKeys();
    ProviderLines(content, p);
    ThreeStand(LinesOf(content), SERVER_NAMES, "[" + Quoted(p) + "]", LISTEN, LISTEN_VALUE, CACHE, "false");
    SaysTheLine(ls, SERVER_NAMES, "[" + Quoted(p) + "]");
    SaysTheLine(ls, LISTEN, LISTEN_VALUE);
    SaysTheLine(ls, CACHE, "false");
    NamesText(ResolverName(p));
    ListenText();
    CacheText();
  }

  lemma NamesText(name: string)
    ensures "server_names" + " = " + ("[" + ("'" + name + "'") + "]") == "server_names = ['" + name + "']"
  {
    assert "server_names" + " = " + "[" + "'" == "server_names = ['";
    assert "server_names" + " = " + ("[" + ("'" + name + "'") + "]")
        == ("server_names" + " = " + "[" + "'") + name + "']";
  }

  lemma ListenText()
    ensures "listen_addresses" + " = " + "['127.0.0.1:5053']" == "listen_addresses = ['127.0.0.1:5053']"
  {
  }

  lemma CacheText()
    ensures "cache" + " = " + "false" == "cache = false"
  {
  }

  // ---- reading a list --------------------------------------------------------

  lemma OpensList(key: string, a: string, b: string, rest: string)
    requires Spaces(a) && Spaces(b)
    ensures Opened(key + a + "=" + (b + ("[" + rest)), key) == Some(rest)
  {
    var line := key + a + "=" + (b + ("[" + rest));
    SetLine(key, a, b + ("[" + rest));
    assert line == key + (a + ("=" + (b + ("[" + rest))));
    StartsWith(key, a + ("=" + (b + ("[" + rest))));
    SkipsSpaces(a, "=" + (b + ("[" + rest)));
    StartsWith("=", b + ("[" + rest));
    SkipsSpaces(b, "[" + rest);
    StartsWith("[", rest);
  }

  lemma ListHere(line: string, key: string, inner: string, behind: string, after: seq<string>)
    requires Opened(line, key) == Some(inner + "]" + behind) && ']' !in inner
    ensures ListOf([line] + after, key) == Some(inner)
  {
    var ls := [line] + after;
    assert ls[0] == line && ls[1..] == after;
    var more := if after == [] then "" else "\n" + Join(after, "\n");
    EndsAtBracket(inner, behind, more);
    if after == [] {
      assert inner + "]" + behind + "" == inner + "]" + behind;
    } else {
      assert inner + "]" + behind + "\n" + Join(after, "\n") == inner + "]" + behind + more;
    }
  }

  lemma {:induction false} FirstListCounts(before: seq<string>, line: string, key: string, inner: string,
                                           behind: string, after: seq<string>)
    requires Opened(line, key) == Some(inner + "]" + behind) && ']' !in inner
    requires forall i :: 0 <= i < |before| ==> !IsSet(before[i], key)
    ensures ListOf(before + ([line] + after), key) == Some(inner)
    decreases |before|
  {
    if before == [] {
      assert before + ([line] + after) == [line] + after;
      ListHere(line, key, inner, behind, after);
    } else {
      assert (before + ([line] + after))[1..] == before[1..] + ([line] + after);
      assert forall i :: 0 <= i < |before[1..]| ==> before[1..][i] == before[i + 1];
      FirstListCounts(before[1..], line, key, inner, behind, after);
    }
  }

  // Of several lists for a key the first counts. It may have blanks around
  // the equals sign, and ends at the first closing bracket.
  lemma ReadsList(before: seq<string>, key: string, a: string, b: string, inner: string, behind: string,
                  after: seq<string>)
    requires Spaces(a) && Spaces(b) && ']' !in inner
    requires forall i :: 0 <= i < |before| ==> !IsSet(before[i], key)
    ensures ListOf(before + ([key + a + "=" + (b + ("[" + (inner + "]" + behind)))] + after), key) == Some(inner)
  {
    OpensList(key, a, b, inner + "]" + behind);
    FirstListCounts(before, key + a + "=" + (b + ("[" + (inner + "]" + behind))), key, inner, behind, after);
  }

  lemma EndsAtBracket(inner: string, behind: string, more: string)
    requires ']' !in inner
    ensures IndexOf(inner + "]" + behind + more, ']') == |inner|
    ensures (inner + "]" + behind + more)[..|inner|] == inner
  {
    IndexOfFirst(inner, ']', behind + more);
    assert inner + "]" + behind + more == inner + [']'] + (behind + more);
  }

  // A list may go over any number of lines.
  lemma ReadsOverLines(key: string, a: string, b: string, inner: string, behind: string)
    requires Spaces(a) && Spaces(b) && BareKey(key) && ']' !in inner
    ensures ListOf(LinesOf(key + a + "=" + (b + ("[" + (inner + "]" + behind)))), key) == Some(inner)
  {
    var head, rest := key + a + "=" + (b + "["), inner + "]" + behind;
    assert key + a + "=" + (b + ("[" + rest)) == head + rest;
    BareHasNoNewline(key);
    assert '\n' !in head;
    FirstLine(head, rest);
    var n := IndexOf(rest, '\n');
    assert head + rest[..n] == key + a + "=" + (b + ("[" + rest[..n]));
    OpensList(key, a, b, rest[..n]);
    if n < |rest| {
      JoinOfSplit(rest[n + 1..], '\n');
      SplitBack(rest, n);
      ListGoesOn(head + rest[..n], key, rest[..n], SplitOn(rest[n + 1..], '\n'), inner, behind);
    } else {
      assert rest[..n] == rest;
      assert [head + rest] + [] == [head + rest];
      ListHere(head + rest, key, inner, behind, []);
    }
  }

  lemma FirstLine(head: string, rest: string)
    requires '\n' !in head
    ensures var n := IndexOf(rest, '\n');
            SplitOn(head + rest, '\n') ==
            [head + rest[..n]] + if n < |rest| then SplitOn(rest[n + 1..], '\n') else []
  {
    var n := IndexOf(rest, '\n');
    NoneBefore(rest, '\n');
    if n < |rest| {
      SplitBack(rest, n);
      assert head + rest == (head + rest[..n]) + ['\n'] + rest[n + 1..];
      IndexOfFirst(head + rest[..n], '\n', rest[n + 1..]);
      assert IndexOf(head + rest, '\n') == |head| + n;
      assert (head + rest)[..|head| + n] == head + rest[..n];
      assert (head + rest)[|head| + n + 1..] == rest[n + 1..];
    } else {
      assert rest[..n] == rest;
      IndexOfNone(head + rest, '\n');
    }
  }

  lemma ListGoesOn(line: string, key: string, x: string, more: seq<string>, inner: string, behind: string)
    requires Opened(line, key) == Some(x) && more != [] && ']' !in inner
    requires x + ['\n'] + Join(more, "\n") == inner + "]" + behind
    ensures ListOf([line] + more, key) == Some(inner)
  {
    var ls := [line] + more;
    assert ls[0] == line && ls[1..] == more;
    EndsAtBracket(inner, behind, "");
    assert inner + "]" + behind + "" == inner + "]" + behind;
  }

  // A file that never sets the key holds no list.
  lemma {:induction false} ReadsNothing(ls: seq<string>, key: string)
    requires forall i :: 0 <= i < |ls| ==> !IsSet(ls[i], key)
    ensures ListOf(ls, key) == None
  {
    if ls != [] {
      assert forall i :: 0 <= i < |ls[1..]| ==> ls[1..][i] == ls[i + 1];
      ReadsNothing(ls[1..], key);
    }
  }

  // In a hand-written list a provider counts in single or in double quotes.
  lemma EitherQuote(content: string, p: Provider, a: string, quote: string, b: string)
    requires quote == "'" || quote == "\""
    requires ListOf(LinesOf(content), "server_names") == Some(a + (quote + ResolverName(p) + quote) + b)
    ensures MayRead(content, Is(p)) && !MayRead(content, Custom) && !MayRead(content, NotSet)
  {
    var text := quote + ResolverName(p) + quote;
    assert (a + text + b)[|a|..][..|text|] == text;
    assert Contains(a + text + b, text);
  }
}
