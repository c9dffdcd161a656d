// What each edit of the configuration means, on the file as a list of raw
// lines. The in-place algorithms of ConfStore are proved against these.
module ConfEdits {
  import opened Text
  import opened ConfText
  import opened Filtering

  function Has(key: string): string -> bool {
    (raw: string) => KeyOf(raw) == key
  }

  function Entries(raws: seq<string>, key: string): seq<string> { Pick(raws, Has(key)) }

  function Others(raws: seq<string>, key: string): seq<string> { Drop(raws, Has(key)) }

  predicate Present(raws: seq<string>, key: string) { LastOf(raws, Has(key)) >= 0 }

  // dnsmasq takes the last value of a repeated option.
  function Scalar(raws: seq<string>, key: string): Option<string> {
    var i := LastOf(raws, Has(key));
    if i >= 0 then Some(ValueOf(raws[i])) else None
  }

  // ---- the edits ---------------------------------------------------------

  datatype Why = NoSuchLine | Conflict | HasNewline | BadRequest

  datatype Edited = Accepted(raws: seq<string>) | Refused(why: Why)

  function AddedAt(raws: seq<string>, key: string): (at: nat)
    ensures at <= |raws|
  {
    InsertPoint(raws, Has(key))
  }

  function Added(raws: seq<string>, key: string, value: string, flag: bool): seq<string> {
    InsertAt(raws, AddedAt(raws, key), RenderLine(key, value, flag))
  }

  predicate Exists(raws: seq<string>, idx: int) { 0 <= idx < |raws| }

  // A blank guard never fails.
  predicate GuardFails(raws: seq<string>, idx: int, was: string)
    requires Exists(raws, idx)
  {
    was != "" && raws[idx] != was
  }

  function Updated(raws: seq<string>, idx: int, was: string, key: string, value: string, flag: bool): Edited {
    if !Exists(raws, idx) then Refused(NoSuchLine)
    else if GuardFails(raws, idx, was) then Refused(Conflict)
    else Accepted(raws[idx := RenderLine(key, value, flag)])
  }

  function UpdatedRaw(raws: seq<string>, idx: int, was: string, raw: string): Edited {
    if !Exists(raws, idx) then Refused(NoSuchLine)
    else if GuardFails(raws, idx, was) then Refused(Conflict)
    else if '\n' in raw || '\r' in raw then Refused(HasNewline)
    else Accepted(raws[idx := raw])
  }

  function Deleted(raws: seq<string>, idx: int, was: string): Edited {
    if !Exists(raws, idx) then Refused(NoSuchLine)
    else if GuardFails(raws, idx, was) then Refused(Conflict)
    else Accepted(raws[..idx] + raws[idx + 1..])
  }

  function WithScalar(raws: seq<string>, key: string, value: string): seq<string> {
    if Blank(value) then Others(raws, key)
    else Replaced(raws, Has(key), RenderLine(key, value, false))
  }

  function WithFlag(raws: seq<string>, key: string, on: bool): seq<string> {
    if !on then Others(raws, key)
    else if Present(raws, key) then raws
    else raws + [key]
  }

  // ---- adding ------------------------------------------------------------

  // A new directive is the last entry of its key, becomes the value in force,
  // and no other line changes or moves relative to another.
  lemma AddedMeaning(raws: seq<string>, key: string, value: string, flag: bool)
    requires ValidKey(key)
    ensures Entries(Added(raws, key, value, flag), key) == Entries(raws, key) + [RenderLine(key, value, flag)]
    ensures Others(Added(raws, key, value, flag), key) == Others(raws, key)
    ensures Scalar(Added(raws, key, value, flag), key) == Some(if flag then "" else Trim(Go, value))
  {
    var line := RenderLine(key, value, flag);
    RenderParses(0, key, value, flag);
    InsertedMeaning(raws, Has(key), line);
    InsertedAt(raws, AddedAt(raws, key), line);
  }

  // It sits directly after the last line that had the key, or else last.
  lemma AddedPlace(raws: seq<string>, key: string)
    ensures NoneOf(raws[AddedAt(raws, key)..], Has(key))
    ensures if Present(raws, key) then AddedAt(raws, key) > 0 && Has(key)(raws[AddedAt(raws, key) - 1])
            else AddedAt(raws, key) == |raws|
  {
    NoneBelowInsertPoint(raws, Has(key));
  }

  lemma AddedKeepsOtherKeys(raws: seq<string>, key: string, value: string, flag: bool, other: string)
    requires ValidKey(key) && other != key
    ensures Entries(Added(raws, key, value, flag), other) == Entries(raws, other)
  {
    RenderParses(0, key, value, flag);
    InsertedElsewhere(raws, AddedAt(raws, key), RenderLine(key, value, flag), Has(other));
  }

  lemma AddThenDelete(raws: seq<string>, key: string, value: string, flag: bool, was: string)
    requires was == "" || was == RenderLine(key, value, flag)
    ensures Deleted(Added(raws, key, value, flag), AddedAt(raws, key), was) == Accepted(raws)
  {
    InsertedAt(raws, AddedAt(raws, key), RenderLine(key, value, flag));
  }

  // ---- guarded line edits ------------------------------------------------

  // An edit that names the text it replaces takes away exactly one copy of
  // that text and adds the new one.
  lemma GuardedReplace(raws: seq<string>, idx: int, was: string, line: string)
    requires Exists(raws, idx) && was != "" && !GuardFails(raws, idx, was)
    ensures multiset(raws[idx := line]) == multiset(raws) - multiset{was} + multiset{line}
    ensures was in raws
  {
    assert raws == raws[..idx] + [raws[idx]] + raws[idx + 1..];
    assert raws[idx := line] == raws[..idx] + [line] + raws[idx + 1..];
  }

  lemma GuardedDelete(raws: seq<string>, idx: int, was: string)
    requires Exists(raws, idx) && was != "" && !GuardFails(raws, idx, was)
    ensures multiset(raws[..idx] + raws[idx + 1..]) == multiset(raws) - multiset{was}
    ensures was in raws
  {
    assert raws == raws[..idx] + [raws[idx]] + raws[idx + 1..];
  }

  // ---- scalars -----------------------------------------------------------

  // One entry remains, holding the new value, at the place of the old first
  // one or else last; every other line stays, in order.
  lemma ScalarSet(raws: seq<string>, key: string, value: string)
    requires ValidKey(key) && !Blank(value)
    ensures var n := WithScalar(raws, key, value);
            && Scalar(n, key) == Some(Trim(Go, value))
            && Entries(n, key) == [RenderLine(key, value, false)]
            && Others(n, key) == Others(raws, key)
            && Before(n, Has(key)) == Before(raws, Has(key))
  {
    var line, p := RenderLine(key, value, false), Has(key);
    RenderParses(0, key, value, false);
    ReplacedMeaning(raws, p, line);
  }

  lemma ScalarCleared(raws: seq<string>, key: string, value: string)
    requires Blank(value)
    ensures var n := WithScalar(raws, key, value);
            && !Present(n, key) && Entries(n, key) == [] && Others(n, key) == Others(raws, key)
            && multiset(n) == multiset(raws) - multiset(Entries(raws, key))
  {
    DropMeaning(raws, Has(key));
    DropTwice(raws, Has(key));
    LastIsNone(Others(raws, key), Has(key));
  }

  // A later set absorbs an earlier one. After a removal it does so only when
  // nothing stood between the old entry and the end of the file.
  lemma ScalarAbsorbs(raws: seq<string>, key: string, v1: string, v2: string)
    requires ValidKey(key)
    ensures WithScalar(WithScalar(raws, key, v1), key, v2) == WithScalar(raws, key, v2)
            <==> !Blank(v1) || Blank(v2) || After(raws, Has(key)) == []
  {
    var p := Has(key);
    RenderParses(0, key, v1, false);
    RenderParses(0, key, v2, false);
    DropTwice(raws, p);
    ReplacedMeaning(raws, p, RenderLine(key, v1, false));
    ReplacedTwice(raws, p, RenderLine(key, v1, false), RenderLine(key, v2, false));
    ReplacedAfterDrop(raws, p, RenderLine(key, v2, false));
  }

  lemma ScalarAsPass(raws: seq<string>, key: string, value: string)
    ensures WithScalar(raws, key, value) == Pass(raws, Has(key), RenderLine(key, value, false), !Blank(value))
  {
    PassDrops(raws, Has(key), RenderLine(key, value, false));
    PassReplaces(raws, Has(key), RenderLine(key, value, false));
  }

  // Sets on different keys commute, except when both keys are new: then the
  // file keeps the order in which they were created.
  lemma ScalarsCommute(raws: seq<string>, k1: string, v1: string, k2: string, v2: string)
    requires ValidKey(k1) && ValidKey(k2) && k1 != k2
    ensures WithScalar(WithScalar(raws, k1, v1), k2, v2) == WithScalar(WithScalar(raws, k2, v2), k1, v1)
            <==> Blank(v1) || Blank(v2) || Present(raws, k1) || Present(raws, k2)
  {
    RenderParses(0, k1, v1, false);
    RenderParses(0, k2, v2, false);
    ScalarAsPass(raws, k1, v1);
    ScalarAsPass(raws, k2, v2);
    ScalarAsPass(WithScalar(raws, k1, v1), k2, v2);
    ScalarAsPass(WithScalar(raws, k2, v2), k1, v1);
    LastIsNone(raws, Has(k1));
    LastIsNone(raws, Has(k2));
    PassesCommute(raws, Has(k1), RenderLine(k1, v1, false), !Blank(v1),
                  Has(k2), RenderLine(k2, v2, false), !Blank(v2));
  }

  // Two new keys end up in the order in which they were set, so that these
  // two orders give different files.
  lemma CreationOrderShows()
    ensures WithScalar(WithScalar([], "port", "53"), "user", "me") == ["port=53", "user=me"]
    ensures WithScalar(WithScalar([], "user", "me"), "port", "53") == ["user=me", "port=53"]
  {
    TheExamples();
    BothNew("port", "53", "user", "me");
    BothNew("user", "me", "port", "53");
  }

  lemma BothNew(k1: string, v1: string, k2: string, v2: string)
    requires ValidKey(k1) && ValidKey(k2) && k1 != k2 && !Blank(v1) && !Blank(v2)
    ensures WithScalar(WithScalar([], k1, v1), k2, v2) == [RenderLine(k1, v1, false), RenderLine(k2, v2, false)]
  {
    var l1, l2 := RenderLine(k1, v1, false), RenderLine(k2, v2, false);
    RenderParses(0, k1, v1, false);
    assert Before([], Has(k1)) + [l1] + After([], Has(k1)) == [l1];
    NothingPicked([l1], Has(k2));
    assert Before([l1], Has(k2)) + [l2] + After([l1], Has(k2)) == [l1, l2];
  }

  // Removing a setting and setting it anew moves it below what followed it.
  lemma RemovalForgetsPlace()
    ensures WithScalar(WithScalar(["port=53", "user=me"], "port", ""), "port", "54") == ["user=me", "port=54"]
    ensures WithScalar(["port=53", "user=me"], "port", "54") == ["port=54", "user=me"]
  {
    TheExamples();
    TrimIdempotent(Go, "");
    FirstOfTwo("port=53", "user=me", "port", "", "54");
  }

  lemma FirstOfTwo(l1: string, l2: string, key: string, blank: string, v: string)
    requires KeyOf(l1) == key && KeyOf(l2) != key && Blank(blank) && !Blank(v)
    ensures WithScalar(WithScalar([l1, l2], key, blank), key, v) == [l2, RenderLine(key, v, false)]
    ensures WithScalar([l1, l2], key, v) == [RenderLine(key, v, false), l2]
  {
    var line, p := RenderLine(key, v, false), Has(key);
    assert [l1, l2] == [l1] + [l2] && [l1, l2][1..] == [l2];
    NothingPicked([l2], p);
    assert Before([l2], p) + [line] + After([l2], p) == [l2, line];
    assert Before([l1, l2], p) + [line] + After([l1, l2], p) == [line, l2];
  }

  lemma TheExamples()
    ensures ValidKey("port") && ValidKey("user")
    ensures !Blank("53") && !Blank("54") && !Blank("me")
    ensures KeyOf("port=53") == "port" && KeyOf("user=me") == "user"
    ensures RenderLine("port", "53", false) == "port=53" && RenderLine("port", "54", false) == "port=54"
    ensures RenderLine("user", "me", false) == "user=me"
  {
    ExampleKeys();
    ExampleValues();
    ExampleTexts();
    ExampleLine("port", "53", "port=53");
    ExampleLine("port", "54", "port=54");
    ExampleLine("user", "me", "user=me");
  }

  lemma ExampleTexts()
    ensures "port=53" == "port" + "=" + "53" && "port=54" == "port" + "=" + "54" && "user=me" == "user" + "=" + "me"
  {
  }

  lemma ExampleKeys()
    ensures ValidKey("port") && ValidKey("user")
  {
  }

  lemma ExampleValues()
    ensures !Blank("53") && !Blank("54") && !Blank("me")
  {
    NotBlank("53");
    NotBlank("54");
    NotBlank("me");
  }

  lemma ExampleLine(key: string, value: string, line: string)
    requires ValidKey(key) && line == key + "=" + value
    ensures RenderLine(key, value, false) == line && KeyOf(line) == key
  {
    RenderParses(0, key, value, false);
  }

  lemma NotBlank(value: string)
    requires value != "" && Trimmed(Go, value)
    ensures !Blank(value)
  {
    TrimIdempotent(Go, value);
  }

  // ---- flags -------------------------------------------------------------

  lemma FlagMeaning(raws: seq<string>, key: string, on: bool)
    requires ValidKey(key)
    ensures var n := WithFlag(raws, key, on);
            && (Present(n, key) <==> on)
            && Others(n, key) == Others(raws, key)
            && WithFlag(n, key, on) == n
            && (on && Present(raws, key) ==> n == raws)
            && (on && !Present(raws, key) ==> n == raws + [key] && Entries(n, key) == [key])
  {
    var p := Has(key);
    RenderParses(0, key, "", true);
    DropMeaning(raws, p);
    DropTwice(raws, p);
    LastIsNone(Drop(raws, p), p);
    LastIsNone(raws, p);
    if on && !Present(raws, key) {
      NothingPicked(raws, p);
      LastOfConcat(raws, key, [], p);
      assert raws + [key] + [] == raws + [key];
      Concat(raws, [key], p);
      Single(key, p);
    }
  }
}
