// Switching dnsmasq's global upstream servers between the local encrypting
// forwarder and a provider's plain addresses.
module Upstreams {
  import opened Text
  import opened ConfText
  import opened Filtering
  import opened ConfEdits
  import opened ConfStore

  datatype Provider = Cloudflare | Quad9 | Google

  const FORWARDER := "127.0.0.1#5053"

  function PlainDNS(p: Provider): seq<string> {
    match p
    case Cloudflare => ["1.1.1.1", "1.0.0.1"]
    case Quad9 => ["9.9.9.9", "149.112.112.112"]
    case Google => ["8.8.8.8", "8.8.4.4"]
  }

  // The upstreams a toggle asks for, given the plain addresses of a provider.
  function Chosen(encrypted: bool, plain: seq<string>): seq<string> {
    if encrypted then [FORWARDER] else plain
  }

  function UpstreamsFor(encrypted: bool, p: Provider): seq<string> { Chosen(encrypted, PlainDNS(p)) }

  // A server= line that is not scoped to a domain, as server=/lan/... is.
  function Global(): string -> bool {
    (raw: string) => KeyOf(raw) == "server" && !HasPrefix(ValueOf(raw), "/")
  }

  predicate GlobalLine(l: Line) { l.key == "server" && !HasPrefix(l.value, "/") }

  function ServerLine(upstream: string): string { RenderLine("server", upstream, false) }

  function AllAdded(raws: seq<string>, upstreams: seq<string>): seq<string>
    decreases |upstreams|
  {
    if upstreams == [] then raws
    else AllAdded(Added(raws, "server", upstreams[0], false), upstreams[1..])
  }

  function Rewritten(raws: seq<string>, upstreams: seq<string>): seq<string> {
    AllAdded(Drop(raws, Global()), upstreams)
  }

  // Upstream values that do not read as domain-scoped.
  predicate Unscoped(upstreams: seq<string>) {
    forall i :: 0 <= i < |upstreams| ==> !HasPrefix(Trim(Go, upstreams[i]), "/")
  }

  lemma ProviderUnscoped(encrypted: bool, p: Provider)
    ensures Unscoped(UpstreamsFor(encrypted, p))
  {
    var us := UpstreamsFor(encrypted, p);
    forall i | 0 <= i < |us|
      ensures !HasPrefix(Trim(Go, us[i]), "/")
    {
      assert Trimmed(Go, us[i]);
      TrimIdempotent(Go, us[i]);
    }
  }

  lemma ServerLineIsGlobal(upstream: string)
    requires !HasPrefix(Trim(Go, upstream), "/")
    ensures Global()(ServerLine(upstream))
  {
    RenderParses(0, "server", upstream, false);
  }

  lemma OneAdded(raws: seq<string>, upstream: string)
    requires !HasPrefix(Trim(Go, upstream), "/")
    ensures Pick(Added(raws, "server", upstream, false), Global()) == Pick(raws, Global()) + [ServerLine(upstream)]
    ensures Drop(Added(raws, "server", upstream, false), Global()) == Drop(raws, Global())
  {
    ServerLineIsGlobal(upstream);
    AddedPlace(raws, "server");
    var below := raws[AddedAt(raws, "server")..];
    assert NoneOf(below, Global()) by {
      forall i | 0 <= i < |below|
        ensures !Global()(below[i])
      {
        assert !Has("server")(below[i]);
      }
    }
    InsertedBelow(raws, AddedAt(raws, "server"), Global(), ServerLine(upstream));
  }

  // After a rewrite the global servers are exactly the requested ones, in
  // order; every other line keeps its text and relative order.
  lemma {:induction false} AllAddedMeaning(raws: seq<string>, upstreams: seq<string>)
    requires Unscoped(upstreams)
    decreases |upstreams|
    ensures Pick(AllAdded(raws, upstreams), Global()) == Pick(raws, Global()) + Map(ServerLine, upstreams)
    ensures Drop(AllAdded(raws, upstreams), Global()) == Drop(raws, Global())
  {
    if upstreams == [] {
      assert Pick(raws, Global()) + [] == Pick(raws, Global());
    } else {
      var more := Added(raws, "server", upstreams[0], false);
      OneAdded(raws, upstreams[0]);
      AllAddedMeaning(more, upstreams[1..]);
      ConcatAssoc(Pick(raws, Global()), [ServerLine(upstreams[0])], Map(ServerLine, upstreams[1..]));
      assert AllAdded(raws, upstreams) == AllAdded(more, upstreams[1..]);
    }
  }

  lemma JustOne(raws: seq<string>, upstream: string)
    ensures AllAdded(raws, [upstream]) == Added(raws, "server", upstream, false)
  {
    assert [upstream][1..] == [];
  }

  lemma RewrittenMeaning(raws: seq<string>, upstreams: seq<string>)
    requires Unscoped(upstreams)
    ensures Pick(Rewritten(raws, upstreams), Global()) == Map(ServerLine, upstreams)
    ensures Drop(Rewritten(raws, upstreams), Global()) == Drop(raws, Global())
  {
    AllAddedMeaning(Drop(raws, Global()), upstreams);
    DropTwice(raws, Global());
  }

  lemma LastRewriteWins(raws: seq<string>, first: seq<string>, second: seq<string>)
    requires Unscoped(first)
    ensures Rewritten(Rewritten(raws, first), second) == Rewritten(raws, second)
  {
    RewrittenMeaning(raws, first);
  }

  // Whatever was toggled before, the last toggle decides the file.
  lemma LastToggleWins(raws: seq<string>, e1: bool, p1: Provider, e2: bool, p2: Provider)
    ensures Rewritten(Rewritten(raws, UpstreamsFor(e1, p1)), UpstreamsFor(e2, p2))
            == Rewritten(raws, UpstreamsFor(e2, p2))
  {
    ProviderUnscoped(e1, p1);
    LastRewriteWins(raws, UpstreamsFor(e1, p1), UpstreamsFor(e2, p2));
  }

  // The unscoped servers that the file names are these, in this order.
  predicate Names(raws: seq<string>, upstreams: seq<string>) {
    && |Pick(raws, Global())| == |upstreams|
    && forall i :: 0 <= i < |upstreams| ==> Pick(raws, Global())[i] == "server=" + upstreams[i]
  }

  // Switched on, the file names the local forwarder and no other unscoped
  // server; switched off, exactly the plain addresses.
  lemma ToggleMeaning(raws: seq<string>, encrypted: bool, plain: seq<string>)
    ensures encrypted ==> Names(Rewritten(raws, Chosen(encrypted, plain)), ["127.0.0.1#5053"])
    ensures !encrypted && Unscoped(plain) ==> Names(Rewritten(raws, Chosen(encrypted, plain)), plain)
    ensures encrypted || Unscoped(plain) ==>
              Drop(Rewritten(raws, Chosen(encrypted, plain)), Global()) == Drop(raws, Global())
  {
    if encrypted {
      ForwarderUnscoped();
      NamesAfter(raws, ["127.0.0.1#5053"]);
    } else if Unscoped(plain) {
      NamesAfter(raws, plain);
    }
  }

  lemma ForwarderUnscoped()
    ensures Unscoped(["127.0.0.1#5053"])
  {
    assert Trimmed(Go, "127.0.0.1#5053");
    TrimIdempotent(Go, "127.0.0.1#5053");
  }

  lemma NamesAfter(raws: seq<string>, upstreams: seq<string>)
    requires Unscoped(upstreams)
    ensures Names(Rewritten(raws, upstreams), upstreams)
    ensures Drop(Rewritten(raws, upstreams), Global()) == Drop(raws, Global())
  {
    RewrittenMeaning(raws, upstreams);
    forall i | 0 <= i < |upstreams|
      ensures Map(ServerLine, upstreams)[i] == "server=" + upstreams[i]
    {
      MapAt(ServerLine, upstreams, i);
      ServerText(upstreams[i]);
    }
  }

  lemma ServerText(upstream: string)
    ensures ServerLine(upstream) == "server=" + upstream
  {
    assert "server" + "=" == "server=";
  }

  // Switching a provider off leaves its plain addresses.
  lemma ProviderAddresses(raws: seq<string>, p: Provider)
    ensures Names(Rewritten(raws, UpstreamsFor(false, p)),
                  match p
                  case Cloudflare => ["1.1.1.1", "1.0.0.1"]
                  case Quad9 => ["9.9.9.9", "149.112.112.112"]
                  case Google => ["8.8.8.8", "8.8.4.4"])
  {
    ProviderUnscoped(false, p);
    NamesAfter(raws, UpstreamsFor(false, p));
  }

  lemma GlobalAt(ls: seq<Line>, raws: seq<string>, i: nat)
    requires Holds(ls, raws) && Numbered(ls) && i < |ls|
    ensures GlobalLine(ls[i]) == Global()(raws[i]) && ls[i].raw == raws[i]
  {
    HoldsParsed(ls, raws, i);
    HoldsAt(ls, raws, i);
    ParseMoves(i, raws[i]);
  }

  // The in-memory part of encRewriteDnsmasq. No deletion in the loop can be
  // refused, so there is no error to report.
  method RewriteServers(conf: ConfFile, encrypted: bool, plain: seq<string>)
    requires conf.Valid()
    modifies conf, conf.lines
    ensures conf.Valid() && (conf.lines == old(conf.lines) || fresh(conf.lines))
    ensures conf.raws == Rewritten(old(conf.raws), Chosen(encrypted, plain))
    ensures encrypted ==> Names(conf.raws, ["127.0.0.1#5053"])
    ensures !encrypted && Unscoped(plain) ==> Names(conf.raws, plain)
    ensures encrypted || Unscoped(plain) ==> Drop(conf.raws, Global()) == Drop(old(conf.raws), Global())
  {
    ToggleMeaning(conf.raws, encrypted, plain);
    DeleteGlobals(conf);
    if encrypted {
      JustOne(conf.raws, FORWARDER);
      var _ := conf.AddLine("server", FORWARDER, false);
    } else {
      AddUpstreams(conf, plain);
    }
  }

  method DeleteGlobals(conf: ConfFile)
    requires conf.Valid()
    modifies conf, conf.lines
    ensures conf.Valid() && conf.lines == old(conf.lines)
    ensures conf.raws == Drop(old(conf.raws), Global())
  {
    ghost var was := conf.raws;
    var i := conf.n - 1;
    assert was[..i + 1] + Drop(was[i + 1..], Global()) == was;
    while i >= 0
      invariant -1 <= i < |was| && conf.Valid() && conf.lines == old(conf.lines)
      invariant conf.raws == was[..i + 1] + Drop(was[i + 1..], Global())
    {
      var l := conf.lines[i];
      DropBackwards(was, i, conf.raws, Global());
      GlobalAt(conf.lines[..conf.n], conf.raws, i);
      if l.key == "server" && !HasPrefix(l.value, "/") {
        var refused := conf.DeleteLine(l.idx, l.raw);
        assert refused == None;
      }
      i := i - 1;
    }
  }

  method AddUpstreams(conf: ConfFile, ips: seq<string>)
    requires conf.Valid()
    modifies conf, conf.lines
    ensures conf.Valid() && (conf.lines == old(conf.lines) || fresh(conf.lines))
    ensures conf.raws == AllAdded(old(conf.raws), ips)
  {
    var i := 0;
    while i < |ips|
      invariant 0 <= i <= |ips| && conf.Valid()
      invariant conf.lines == old(conf.lines) || fresh(conf.lines)
      invariant AllAdded(conf.raws, ips[i..]) == AllAdded(old(conf.raws), ips)
    {
      var _ := conf.AddLine("server", ips[i], false);
      assert ips[i..][0] == ips[i] && ips[i..][1..] == ips[i + 1..];
      i := i + 1;
    }
  }
}
