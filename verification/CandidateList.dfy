/** The candidate addresses of a punch, in the order in which they are tried. */
module CandidateList {
  import opened Basics
  import opened Addresses

  type Candidate = (string, int)

  /** What is known of a peer; hint is where its UDP packets came from. */
  datatype Peer = Peer(lan: seq<string>, tcp: int, pubTcp: string, hint: Option<Candidate>)

  const PREDICTED := [0, -1, 1, -2, 2]

  /** The local addresses that are not empty, on the peer's own port. */
  function LanOffers(lan: seq<string>, port: int): seq<Candidate> {
    if lan == [] then []
    else LanOffers(lan[..|lan| - 1], port) + if lan[|lan| - 1] != "" then [(lan[|lan| - 1], port)] else []
  }

  /** The ports near a known one, those that exist. */
  function PortOffers(ip: string, port: int, deltas: seq<int>): seq<Candidate> {
    if deltas == [] then []
    else
      var p := port + deltas[|deltas| - 1];
      PortOffers(ip, port, deltas[..|deltas| - 1]) + if 0 < p <= 65535 then [(ip, p)] else []
  }

  /** All that is offered: the local addresses, and the public one or else what the UDP port
      lets one guess for IPv4. */
  function Offered(peer: Peer): seq<Candidate> {
    var pub := ParseHostPort(peer.pubTcp);
    LanOffers(peer.lan, peer.tcp)
    + (if pub.Some? then [pub.value]
       else if peer.hint.Some? && ':' !in peer.hint.value.0
       then PortOffers(peer.hint.value.0, peer.hint.value.1, PREDICTED)
       else [])
  }

  // ---------- what is offered ----------

  lemma {:induction false} LanExact(lan: seq<string>, port: int, c: Candidate)
    ensures c in LanOffers(lan, port) <==> c.0 in lan && c.0 != "" && c.1 == port
  {
    if lan == [] {
    } else {
      LanExact(lan[..|lan| - 1], port, c);
      assert lan == lan[..|lan| - 1] + [lan[|lan| - 1]];
    }
  }

  lemma {:induction false} PortsExact(ip: string, port: int, deltas: seq<int>, c: Candidate)
    ensures c in PortOffers(ip, port, deltas) <==> c.0 == ip && c.1 - port in deltas && 0 < c.1 <= 65535
  {
    if deltas == [] {
    } else {
      PortsExact(ip, port, deltas[..|deltas| - 1], c);
      assert deltas == deltas[..|deltas| - 1] + [deltas[|deltas| - 1]];
    }
  }

  /** What the last UDP packets came from is used only for IPv4, and only without a public TCP
      address. */
  predicate Guesses(peer: Peer) {
    ParseHostPort(peer.pubTcp).None? && peer.hint.Some? && ':' !in peer.hint.value.0
  }

  /** A candidate is a local address on the peer's own port, the public TCP address, or, for want
      of one, a port at most two away from the peer's UDP port at the same IPv4 address. */
  lemma OfferedExact(peer: Peer, c: Candidate)
    ensures c in Offered(peer) <==>
      || (c.0 in peer.lan && c.0 != "" && c.1 == peer.tcp)
      || ParseHostPort(peer.pubTcp) == Some(c)
      || (Guesses(peer) && c.0 == peer.hint.value.0
          && -2 <= c.1 - peer.hint.value.1 <= 2 && 1 <= c.1 <= 65535)
  {
    LanExact(peer.lan, peer.tcp, c);
    if Guesses(peer) {
      PortsExact(peer.hint.value.0, peer.hint.value.1, PREDICTED, c);
    }
  }

  /** The offers are those of the addresses at these places. */
  predicate From(lan: seq<string>, port: int, places: seq<nat>, offers: seq<Candidate>) {
    && |places| == |offers| && (forall i, j :: 0 <= i < j < |places| ==> places[i] < places[j])
    && forall i :: 0 <= i < |places| ==> places[i] < |lan| && offers[i] == (lan[places[i]], port)
  }

  lemma FromNext(lan: seq<string>, port: int, places: seq<nat>, offers: seq<Candidate>, ip: string)
    requires From(lan, port, places, offers)
    ensures From(lan + [ip], port, places, offers)
    ensures From(lan + [ip], port, places + [|lan|], offers + [(ip, port)])
  {
  }

  /** The places of the local addresses that are not empty, in order. */
  lemma {:induction false} LanInOrder(lan: seq<string>, port: int) returns (places: seq<nat>)
    ensures From(lan, port, places, LanOffers(lan, port))
  {
    if lan == [] {
      places := [];
    } else {
      var front, ip := lan[..|lan| - 1], lan[|lan| - 1];
      places := LanInOrder(front, port);
      FromNext(front, port, places, LanOffers(front, port), ip);
      assert front + [ip] == lan;
      if ip != "" {
        places := places + [|front|];
      }
    }
  }

  /** The nearer port first, of two equally near ones the lower. */
  predicate Sooner(port: int, p: int, q: int) {
    var x, y := if p < port then port - p else p - port, if q < port then port - q else q - port;
    x < y || (x == y && p < q)
  }

  lemma {:induction false} PortsInOrder(ip: string, port: int, deltas: seq<int>)
    requires forall i, j :: 0 <= i < j < |deltas| ==> Sooner(port, port + deltas[i], port + deltas[j])
    ensures var o := PortOffers(ip, port, deltas);
      forall i, j :: 0 <= i < j < |o| ==> Sooner(port, o[i].1, o[j].1)
  {
    if deltas == [] {
    } else {
      var front, last := deltas[..|deltas| - 1], port + deltas[|deltas| - 1];
      PortsInOrder(ip, port, front);
      var o := PortOffers(ip, port, front);
      forall i | 0 <= i < |o| ensures Sooner(port, o[i].1, last) {
        PortsExact(ip, port, front, o[i]);
        var k :| 0 <= k < |front| && front[k] == o[i].1 - port;
        assert Sooner(port, port + deltas[k], last);
      }
    }
  }

  /** The order of the offers: local addresses as the peer lists them, and then the public one or
      the guesses, the nearest ports first. */
  lemma OfferedInOrder(peer: Peer) returns (places: seq<nat>)
    ensures |places| <= |Offered(peer)| && forall i, j :: 0 <= i < j < |places| ==> places[i] < places[j]
    ensures forall i :: 0 <= i < |places| ==>
      places[i] < |peer.lan| && Offered(peer)[i] == (peer.lan[places[i]], peer.tcp)
    ensures ParseHostPort(peer.pubTcp).Some? ==> Offered(peer)[|places|..] == [ParseHostPort(peer.pubTcp).value]
    ensures forall i, j :: |places| <= i < j < |Offered(peer)| ==>
      Guesses(peer) && Sooner(peer.hint.value.1, Offered(peer)[i].1, Offered(peer)[j].1)
  {
    places := LanInOrder(peer.lan, peer.tcp);
    if Guesses(peer) {
      var (ip, port) := peer.hint.value;
      var lan := LanOffers(peer.lan, peer.tcp);
      GuessesInOrder(ip, port, lan, PREDICTED);
      assert Offered(peer) == lan + PortOffers(ip, port, PREDICTED);
    } else {
      assert |Offered(peer)| <= |places| + 1;
    }
  }

  lemma GuessesInOrder(ip: string, port: int, before: seq<Candidate>, deltas: seq<int>)
    requires forall i, j :: 0 <= i < j < |deltas| ==> Sooner(port, port + deltas[i], port + deltas[j])
    ensures var o := before + PortOffers(ip, port, deltas);
      forall i, j :: |before| <= i < j < |o| ==> Sooner(port, o[i].1, o[j].1)
  {
    PortsInOrder(ip, port, deltas);
    var o := PortOffers(ip, port, deltas);
    assert forall i :: |before| <= i < |before + o| ==> (before + o)[i] == o[i - |before|];
  }

  /** A list without its repetitions. */
  function Firsts(s: seq<Candidate>): seq<Candidate> {
    if s == [] then []
    else
      var f := Firsts(s[..|s| - 1]);
      if s[|s| - 1] in f then f else f + [s[|s| - 1]]
  }

  /** Nothing twice, nothing lost, nothing added, and each candidate in the place of its first
      offer. */
  lemma {:induction false} FirstsMeaning(s: seq<Candidate>)
    ensures var f := Firsts(s);
      && (forall i, j :: 0 <= i < j < |f| ==> f[i] != f[j])
      && (forall c :: c in f <==> c in s)
      && (forall i, j, x, y :: 0 <= i < j < |f| && FirstAt(s, x, f[i]) && FirstAt(s, y, f[j]) ==> x < y)
  {
    if s == [] {
    } else {
      var g, c := s[..|s| - 1], s[|s| - 1];
      FirstsMeaning(g);
      assert s == g + [c];
      var f := Firsts(s);
      forall i, j, x, y | 0 <= i < j < |f| && FirstAt(s, x, f[i]) && FirstAt(s, y, f[j]) ensures x < y {
        assert f[i] in Firsts(g) && f[i] in g;
        if j < |Firsts(g)| {
          assert f[j] in g;
          assert FirstAt(g, x, f[i]) && FirstAt(g, y, f[j]);
        } else {
          assert FirstAt(g, x, f[i]) && f[j] !in g && y == |g|;
        }
      }
    }
  }

  predicate FirstAt(s: seq<Candidate>, i: int, c: Candidate) {
    0 <= i < |s| && s[i] == c && forall j :: 0 <= j < i ==> s[j] != c
  }

  lemma FirstsAppend(s: seq<Candidate>, c: Candidate)
    ensures Firsts(s + [c]) == if c in Firsts(s) then Firsts(s) else Firsts(s) + [c]
  {
    assert (s + [c])[..|s|] == s;
  }

  /** The candidates are the offers without repetitions, in order. */
  method BuildCandidates(peer: Peer) returns (result: seq<Candidate>)
    ensures result == Firsts(Offered(peer))
  {
    result := [];
    var seen: set<Candidate> := {};
    ghost var offers: seq<Candidate> := [];
    var i := 0;
    while i < |peer.lan|
      invariant i <= |peer.lan| && offers == LanOffers(peer.lan[..i], peer.tcp)
      invariant result == Firsts(offers) && forall c :: c in seen <==> c in result
    {
      var ip := peer.lan[i];
      assert peer.lan[..i + 1][..i] == peer.lan[..i];
      if ip != "" {
        FirstsAppend(offers, (ip, peer.tcp));
        offers := offers + [(ip, peer.tcp)];
        if (ip, peer.tcp) !in seen {
          seen := seen + {(ip, peer.tcp)};
          result := result + [(ip, peer.tcp)];
        }
      }
      i := i + 1;
    }
    assert peer.lan[..i] == peer.lan;
    var pub := ParseHostPort(peer.pubTcp);
    if pub.Some? {
      FirstsAppend(offers, pub.value);
      if pub.value !in seen {
        result := result + [pub.value];
      }
    } else if peer.hint.Some? && ':' !in peer.hint.value.0 {
      result := Predict(peer.hint.value.0, peer.hint.value.1, result, seen, offers);
    } else {
      assert Offered(peer) == offers;
    }
  }

  method Predict(ip: string, port: int, before: seq<Candidate>, seenBefore: set<Candidate>,
      ghost offers: seq<Candidate>)
    returns (result: seq<Candidate>)
    requires before == Firsts(offers) && forall c :: c in seenBefore <==> c in before
    ensures result == Firsts(offers + PortOffers(ip, port, PREDICTED))
  {
    result := before;
    var seen := seenBefore;
    var i := 0;
    assert offers + PortOffers(ip, port, PREDICTED[..0]) == offers;
    while i < |PREDICTED|
      invariant i <= |PREDICTED|
      invariant result == Firsts(offers + PortOffers(ip, port, PREDICTED[..i]))
      invariant forall c :: c in seen <==> c in result
    {
      var p := port + PREDICTED[i];
      PortNext(ip, port, PREDICTED, i, offers);
      FirstsAppend(offers + PortOffers(ip, port, PREDICTED[..i]), (ip, p));
      i := i + 1;
      if p <= 0 || p > 65535 {
        continue;
      }
      if (ip, p) !in seen {
        seen := seen + {(ip, p)};
        result := result + [(ip, p)];
      }
    }
    assert PREDICTED[..i] == PREDICTED;
  }

  lemma PortNext(ip: string, port: int, deltas: seq<int>, i: nat, offers: seq<Candidate>)
    requires i < |deltas|
    ensures var p := port + deltas[i];
      var was := offers + PortOffers(ip, port, deltas[..i]);
      offers + PortOffers(ip, port, deltas[..i + 1]) == if 0 < p <= 65535 then was + [(ip, p)] else was
  {
    assert deltas[..i + 1][..i] == deltas[..i];
  }
}
