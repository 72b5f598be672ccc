/** The ladder path by path: which one is used first, and what an event leaves of each path. */
module PathCourse {
  import opened Basics
  import opened KeepaliveSearch
  import opened PathLadder

  // ---------- which path is used first ----------

  /** No live path is preferred to the one at i but, perhaps, the one at x: none has a higher
      priority, of those with the same none is faster, and of the equally fast none came first. */
  predicate NoneBetter(cfg: Settings, l: Ladder, i: nat, x: int)
    requires i < |l|
  {
    forall j :: 0 <= j < |l| && j != x && l[j].role != Dead ==>
      && Priority(cfg, l[i].proto) <= Priority(cfg, l[j].proto)
      && (Priority(cfg, l[i].proto) == Priority(cfg, l[j].proto) ==>
            l[i].rtt <= l[j].rtt && (l[i].rtt == l[j].rtt ==> i <= j))
  }

  lemma GradedBest(cfg: Settings, l: Ladder, h: nat, s: nat)
    requires Graded(cfg, l)
    ensures h < |l| && l[h].role == Hot ==> NoneBetter(cfg, l, h, -1)
    ensures h < |l| && l[h].role == Hot && s < |l| && l[s].role == WarmSafe ==> NoneBetter(cfg, l, s, h)
  {
    if h < |l| && l[h].role == Hot {
      assert First(cfg, l, h);
      forall j | 0 <= j < |l| && l[j].role != Dead
        ensures Priority(cfg, l[h].proto) <= Priority(cfg, l[j].proto)
        ensures Priority(cfg, l[h].proto) == Priority(cfg, l[j].proto) ==>
          l[h].rtt <= l[j].rtt && (l[h].rtt == l[j].rtt ==> h <= j)
      {
        assert !Beats(cfg, l, j, h);
      }
      if s < |l| && l[s].role == WarmSafe {
        SafeBest(cfg, l, h, s);
      }
    }
  }

  lemma SafeBest(cfg: Settings, l: Ladder, h: nat, s: nat)
    requires Graded(cfg, l) && h < |l| && l[h].role == Hot && s < |l| && l[s].role == WarmSafe
    ensures NoneBetter(cfg, l, s, h)
  {
    assert First(cfg, l, h) && Second(cfg, l, s);
    assert !Beats(cfg, l, s, h);
    BeforeTotal(cfg, l, h, s, s);
    assert Beats(cfg, l, h, s);
    forall j | 0 <= j < |l| && j != h && l[j].role != Dead
      ensures Priority(cfg, l[s].proto) <= Priority(cfg, l[j].proto)
      ensures Priority(cfg, l[s].proto) == Priority(cfg, l[j].proto) ==>
        l[s].rtt <= l[j].rtt && (l[s].rtt == l[j].rtt ==> s <= j)
    {
      assert !Beats(cfg, l, j, s);
    }
  }

  /** After a regrading, or the registration of a new path, the hot path is the best of all live
      ones and the safe one the best of the others. */
  lemma BestAfterRegrading(cfg: Settings, run: seq<Event>, h: nat, s: nat)
    requires run != []
    requires var e := run[|run| - 1];
      e.Regrading? || (e.Registering? && var l := Run(cfg, run[..|run| - 1]); !Live(l, Find(l, e.id)))
    ensures var l := Run(cfg, run);
      && (h < |l| && l[h].role == Hot ==> NoneBetter(cfg, l, h, -1))
      && (h < |l| && l[h].role == Hot && s < |l| && l[s].role == WarmSafe ==> NoneBetter(cfg, l, s, h))
  {
    RegradingRestores(cfg, run);
    GradedBest(cfg, Run(cfg, run), h, s);
  }

  /** By default a TCP path is preferred to a UDP one, and either to any other. */
  lemma DefaultPrefersTcp(l: Ladder, h: nat, j: nat)
    requires Graded(DEFAULT, l) && h < |l| && l[h].role == Hot && Live(l, j)
    ensures l[j].proto == "tcp" ==> l[h].proto == "tcp"
    ensures l[j].proto == "udp" ==> l[h].proto == "tcp" || l[h].proto == "udp"
  {
    GradedBest(DEFAULT, l, h, h);
    DefaultPriority(l[h].proto);
    DefaultPriority(l[j].proto);
  }

  lemma DefaultPriority(proto: Proto)
    ensures Priority(DEFAULT, proto) == if proto == "tcp" then 0 else if proto == "udp" then 1 else 9
  {
  }

  // ---------- what an event leaves of a path ----------

  predicate SamePath(a: Rung, b: Rung) {
    a.id == b.id && a.proto == b.proto && a.rtt == b.rtt
  }

  /** A search that has not begun: twice the floor, nothing known. */
  predicate Unprobed(cfg: Settings, r: Rung) {
    && r.search.role == r.role && r.search.proto == r.proto && r.search.interval == 2 * FloorOf(cfg, r.proto)
    && r.search.upper.None? && r.search.lower.None? && !r.search.stable
    && r.search.successes == 0 && r.search.failures == 0
  }

  /** A path may change its role: then its search begins anew, unless it dies; with its role it
      keeps its search, and once dead it stays so. */
  predicate Kept(cfg: Settings, a: Rung, b: Rung) {
    && SamePath(a, b) && (a.role == Dead ==> b == a) && (b.role == a.role ==> b.search == a.search)
    && (b.role != a.role && b.role != Dead ==> Unprobed(cfg, b))
  }

  lemma RegradeKeeps(cfg: Settings, l: Ladder)
    ensures forall i :: 0 <= i < |l| ==> Kept(cfg, l[i], Regrade(cfg, l)[i])
    ensures forall i :: 0 <= i < |l| ==> (Regrade(cfg, l)[i].role == Dead <==> l[i].role == Dead)
  {
  }

  lemma PromoteKeeps(cfg: Settings, l: Ladder)
    requires Single(l)
    ensures forall i :: 0 <= i < |l| ==> Kept(cfg, l[i], Promote(cfg, l)[i])
    ensures forall i :: 0 <= i < |l| ==>
      (Promote(cfg, l)[i].role == Dead <==> l[i].role == Dead || l[i].role == Hot)
  {
    forall i | 0 <= i < |l| && l[i].role == Hot ensures i == Last(l, Hot) {
      OnlyLast(l, Hot, i);
    }
  }

  /** Registering an id with a live path changes nothing.  Otherwise the path is there and alive,
      as announced and not yet probed, in the place of the dead one of that id or at the end, and
      the others are kept. */
  lemma RegisterExact(cfg: Settings, l: Ladder, id: string, proto: Proto, rtt: int)
    ensures var r, i := Register(cfg, l, id, proto, rtt), Find(l, id);
      if Live(l, i) then r == l
      else
        && |r| == (if i < |l| then |l| else |l| + 1) && r[i].id == id && r[i].proto == proto && r[i].rtt == rtt
        && r[i].role != Dead && Unprobed(cfg, r[i])
        && forall j :: 0 <= j < |l| && j != i ==> Kept(cfg, l[j], r[j])
  {
    var i := Find(l, id);
    if !Live(l, i) {
      var u := Enter(cfg, l, id, proto, rtt);
      RegradeKeeps(cfg, u);
      assert u[i] == Rung(id, proto, rtt, WarmLoose, Start(cfg, WarmLoose, proto));
      assert forall j :: 0 <= j < |l| && j != i ==> u[j] == l[j];
    }
  }

  lemma FindIs(l: Ladder, i: nat)
    requires DistinctIds(l) && i < |l|
    ensures Find(l, l[i].id) == i
  {
  }

  /** The place that a path had before the one at k was taken out. */
  function Was(k: nat, i: nat): nat {
    if i < k then i else i + 1
  }

  lemma RemovedPlaces(l: Ladder, id: string)
    ensures var r, k := Remove(l, id), Find(l, id);
      && |r| == |l| - (if k < |l| then 1 else 0)
      && forall i :: 0 <= i < |r| ==> Was(k, i) < |l| && Was(k, i) != k && r[i] == l[Was(k, i)]
  {
    var k := Find(l, id);
    if k < |l| {
      CutPlaces(l, k);
    }
  }

  lemma CutPlaces(l: Ladder, k: nat)
    requires k < |l|
    ensures var r := l[..k] + l[k + 1..];
      |r| == |l| - 1 && forall i :: 0 <= i < |r| ==> r[i] == l[if i < k then i else i + 1]
  {
  }

  /** Removing takes out the path of that id, and leaves the others as they are and in order. */
  lemma RemoveExact(l: Ladder, id: string)
    requires DistinctIds(l)
    ensures var r := Remove(l, id);
      && (forall x :: x in r <==> x in l && x.id != id)
      && forall i, j :: 0 <= i < j < |r| ==> Find(l, r[i].id) < Find(l, r[j].id)
  {
    var r, k := Remove(l, id), Find(l, id);
    RemovedPlaces(l, id);
    forall i, j | 0 <= i < j < |r| ensures Find(l, r[i].id) < Find(l, r[j].id) {
      FindIs(l, Was(k, i));
      FindIs(l, Was(k, j));
    }
    forall x ensures x in r <==> x in l && x.id != id {
      RemovedHas(l, id, x);
    }
  }

  lemma RemovedHas(l: Ladder, id: string, x: Rung)
    requires DistinctIds(l)
    ensures x in Remove(l, id) <==> x in l && x.id != id
  {
    var r, k := Remove(l, id), Find(l, id);
    RemovedPlaces(l, id);
    if x in r {
      var i :| 0 <= i < |r| && r[i] == x;
      FindIs(l, Was(k, i));
    }
    if x in l && x.id != id {
      var i :| 0 <= i < |l| && l[i] == x;
      assert r[if i < k then i else i - 1] == x;
    }
  }

  /** A probe changes the search of its path if that lives, and nothing else. */
  lemma ProbedExact(cfg: Settings, l: Ladder, id: string, ok: bool)
    ensures var r, i := Probed(cfg, l, id, ok), Find(l, id);
      && |r| == |l| && (forall j :: 0 <= j < |l| && j != i ==> r[j] == l[j])
      && (i < |l| ==> SamePath(l[i], r[i]) && r[i].role == l[i].role
                      && r[i].search == if l[i].role == Dead then l[i].search else Probe(cfg, l[i].search, ok))
  {
  }
}
