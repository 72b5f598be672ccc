/** The paths to one peer as objects whose roles and searches change in place; every method does
    to them what PathLadder says. */
module PathScheduler {
  import opened Basics
  import opened KeepaliveSearch
  import opened PathLadder

  class Path {
    const cfg: Settings
    const id: string
    const proto: Proto
    const rtt: int
    var role: Role
    var scheduler: KeepaliveScheduler

    ghost function State(): (r: Rung)
      reads this, scheduler
    {
      Rung(id, proto, rtt, role, scheduler.State())
    }

    ghost predicate Valid()
      reads this, scheduler
    {
      scheduler.cfg == cfg
    }

    constructor (cfg: Settings, id: string, proto: Proto, rtt: int, role: Role)
      ensures Valid() && fresh(scheduler) && this.cfg == cfg
      ensures State() == Rung(id, proto, rtt, role, Start(cfg, role, proto))
    {
      this.cfg, this.id, this.proto, this.rtt, this.role := cfg, id, proto, rtt, role;
      scheduler := new KeepaliveScheduler(cfg, role, proto);
    }

    method SetRole(role: Role)
      modifies this
      ensures Valid() && fresh(scheduler)
      ensures State() == PathLadder.SetRole(cfg, old(State()), role)
    {
      this.role := role;
      scheduler := new KeepaliveScheduler(cfg, role, proto);
    }
  }

  // ---------- sorting ----------

  predicate Sorted(cfg: Settings, l: Ladder, order: seq<nat>)
    requires forall k :: 0 <= k < |order| ==> order[k] < |l|
  {
    forall a, b :: 0 <= a < b < |order| ==> Before(cfg, l, order[a], order[b])
  }

  /** The live ones of the first n paths in their order. */
  predicate Ordered(cfg: Settings, l: Ladder, order: seq<nat>, n: nat) {
    && (forall k :: 0 <= k < |order| ==> order[k] < n && Live(l, order[k]))
    && Sorted(cfg, l, order)
    && (forall i :: 0 <= i < n && Live(l, i) ==> i in order)
  }

  function RoleAt(k: nat): Role {
    if k == 0 then Hot else if k == 1 then WarmSafe else WarmLoose
  }

  lemma BeatenBy(cfg: Settings, l: Ladder, order: seq<nat>, k: nat, j: nat)
    requires Ordered(cfg, l, order, |l|) && k < |order| && Beats(cfg, l, j, order[k])
    ensures exists a :: 0 <= a < k && order[a] == j
  {
    var a :| 0 <= a < |order| && order[a] == j;
    BeforeTotal(cfg, l, j, order[k], j);
    BeforeTotal(cfg, l, j, j, j);
  }

  /** A path's place in the order of the live paths is the place that it deserves. */
  lemma PlaceIsDeserved(cfg: Settings, l: Ladder, order: seq<nat>, k: nat)
    requires Ordered(cfg, l, order, |l|) && k < |order|
    ensures Deserved(cfg, l, order[k]) == RoleAt(k)
  {
    if k == 0 {
      forall j | 0 <= j < |l| ensures !Beats(cfg, l, j, order[0]) {
        if Beats(cfg, l, j, order[0]) {
          BeatenBy(cfg, l, order, 0, j);
        }
      }
    } else if k == 1 {
      assert Beats(cfg, l, order[0], order[1]);
      forall j | 0 <= j < |l| && Beats(cfg, l, j, order[1]) ensures j == order[0] {
        BeatenBy(cfg, l, order, 1, j);
      }
      assert Second(cfg, l, order[1]);
    } else {
      BeforeTotal(cfg, l, order[0], order[1], order[0]);
      TwiceBeaten(cfg, l, order[0], order[1], order[k]);
    }
  }

  function Insert(order: seq<nat>, p: nat, n: nat): seq<nat>
    requires p <= |order|
  {
    order[..p] + [n] + order[p..]
  }

  lemma InsertedHas(order: seq<nat>, p: nat, n: nat, i: nat)
    requires p <= |order|
    ensures i in Insert(order, p, n) <==> i == n || i in order
  {
    assert order == order[..p] + order[p..];
  }

  lemma InsertedSorted(cfg: Settings, l: Ladder, order: seq<nat>, p: nat, n: nat)
    requires n < |l| && p <= |order| && forall k :: 0 <= k < |order| ==> order[k] < |l|
    requires Sorted(cfg, l, order)
    requires forall k :: 0 <= k < p ==> Before(cfg, l, order[k], n)
    requires forall k :: p <= k < |order| ==> Before(cfg, l, n, order[k])
    ensures Sorted(cfg, l, Insert(order, p, n))
  {
  }

  /** Paths enter the order of those before them behind their last equal. */
  lemma Inserted(cfg: Settings, l: Ladder, order: seq<nat>, n: nat, p: nat)
    requires Ordered(cfg, l, order, n) && n < |l| && Live(l, n) && p <= |order|
    requires p > 0 ==> !Before(cfg, l, n, order[p - 1])
    requires forall k :: p <= k < |order| ==> Before(cfg, l, n, order[k])
    ensures Ordered(cfg, l, Insert(order, p, n), n + 1)
  {
    forall k | 0 <= k < p ensures Before(cfg, l, order[k], n) {
      BeforeTotal(cfg, l, order[p - 1], n, n);
      BeforeTotal(cfg, l, order[k], order[p - 1], n);
    }
    InsertedSorted(cfg, l, order, p, n);
    forall i | 0 <= i < n + 1 && Live(l, i) ensures i in Insert(order, p, n) {
      InsertedHas(order, p, n, i);
    }
  }

  class PeerPathScheduler {
    const cfg: Settings
    /** A dictionary by path id, in the order of entry. */
    var paths: seq<Path>

    ghost predicate Valid()
      reads this, paths, set p | p in paths :: p.scheduler
    {
      && (forall i, j :: 0 <= i < j < |paths| ==> paths[i] != paths[j] && paths[i].scheduler != paths[j].scheduler)
      && (forall i :: 0 <= i < |paths| ==> paths[i].Valid() && paths[i].cfg == cfg)
    }

    ghost function State(): (l: Ladder)
      reads this, paths, set p | p in paths :: p.scheduler
      ensures |l| == |paths| && forall i :: 0 <= i < |paths| ==> l[i] == paths[i].State()
    {
      seq(|paths|, i requires 0 <= i < |paths| reads this, paths, set p | p in paths :: p.scheduler => paths[i].State())
    }

    constructor (cfg: Settings)
      ensures Valid() && this.cfg == cfg && State() == []
    {
      this.cfg := cfg;
      paths := [];
    }

    /** The live paths, sorted stably by priority and round-trip time. */
    method SortAlive() returns (order: seq<nat>)
      requires Valid()
      ensures Ordered(cfg, State(), order, |paths|)
    {
      order := [];
      var i := 0;
      while i < |paths|
        invariant i <= |paths| && Ordered(cfg, State(), order, i)
      {
        if paths[i].role != Dead {
          var p := |order|;
          while p > 0 && Sooner(paths[i], paths[order[p - 1]])
            invariant 0 <= p <= |order| && forall k :: p <= k < |order| ==> Before(cfg, State(), i, order[k])
          {
            p := p - 1;
          }
          Inserted(cfg, State(), order, i, p);
          order := Insert(order, p, i);
        }
        i := i + 1;
      }
    }

    function Sooner(p: Path, q: Path): (b: bool)
    {
      var a, b := Priority(cfg, p.proto), Priority(cfg, q.proto);
      a < b || (a == b && p.rtt < q.rtt)
    }

    method Grade(i: nat, role: Role)
      requires Valid() && i < |paths|
      modifies paths[i]
      ensures Valid()
      ensures State() == old(State())[i := Graduated(cfg, old(State())[i], role)]
    {
      if paths[i].role != role {
        paths[i].SetRole(role);
      }
    }

    /** The next path of the order gets its role. */
    method GradeNext(ghost l: Ladder, order: seq<nat>, k: nat)
      requires Valid() && k < |order| && Ordered(cfg, l, order, |l|) && State() == Partly(cfg, l, order, k)
      modifies paths
      ensures Valid() && State() == Partly(cfg, l, order, k + 1)
    {
      PartlyStep(cfg, l, order, k);
      Grade(order[k], RoleAt(k));
    }

    method Regrade()
      requires Valid()
      modifies paths
      ensures Valid() && State() == PathLadder.Regrade(cfg, old(State()))
    {
      ghost var l := State();
      var order := SortAlive();
      var k := 0;
      assert State() == Partly(cfg, l, order, 0);
      while k < |order|
        invariant k <= |order| && Valid()
        invariant State() == Partly(cfg, l, order, k)
      {
        GradeNext(l, order, k);
        k := k + 1;
      }
      PartlyDone(cfg, l, order);
    }

    method IndexOf(id: string) returns (i: nat)
      requires Valid()
      ensures i == Find(State(), id)
    {
      i := 0;
      while i < |paths| && paths[i].id != id
        invariant i <= |paths| && forall j :: 0 <= j < i ==> State()[j].id != id
      {
        i := i + 1;
      }
    }

    method Put(i: nat, p: Path)
      requires Valid() && i <= |paths| && p !in paths && p.Valid() && p.cfg == cfg
      requires forall j :: 0 <= j < |paths| ==> paths[j].scheduler != p.scheduler
      modifies this
      ensures Valid() && p in paths && forall q :: q in paths ==> q == p || q in old(paths)
      ensures State() == if i < |old(State())| then old(State())[i := p.State()] else old(State()) + [p.State()]
    {
      if i < |paths| {
        paths := paths[i := p];
        assert paths[i] == p;
      } else {
        paths := paths + [p];
        assert paths[i] == p;
      }
    }

    method PutNew(i: nat, id: string, proto: Proto, rtt: int) returns (p: Path)
      requires Valid() && i <= |paths|
      modifies this
      ensures Valid() && fresh(p) && p in paths && forall q :: q in paths ==> q == p || q in old(paths)
      ensures var r := Rung(id, proto, rtt, WarmLoose, Start(cfg, WarmLoose, proto));
        State() == if i < |old(State())| then old(State())[i := r] else old(State()) + [r]
    {
      p := new Path(cfg, id, proto, rtt, WarmLoose);
      Put(i, p);
    }

    method EnterNew(i: nat, id: string, proto: Proto, rtt: int) returns (p: Path)
      requires Valid() && i == Find(State(), id)
      modifies this
      ensures Valid() && fresh(p) && p in paths && forall q :: q in paths ==> q == p || q in old(paths)
      ensures State() == Enter(cfg, old(State()), id, proto, rtt)
    {
      p := PutNew(i, id, proto, rtt);
    }

    /** Enters a new path, or finds the live one of that id. */
    method Register(id: string, proto: Proto, rtt: int) returns (p: Path)
      requires Valid()
      modifies this, paths
      ensures Valid() && p in paths
      ensures State() == PathLadder.Register(cfg, old(State()), id, proto, rtt)
    {
      var i := IndexOf(id);
      if i < |paths| && paths[i].role != Dead {
        return paths[i];
      }
      p := EnterNew(i, id, proto, rtt);
      assert forall j :: 0 <= j < |paths| ==> fresh(paths[j]) || paths[j] in old(paths);
      Regrade();
    }

    method RemoveAt(i: nat)
      requires Valid() && i < |paths|
      modifies this
      ensures Valid() && State() == old(State())[..i] + old(State())[i + 1..]
    {
      paths := paths[..i] + paths[i + 1..];
    }

    method Remove(id: string)
      requires Valid()
      modifies this
      ensures Valid() && State() == PathLadder.Remove(old(State()), id)
    {
      ghost var l := State();
      var i := IndexOf(id);
      RemovedAt(l, id, i);
      if i < |paths| {
        RemoveAt(i);
      }
    }

    method Reassign(i: nat, role: Role)
      requires Valid() && i < |paths|
      modifies paths[i]
      ensures Valid() && State() == old(State())[i := PathLadder.SetRole(cfg, old(State())[i], role)]
    {
      paths[i].SetRole(role);
    }

    method Bury(i: nat)
      requires Valid() && i < |paths|
      modifies paths[i]
      ensures Valid() && State() == old(State())[i := old(State())[i].(role := Dead)]
    {
      paths[i].role := Dead;
    }

    /** The last path of each of the three live roles, or the number of paths. */
    method LastOnes() returns (hot: nat, safe: nat, loose: nat)
      requires Valid()
      ensures hot == Last(State(), Hot) && safe == Last(State(), WarmSafe) && loose == Last(State(), WarmLoose)
    {
      hot, safe, loose := |paths|, |paths|, |paths|;
      var i := 0;
      ghost var l := State();
      while i < |paths|
        invariant i <= |paths|
        invariant IsLast(l, i, hot, Hot) && IsLast(l, i, safe, WarmSafe) && IsLast(l, i, loose, WarmLoose)
      {
        match paths[i].role {
          case Hot => hot := i;
          case WarmSafe => safe := i;
          case WarmLoose => loose := i;
          case Dead =>
        }
        i := i + 1;
      }
      IsLastOne(l, hot, Hot);
      IsLastOne(l, safe, WarmSafe);
      IsLastOne(l, loose, WarmLoose);
    }

    /** The hot path has failed; which one takes its place. */
    method PromoteOnHotFailure() returns (newHot: Option<string>)
      requires Valid()
      modifies paths
      ensures Valid() && State() == Promote(cfg, old(State()))
      ensures newHot == var s := Last(old(State()), WarmSafe);
        if s < |old(State())| then Some(old(State())[s].id) else None
    {
      ghost var l := State();
      var hot, safe, loose := LastOnes();
      newHot := MoveUp(hot, safe, loose);
      assert State() == Promote(cfg, l) by {
        MovesPromote(cfg, l);
      }
    }

    method MoveUp(hot: nat, safe: nat, loose: nat) returns (newHot: Option<string>)
      requires Valid()
      modifies paths
      ensures Valid() && State() == Moves(cfg, old(State()), hot, safe, loose)
      ensures newHot == if safe < |old(State())| then Some(old(State())[safe].id) else None
    {
      newHot := None;
      if hot < |paths| {
        Bury(hot);
      }
      if safe < |paths| {
        Reassign(safe, Hot);
        newHot := Some(paths[safe].id);
      }
      if loose < |paths| {
        Reassign(loose, WarmSafe);
      }
    }

    method ProbeAt(i: nat, ok: bool)
      requires Valid() && i < |paths|
      modifies paths[i].scheduler
      ensures Valid()
      ensures State() == old(State())[i := old(State())[i].(search := Probe(cfg, old(State())[i].search, ok))]
    {
      if ok {
        paths[i].scheduler.OnSuccess();
      } else {
        paths[i].scheduler.OnFailure();
      }
    }

    /** The keepalive loop's probe of a live path. */
    method OnProbe(id: string, ok: bool)
      requires Valid()
      modifies set p | p in paths :: p.scheduler
      ensures Valid() && State() == Probed(cfg, old(State()), id, ok)
    {
      var i := IndexOf(id);
      if i < |paths| && paths[i].role != Dead {
        ProbeAt(i, ok);
      }
    }
  }

  lemma IsLastOne(l: Ladder, k: nat, role: Role)
    requires IsLast(l, |l|, k, role)
    ensures k == Last(l, role)
  {
  }

  /** The three moves of a promotion, one after the other. */
  ghost function Moves(cfg: Settings, l: Ladder, h: nat, s: nat, w: nat): Ladder {
    var a := if h < |l| then l[h := l[h].(role := Dead)] else l;
    var b := if s < |a| then a[s := PathLadder.SetRole(cfg, a[s], Hot)] else a;
    if w < |b| then b[w := PathLadder.SetRole(cfg, b[w], WarmSafe)] else b
  }

  lemma MovesPromote(cfg: Settings, l: Ladder)
    ensures Moves(cfg, l, Last(l, Hot), Last(l, WarmSafe), Last(l, WarmLoose)) == Promote(cfg, l)
  {
  }

  lemma RemovedAt(l: Ladder, id: string, i: nat)
    requires i == Find(l, id)
    ensures PathLadder.Remove(l, id) == if i < |l| then l[..i] + l[i + 1..] else l
  {
  }

  /** Of the first n paths, k is the last of a role; if there is none, k is the number of paths. */
  predicate IsLast(l: Ladder, n: nat, k: nat, role: Role)
    requires n <= |l|
  {
    (k < n && l[k].role == role && forall j :: k < j < n ==> l[j].role != role)
    || (k == |l| && forall j :: 0 <= j < n ==> l[j].role != role)
  }

  // ---------- regrading, path by path ----------

  function Graduated(cfg: Settings, r: Rung, role: Role): Rung {
    if r.role == role then r else PathLadder.SetRole(cfg, r, role)
  }

  /** The first k paths of the order have got their roles. */
  ghost function Partly(cfg: Settings, l: Ladder, order: seq<nat>, k: nat): (r: Ladder)
    requires k <= |order|
    ensures |r| == |l|
  {
    seq(|l|, i requires 0 <= i < |l| => if i in order[..k] then Regraded(cfg, l, i) else l[i])
  }

  lemma PartlyStep(cfg: Settings, l: Ladder, order: seq<nat>, k: nat)
    requires Ordered(cfg, l, order, |l|) && k < |order|
    ensures var p := Partly(cfg, l, order, k);
      Partly(cfg, l, order, k + 1) == p[order[k] := Graduated(cfg, p[order[k]], RoleAt(k))]
  {
    PlaceIsDeserved(cfg, l, order, k);
    OrderedOnce(cfg, l, order, k);
    PartlyNext(cfg, l, order, k, RoleAt(k));
  }

  lemma PartlyNext(cfg: Settings, l: Ladder, order: seq<nat>, k: nat, role: Role)
    requires k < |order| && order[k] < |l| && order[k] !in order[..k]
    requires Regraded(cfg, l, order[k]) == Graduated(cfg, l[order[k]], role)
    ensures var p := Partly(cfg, l, order, k);
      Partly(cfg, l, order, k + 1) == p[order[k] := Graduated(cfg, p[order[k]], role)]
  {
    var p, q := Partly(cfg, l, order, k), Partly(cfg, l, order, k + 1);
    assert order[..k + 1] == order[..k] + [order[k]];
    assert forall i :: i in order[..k + 1] <==> i in order[..k] || i == order[k];
    assert forall i :: 0 <= i < |l| && i != order[k] ==> q[i] == p[i];
    assert q[order[k]] == Regraded(cfg, l, order[k]) && p[order[k]] == l[order[k]];
  }

  lemma PartlyDone(cfg: Settings, l: Ladder, order: seq<nat>)
    requires Ordered(cfg, l, order, |l|)
    ensures Partly(cfg, l, order, |order|) == Regrade(cfg, l)
  {
    assert order[..|order|] == order;
  }

  lemma OrderedOnce(cfg: Settings, l: Ladder, order: seq<nat>, k: nat)
    requires Ordered(cfg, l, order, |l|) && k < |order|
    ensures order[k] !in order[..k]
  {
    BeforeTotal(cfg, l, order[k], order[k], order[k]);
  }
}
