/** The paths to one peer and their roles, as a value: which role each event gives to which
    path, and what shape every run leaves. */
module PathLadder {
  import opened KeepaliveSearch

  datatype Rung = Rung(id: string, proto: Proto, rtt: int, role: Role, search: Search)

  /** The dictionary of paths, in the order in which its keys were first entered. */
  type Ladder = seq<Rung>

  predicate Live(l: Ladder, i: nat) {
    i < |l| && l[i].role != Dead
  }

  function Priority(cfg: Settings, proto: Proto): int {
    if proto in cfg.priorities then cfg.priorities[proto] else 9
  }

  /** The stable order by priority and then round-trip time. */
  predicate Before(cfg: Settings, l: Ladder, i: nat, j: nat)
    requires i < |l| && j < |l|
  {
    var p, q := Priority(cfg, l[i].proto), Priority(cfg, l[j].proto);
    p < q || (p == q && (l[i].rtt < l[j].rtt || (l[i].rtt == l[j].rtt && i < j)))
  }

  predicate Beats(cfg: Settings, l: Ladder, i: nat, j: nat)
    requires j < |l|
  {
    Live(l, i) && Before(cfg, l, i, j)
  }

  predicate First(cfg: Settings, l: Ladder, i: nat) {
    Live(l, i) && forall j :: 0 <= j < |l| ==> !Beats(cfg, l, j, i)
  }

  predicate Second(cfg: Settings, l: Ladder, i: nat) {
    Live(l, i) && exists j :: 0 <= j < |l| && Beats(cfg, l, j, i)
                              && forall k :: 0 <= k < |l| && Beats(cfg, l, k, i) ==> k == j
  }

  /** The role that a live path's place in the order calls for. */
  function Deserved(cfg: Settings, l: Ladder, i: nat): Role
    requires Live(l, i)
  {
    if First(cfg, l, i) then Hot else if Second(cfg, l, i) then WarmSafe else WarmLoose
  }

  // ---------- events ----------

  /** Changing a role starts the path's keepalive search anew. */
  function SetRole(cfg: Settings, r: Rung, role: Role): Rung {
    r.(role := role, search := Start(cfg, role, r.proto))
  }

  function Regraded(cfg: Settings, l: Ladder, i: nat): Rung
    requires i < |l|
  {
    if l[i].role == Dead || l[i].role == Deserved(cfg, l, i) then l[i]
    else SetRole(cfg, l[i], Deserved(cfg, l, i))
  }

  function Regrade(cfg: Settings, l: Ladder): (r: Ladder)
    ensures |r| == |l|
  {
    seq(|l|, i requires 0 <= i < |l| => Regraded(cfg, l, i))
  }

  /** The position of a path, or the number of paths. */
  function Find(l: Ladder, id: string): (i: nat)
    ensures i <= |l| && (i < |l| ==> l[i].id == id) && forall j :: 0 <= j < i ==> l[j].id != id
  {
    if l == [] then 0 else if l[0].id == id then 0 else 1 + Find(l[1..], id)
  }

  /** A new path, or a dead one's successor in its place. */
  function Enter(cfg: Settings, l: Ladder, id: string, proto: Proto, rtt: int): Ladder {
    var i, r := Find(l, id), Rung(id, proto, rtt, WarmLoose, Start(cfg, WarmLoose, proto));
    if i < |l| then l[i := r] else l + [r]
  }

  function Register(cfg: Settings, l: Ladder, id: string, proto: Proto, rtt: int): Ladder {
    if Live(l, Find(l, id)) then l else Regrade(cfg, Enter(cfg, l, id, proto, rtt))
  }

  function Remove(l: Ladder, id: string): Ladder {
    var i := Find(l, id);
    if i < |l| then l[..i] + l[i + 1..] else l
  }

  /** The last path of a role, or the number of paths. */
  function Last(l: Ladder, role: Role): (i: nat)
    ensures i <= |l| && (i < |l| ==> l[i].role == role)
    ensures forall j :: 0 <= j < |l| && l[j].role == role ==> i < |l| && j <= i
  {
    if l == [] then 0
    else if l[|l| - 1].role == role then |l| - 1
    else
      var i := Last(l[..|l| - 1], role);
      if i < |l| - 1 then i else |l|
  }

  /** The hot path has failed: it dies, the safe one takes its place, and the last of the
      loose ones that of the safe one. */
  function Promoted(cfg: Settings, l: Ladder, i: nat): Rung
    requires i < |l|
  {
    if i == Last(l, Hot) then l[i].(role := Dead)
    else if i == Last(l, WarmSafe) then SetRole(cfg, l[i], Hot)
    else if i == Last(l, WarmLoose) then SetRole(cfg, l[i], WarmSafe)
    else l[i]
  }

  function Promote(cfg: Settings, l: Ladder): (r: Ladder)
    ensures |r| == |l|
  {
    seq(|l|, i requires 0 <= i < |l| => Promoted(cfg, l, i))
  }

  /** A keepalive probe of a live path. */
  function Probed(cfg: Settings, l: Ladder, id: string, ok: bool): Ladder {
    var i := Find(l, id);
    if Live(l, i) then l[i := l[i].(search := Probe(cfg, l[i].search, ok))] else l
  }

  // ---------- the shape ----------

  predicate AtMostOne(l: Ladder, role: Role) {
    forall i, j :: 0 <= i < j < |l| && l[i].role == role ==> l[j].role != role
  }

  predicate Present(l: Ladder, role: Role) {
    exists i :: 0 <= i < |l| && l[i].role == role
  }

  predicate Single(l: Ladder) {
    AtMostOne(l, Hot) && AtMostOne(l, WarmSafe)
  }

  /** One hot path if any lives, one safe one if any other does; all further ones are loose. */
  predicate Shaped(l: Ladder) {
    && Single(l)
    && (Present(l, WarmSafe) || Present(l, WarmLoose) ==> Present(l, Hot))
    && (Present(l, WarmLoose) ==> Present(l, WarmSafe))
  }

  predicate DistinctIds(l: Ladder) {
    forall i, j :: 0 <= i < j < |l| ==> l[i].id != l[j].id
  }

  /** Every live path's search is one for its own role and protocol, and within its bounds. */
  predicate Tuned(cfg: Settings, l: Ladder) {
    forall i :: 0 <= i < |l| && l[i].role != Dead ==>
      l[i].search.role == l[i].role && l[i].search.proto == l[i].proto && Bounded(cfg, l[i].search)
  }

  predicate Graded(cfg: Settings, l: Ladder) {
    forall i :: 0 <= i < |l| && l[i].role != Dead ==> l[i].role == Deserved(cfg, l, i)
  }

  // ---------- the order ----------

  lemma BeforeTotal(cfg: Settings, l: Ladder, i: nat, j: nat, k: nat)
    requires i < |l| && j < |l| && k < |l|
    ensures !Before(cfg, l, i, i)
    ensures i != j ==> (Before(cfg, l, i, j) <==> !Before(cfg, l, j, i))
    ensures Before(cfg, l, i, j) && Before(cfg, l, j, k) ==> Before(cfg, l, i, k)
  {
  }

  /** Of the live paths among the first n, other than some one path, one is before all others. */
  lemma {:induction false} Least(cfg: Settings, l: Ladder, n: nat, but: int) returns (m: nat)
    requires n <= |l| && exists i :: 0 <= i < n && Live(l, i) && i != but
    ensures m < n && Live(l, m) && m != but
    ensures forall i :: 0 <= i < n && Live(l, i) && i != but && i != m ==> Before(cfg, l, m, i)
  {
    if i :| 0 <= i < n - 1 && Live(l, i) && i != but {
      m := Least(cfg, l, n - 1, but);
      if Live(l, n - 1) && n - 1 != but && Before(cfg, l, n - 1, m) {
        forall i | 0 <= i < n - 1 && Live(l, i) && i != but && i != m ensures Before(cfg, l, n - 1, i) {
          BeforeTotal(cfg, l, n - 1, m, i);
        }
        m := n - 1;
      } else {
        BeforeTotal(cfg, l, n - 1, m, m);
      }
    } else {
      m := n - 1;
    }
  }

  lemma FirstAlone(cfg: Settings, l: Ladder, i: nat, j: nat)
    requires i < |l| && j < |l| && i != j
    ensures !(First(cfg, l, i) && First(cfg, l, j))
    ensures !(Second(cfg, l, i) && Second(cfg, l, j))
  {
    BeforeTotal(cfg, l, i, j, i);
    assert Live(l, i) && Live(l, j) ==> Beats(cfg, l, i, j) || Beats(cfg, l, j, i);
    if Second(cfg, l, i) && Second(cfg, l, j) {
      SecondAlone(cfg, l, i, j);
    }
  }

  lemma SecondAlone(cfg: Settings, l: Ladder, i: nat, j: nat)
    requires i < |l| && j < |l| && Second(cfg, l, i) && Second(cfg, l, j)
    ensures i == j
  {
    if i != j {
      var a, b := if Before(cfg, l, i, j) then i else j, if Before(cfg, l, i, j) then j else i;
      BeforeTotal(cfg, l, i, j, i);
      var k :| 0 <= k < |l| && Beats(cfg, l, k, a);
      BeforeTotal(cfg, l, k, a, b);
      BeforeTotal(cfg, l, a, a, a);
      assert k != a && Beats(cfg, l, k, b) && Beats(cfg, l, a, b);
    }
  }

  /** If any path lives there is a first one, and if another does there is a second one. */
  lemma RanksExist(cfg: Settings, l: Ladder)
    ensures (exists i :: Live(l, i)) ==> exists i :: First(cfg, l, i)
    ensures (exists i, j :: Live(l, i) && Live(l, j) && i != j) ==> exists i :: Second(cfg, l, i)
  {
    if exists i :: Live(l, i) {
      var i: nat :| Live(l, i);
      var m := Least(cfg, l, |l|, -1);
      forall j | 0 <= j < |l| ensures !Beats(cfg, l, j, m) {
        BeforeTotal(cfg, l, j, m, m);
      }
      assert First(cfg, l, m);
      if a, b :| Live(l, a) && Live(l, b) && a != b {
        assert exists k :: 0 <= k < |l| && Live(l, k) && k != m by {
          assert a != m || b != m;
        }
        var n := Least(cfg, l, |l|, m);
        assert Beats(cfg, l, m, n);
        forall k | 0 <= k < |l| && Beats(cfg, l, k, n) ensures k == m {
          BeforeTotal(cfg, l, k, n, n);
        }
        assert Second(cfg, l, n);
      }
    }
  }

  lemma GradedSingle(cfg: Settings, l: Ladder)
    requires Graded(cfg, l)
    ensures Single(l)
  {
    forall i, j | 0 <= i < j < |l| && l[i].role != Dead ensures l[i].role == l[j].role ==> l[i].role == WarmLoose {
      FirstAlone(cfg, l, i, j);
    }
  }

  lemma GradedHotPresent(cfg: Settings, l: Ladder, i: nat)
    requires Graded(cfg, l) && Live(l, i)
    ensures Present(l, Hot)
  {
    RanksExist(cfg, l);
    var f: nat :| First(cfg, l, f);
    assert l[f].role == Hot;
  }

  lemma GradedSafePresent(cfg: Settings, l: Ladder, i: nat)
    requires Graded(cfg, l) && Live(l, i) && l[i].role == WarmLoose
    ensures Present(l, WarmSafe)
  {
    GradedHotPresent(cfg, l, i);
    var f :| 0 <= f < |l| && l[f].role == Hot;
    assert Live(l, f) && i != f;
    RanksExist(cfg, l);
    var s: nat :| Second(cfg, l, s);
    assert !First(cfg, l, s);
    assert l[s].role == WarmSafe;
  }

  /** Roles that follow the order form the shape. */
  lemma GradedShaped(cfg: Settings, l: Ladder)
    requires Graded(cfg, l)
    ensures Shaped(l)
  {
    GradedSingle(cfg, l);
    if i :| 0 <= i < |l| && l[i].role != Dead {
      GradedHotPresent(cfg, l, i);
    }
    if i :| 0 <= i < |l| && l[i].role == WarmLoose {
      GradedSafePresent(cfg, l, i);
    }
  }

  /** Alive in the same places, with the same protocols and round-trip times. */
  predicate Alike(l: Ladder, r: Ladder) {
    |l| == |r| && forall i :: 0 <= i < |l| ==>
      l[i].proto == r[i].proto && l[i].rtt == r[i].rtt && (l[i].role == Dead <==> r[i].role == Dead)
  }

  lemma BeatsAlike(cfg: Settings, l: Ladder, r: Ladder, i: nat, j: nat)
    requires Alike(l, r) && i < |l| && j < |l|
    ensures Beats(cfg, l, i, j) == Beats(cfg, r, i, j)
  {
  }

  lemma DeservedAlike(cfg: Settings, l: Ladder, r: Ladder, i: nat)
    requires Alike(l, r) && Live(l, i)
    ensures Live(r, i) && Deserved(cfg, l, i) == Deserved(cfg, r, i)
  {
    forall j | 0 <= j < |l| ensures Beats(cfg, l, j, i) == Beats(cfg, r, j, i) {
      BeatsAlike(cfg, l, r, j, i);
    }
    assert First(cfg, l, i) == First(cfg, r, i);
    if Second(cfg, l, i) {
      var j :| 0 <= j < |l| && Beats(cfg, l, j, i) && forall k :: 0 <= k < |l| && Beats(cfg, l, k, i) ==> k == j;
      assert Beats(cfg, r, j, i);
    }
    if Second(cfg, r, i) {
      var j :| 0 <= j < |r| && Beats(cfg, r, j, i) && forall k :: 0 <= k < |r| && Beats(cfg, r, k, i) ==> k == j;
      assert Beats(cfg, l, j, i);
    }
  }

  /** Regrading gives every live path the role of its place in the order. */
  lemma RegradeGraded(cfg: Settings, l: Ladder)
    ensures Graded(cfg, Regrade(cfg, l))
  {
    var r := Regrade(cfg, l);
    assert Alike(l, r);
    forall i | 0 <= i < |r| && r[i].role != Dead ensures r[i].role == Deserved(cfg, r, i) {
      DeservedAlike(cfg, l, r, i);
    }
  }

  // ---------- what each event keeps ----------

  ghost predicate Sound(cfg: Settings, l: Ladder) {
    DistinctIds(l) && Tuned(cfg, l)
  }

  lemma StartTuned(cfg: Settings, role: Role, proto: Proto)
    requires Sensible(cfg)
    ensures Bounded(cfg, Start(cfg, role, proto))
  {
  }

  lemma RegradeSound(cfg: Settings, l: Ladder)
    requires Sensible(cfg) && Sound(cfg, l)
    ensures Sound(cfg, Regrade(cfg, l))
  {
    forall i | 0 <= i < |l| && l[i].role != Dead ensures Bounded(cfg, Regraded(cfg, l, i).search) {
      StartTuned(cfg, Deserved(cfg, l, i), l[i].proto);
    }
  }

  lemma EnterSound(cfg: Settings, l: Ladder, id: string, proto: Proto, rtt: int)
    requires Sensible(cfg) && Sound(cfg, l)
    ensures Sound(cfg, Enter(cfg, l, id, proto, rtt))
  {
    StartTuned(cfg, WarmLoose, proto);
  }

  lemma RemoveSound(cfg: Settings, l: Ladder, id: string)
    requires Sound(cfg, l)
    ensures Sound(cfg, Remove(l, id)) && forall j :: 0 <= j < |Remove(l, id)| ==> Remove(l, id)[j].id != id
  {
    var k, r := Find(l, id), Remove(l, id);
    assert forall j :: 0 <= j < |r| ==> r[j] == l[if j < k then j else j + 1];
  }

  lemma PromoteSound(cfg: Settings, l: Ladder)
    requires Sensible(cfg) && Sound(cfg, l)
    ensures Sound(cfg, Promote(cfg, l))
  {
    var r := Promote(cfg, l);
    forall i | 0 <= i < |l| && r[i].role != Dead
      ensures r[i].search.role == r[i].role && r[i].search.proto == r[i].proto && Bounded(cfg, r[i].search)
    {
      PromotedTuned(cfg, l, i);
    }
    assert forall i :: 0 <= i < |l| ==> r[i].id == l[i].id;
  }

  lemma PromotedTuned(cfg: Settings, l: Ladder, i: nat)
    requires Sensible(cfg) && Tuned(cfg, l) && i < |l| && Promoted(cfg, l, i).role != Dead
    ensures var p := Promoted(cfg, l, i);
      p.search.role == p.role && p.search.proto == p.proto && Bounded(cfg, p.search)
  {
    StartTuned(cfg, Hot, l[i].proto);
    StartTuned(cfg, WarmSafe, l[i].proto);
  }

  lemma ProbedSound(cfg: Settings, l: Ladder, id: string, ok: bool)
    requires Sensible(cfg) && Sound(cfg, l)
    ensures Sound(cfg, Probed(cfg, l, id, ok))
  {
    var i := Find(l, id);
    if Live(l, i) {
      ProbeBounded(cfg, l[i].search, ok);
    }
  }

  /** The three paths that a promotion moves. */
  lemma PromoteSingle(cfg: Settings, l: Ladder)
    requires Single(l)
    ensures Single(Promote(cfg, l))
    ensures Shaped(l) ==> Shaped(Promote(cfg, l))
  {
    var r := Promote(cfg, l);
    var h, s, w := Last(l, Hot), Last(l, WarmSafe), Last(l, WarmLoose);
    forall i | 0 <= i < |l|
      ensures r[i].role == Hot <==> i == s
      ensures r[i].role == WarmSafe <==> i == w
    {
    }
    if Shaped(l) {
      assert Present(r, WarmLoose) ==> Present(l, WarmLoose);
      assert Present(l, WarmLoose) ==> w < |l| && r[w].role == WarmSafe;
      assert Present(l, WarmSafe) ==> s < |l| && r[s].role == Hot;
    }
  }

  lemma RemoveSingle(l: Ladder, id: string)
    requires Single(l)
    ensures Single(Remove(l, id))
  {
  }

  lemma RemovePresent(l: Ladder, id: string, role: Role)
    requires Find(l, id) < |l|
    ensures Present(Remove(l, id), role) <==> exists j :: 0 <= j < |l| && j != Find(l, id) && l[j].role == role
  {
    CutPresent(l, Find(l, id), role);
  }

  lemma CutPresent(l: Ladder, i: nat, role: Role)
    requires i < |l|
    ensures Present(l[..i] + l[i + 1..], role) <==> exists j :: 0 <= j < |l| && j != i && l[j].role == role
  {
    var r := l[..i] + l[i + 1..];
    if j :| 0 <= j < |l| && j != i && l[j].role == role {
      assert r[if j < i then j else j - 1] == l[j];
    }
    if j :| 0 <= j < |r| && r[j].role == role {
      assert r[j] == l[if j < i then j else j + 1];
    }
  }

  /** Removing a path keeps the shape unless it is the hot one and another lives, or the safe
      one and a loose one lives. */
  lemma RemoveShapedExact(l: Ladder, id: string)
    requires Shaped(l)
    ensures var i := Find(l, id);
      Shaped(Remove(l, id)) <==>
        !(i < |l| && ((l[i].role == Hot && Present(l, WarmSafe)) || (l[i].role == WarmSafe && Present(l, WarmLoose))))
  {
    var i := Find(l, id);
    if i < |l| {
      RemovePresent(l, id, Hot);
      RemovePresent(l, id, WarmSafe);
      RemovePresent(l, id, WarmLoose);
      RemoveSingle(l, id);
    }
  }

  // ---------- runs ----------

  datatype Event =
    | Registering(id: string, proto: Proto, rtt: int)
    | Regrading
    | Promoting
    | Removing(id: string)
    | Probing(id: string, ok: bool)

  function Step(cfg: Settings, l: Ladder, e: Event): Ladder {
    match e
    case Registering(id, proto, rtt) => Register(cfg, l, id, proto, rtt)
    case Regrading => Regrade(cfg, l)
    case Promoting => Promote(cfg, l)
    case Removing(id) => Remove(l, id)
    case Probing(id, ok) => Probed(cfg, l, id, ok)
  }

  function Run(cfg: Settings, run: seq<Event>): Ladder {
    if run == [] then [] else Step(cfg, Run(cfg, run[..|run| - 1]), run[|run| - 1])
  }

  lemma StepSound(cfg: Settings, l: Ladder, e: Event)
    requires Sensible(cfg) && Sound(cfg, l)
    ensures Sound(cfg, Step(cfg, l, e))
  {
    match e
    case Registering(id, proto, rtt) =>
      EnterSound(cfg, l, id, proto, rtt);
      RegradeSound(cfg, Enter(cfg, l, id, proto, rtt));
    case Regrading => RegradeSound(cfg, l);
    case Promoting => PromoteSound(cfg, l);
    case Removing(id) => RemoveSound(cfg, l, id);
    case Probing(id, ok) => ProbedSound(cfg, l, id, ok);
  }

  lemma GradeShaped(cfg: Settings, l: Ladder)
    ensures Shaped(Regrade(cfg, l))
  {
    RegradeGraded(cfg, l);
    GradedShaped(cfg, Regrade(cfg, l));
  }

  lemma ProbedSingle(cfg: Settings, l: Ladder, id: string, ok: bool)
    ensures Single(l) ==> Single(Probed(cfg, l, id, ok))
    ensures Shaped(l) ==> Shaped(Probed(cfg, l, id, ok))
  {
    var r := Probed(cfg, l, id, ok);
    assert |r| == |l| && forall i :: 0 <= i < |l| ==> r[i].role == l[i].role;
    assert forall role :: Present(l, role) ==> Present(r, role);
    assert forall role :: Present(r, role) ==> Present(l, role);
  }

  lemma StepSingle(cfg: Settings, l: Ladder, e: Event)
    requires Single(l)
    ensures Single(Step(cfg, l, e))
    ensures Shaped(l) && !e.Removing? ==> Shaped(Step(cfg, l, e))
  {
    match e
    case Registering(id, proto, rtt) => GradeShaped(cfg, Enter(cfg, l, id, proto, rtt));
    case Regrading => GradeShaped(cfg, l);
    case Promoting => PromoteSingle(cfg, l);
    case Removing(id) => RemoveSingle(l, id);
    case Probing(id, ok) => ProbedSingle(cfg, l, id, ok);
  }

  /** In every run: at most one hot and at most one safe path, and every live path's keepalive
      search is one for its own role and protocol, within the bounds of both; and as long as
      no path has been removed, one hot, then one safe, then only loose ones. */
  lemma {:induction false} LadderHolds(cfg: Settings, run: seq<Event>)
    requires Sensible(cfg)
    ensures Single(Run(cfg, run)) && Sound(cfg, Run(cfg, run))
    ensures (forall i :: 0 <= i < |run| ==> !run[i].Removing?) ==> Shaped(Run(cfg, run))
  {
    if run == [] {
    } else {
      var before := run[..|run| - 1];
      LadderHolds(cfg, before);
      StepSound(cfg, Run(cfg, before), run[|run| - 1]);
      StepSingle(cfg, Run(cfg, before), run[|run| - 1]);
      assert forall i :: 0 <= i < |before| ==> before[i] == run[i];
    }
  }

  /** Whatever came before, a regrading or a newly registered path restores shape and order. */
  lemma RegradingRestores(cfg: Settings, run: seq<Event>)
    requires run != []
    requires var e := run[|run| - 1];
      e.Regrading? || (e.Registering? && var l := Run(cfg, run[..|run| - 1]); !Live(l, Find(l, e.id)))
    ensures Graded(cfg, Run(cfg, run)) && Shaped(Run(cfg, run))
  {
    var l, e := Run(cfg, run[..|run| - 1]), run[|run| - 1];
    RegradeGraded(cfg, if e.Regrading? then l else Enter(cfg, l, e.id, e.proto, e.rtt));
    GradedShaped(cfg, Run(cfg, run));
  }

  // ---------- promotion and the order ----------

  /** No loose path is before the last loose one. */
  predicate LastLooseIsBest(cfg: Settings, l: Ladder) {
    var w := Last(l, WarmLoose);
    w < |l| ==> forall i :: 0 <= i < |l| && l[i].role == WarmLoose && i != w ==> !Before(cfg, l, i, w)
  }

  /** The loose path that moves up is the last registered, not the best: promotion keeps a
      graded ladder graded if and only if that makes no difference. */
  lemma PromoteGradedExact(cfg: Settings, l: Ladder)
    requires Graded(cfg, l)
    ensures Graded(cfg, Promote(cfg, l)) <==> LastLooseIsBest(cfg, l)
  {
    GradedShaped(cfg, l);
    PromoteRoles(cfg, l);
    if LastLooseIsBest(cfg, l) {
      PromoteKeepsGrades(cfg, l);
    } else {
      PromoteBreaksGrades(cfg, l);
    }
  }

  lemma OnlyLast(l: Ladder, role: Role, i: nat)
    requires AtMostOne(l, role) && i < |l| && l[i].role == role
    ensures i == Last(l, role)
  {
  }

  lemma PromotedRole(cfg: Settings, l: Ladder, i: nat)
    requires Single(l) && i < |l|
    ensures var p := Promoted(cfg, l, i);
      && p.proto == l[i].proto && p.rtt == l[i].rtt
      && (p.role == Hot <==> l[i].role == WarmSafe)
      && (p.role == WarmSafe <==> i == Last(l, WarmLoose))
      && (p.role == WarmLoose <==> l[i].role == WarmLoose && i != Last(l, WarmLoose))
  {
    if l[i].role == Hot {
      OnlyLast(l, Hot, i);
    } else if l[i].role == WarmSafe {
      OnlyLast(l, WarmSafe, i);
    }
  }

  lemma PromoteRoles(cfg: Settings, l: Ladder)
    requires Shaped(l)
    ensures var r := Promote(cfg, l); forall i :: 0 <= i < |l| ==>
      && r[i].proto == l[i].proto && r[i].rtt == l[i].rtt
      && (r[i].role == Hot <==> l[i].role == WarmSafe)
      && (r[i].role == WarmSafe <==> i == Last(l, WarmLoose))
      && (r[i].role == WarmLoose <==> l[i].role == WarmLoose && i != Last(l, WarmLoose))
  {
    forall i | 0 <= i < |l| {
      PromotedRole(cfg, l, i);
    }
  }

  lemma GradedHot(cfg: Settings, l: Ladder, h: nat, s: nat, i: nat)
    requires Graded(cfg, l) && h < |l| && s < |l| && i < |l|
    requires l[h].role == Hot && l[s].role == WarmSafe && l[i].role == WarmLoose
    ensures Before(cfg, l, h, s) && Before(cfg, l, s, i)
  {
    assert First(cfg, l, h) && Second(cfg, l, s);
    assert !Beats(cfg, l, s, h) && !Beats(cfg, l, i, h);
    BeforeTotal(cfg, l, h, s, i);
    BeforeTotal(cfg, l, i, s, h);
    BeforeTotal(cfg, l, h, i, s);
    assert Beats(cfg, l, h, s);
    assert !Beats(cfg, l, i, s);
  }

  /** A ladder after a promotion: w has taken the place of s, s that of h. */
  predicate Moved(l: Ladder, r: Ladder, s: nat, w: nat) {
    && |r| == |l|
    && forall i :: 0 <= i < |l| ==>
      && r[i].proto == l[i].proto && r[i].rtt == l[i].rtt
      && (r[i].role == Hot <==> i == s)
      && (r[i].role == WarmSafe <==> i == w)
      && (r[i].role == WarmLoose ==> l[i].role == WarmLoose)
  }

  lemma MovedHot(cfg: Settings, l: Ladder, r: Ladder, s: nat, w: nat)
    requires Moved(l, r, s, w) && s < |l| && forall k :: 0 <= k < |l| && Live(r, k) && k != s ==> Before(cfg, l, s, k)
    ensures Deserved(cfg, r, s) == Hot
  {
    forall k | 0 <= k < |r| ensures !Beats(cfg, r, k, s) {
      BeforeTotal(cfg, l, k, s, s);
    }
  }

  lemma MovedSafe(cfg: Settings, l: Ladder, r: Ladder, s: nat, w: nat)
    requires Moved(l, r, s, w) && s < |l| && w < |l| && s != w
    requires Before(cfg, l, s, w) && forall k :: 0 <= k < |l| && Live(r, k) && k != s && k != w ==> Before(cfg, l, w, k)
    ensures Deserved(cfg, r, w) == WarmSafe
  {
    assert Beats(cfg, r, s, w);
    forall k | 0 <= k < |r| && Beats(cfg, r, k, w) ensures k == s {
      BeforeTotal(cfg, l, k, w, w);
    }
    assert Second(cfg, r, w);
  }

  lemma MovedLoose(cfg: Settings, l: Ladder, r: Ladder, s: nat, w: nat, i: nat)
    requires Moved(l, r, s, w) && s < |l| && w < |l| && s != w && i != s && i != w && Live(r, i)
    requires Before(cfg, l, s, i) && Before(cfg, l, w, i)
    ensures Deserved(cfg, r, i) == WarmLoose
  {
    assert Beats(cfg, r, s, i) && Beats(cfg, r, w, i);
  }

  lemma PromoteMoves(cfg: Settings, l: Ladder)
    requires Shaped(l)
    ensures Moved(l, Promote(cfg, l), Last(l, WarmSafe), Last(l, WarmLoose))
  {
    PromoteRoles(cfg, l);
  }

  lemma PromoteKeepsGrades(cfg: Settings, l: Ladder)
    requires Graded(cfg, l) && Shaped(l) && LastLooseIsBest(cfg, l)
    ensures Graded(cfg, Promote(cfg, l))
  {
    var r, s, w := Promote(cfg, l), Last(l, WarmSafe), Last(l, WarmLoose);
    PromoteMoves(cfg, l);
    if Present(l, WarmSafe) {
      SafeIsBest(cfg, l);
      MovedGraded(cfg, l, r, s, w);
    }
  }

  lemma SafeIsBest(cfg: Settings, l: Ladder)
    requires Graded(cfg, l) && Shaped(l) && Present(l, WarmSafe)
    ensures forall k :: 0 <= k < |l| && l[k].role == WarmLoose ==> Before(cfg, l, Last(l, WarmSafe), k)
  {
    var h :| 0 <= h < |l| && l[h].role == Hot;
    forall k | 0 <= k < |l| && l[k].role == WarmLoose ensures Before(cfg, l, Last(l, WarmSafe), k) {
      GradedHot(cfg, l, h, Last(l, WarmSafe), k);
    }
  }

  lemma MovedGraded(cfg: Settings, l: Ladder, r: Ladder, s: nat, w: nat)
    requires Moved(l, r, s, w) && s < |l| && l[s].role == WarmSafe && (w < |l| ==> l[w].role == WarmLoose)
    requires (exists k :: 0 <= k < |l| && l[k].role == WarmLoose) ==> w < |l|
    requires forall k :: 0 <= k < |l| && l[k].role == WarmLoose ==> Before(cfg, l, s, k)
    requires w < |l| ==> forall k :: 0 <= k < |l| && l[k].role == WarmLoose && k != w ==> !Before(cfg, l, k, w)
    ensures Graded(cfg, r)
  {
    MovedHot(cfg, l, r, s, w);
    forall k | 0 <= k < |l| && w < |l| && l[k].role == WarmLoose && k != w ensures Before(cfg, l, w, k) {
      BeforeTotal(cfg, l, w, k, w);
    }
    if w < |l| {
      MovedSafe(cfg, l, r, s, w);
    }
    forall i | 0 <= i < |r| && r[i].role == WarmLoose ensures Deserved(cfg, r, i) == WarmLoose {
      MovedLoose(cfg, l, r, s, w, i);
    }
  }

  lemma PromoteBreaksGrades(cfg: Settings, l: Ladder)
    requires Graded(cfg, l) && Shaped(l) && !LastLooseIsBest(cfg, l)
    ensures !Graded(cfg, Promote(cfg, l))
  {
    PromoteRoles(cfg, l);
    var r, s, w := Promote(cfg, l), Last(l, WarmSafe), Last(l, WarmLoose);
    var i :| 0 <= i < |l| && l[i].role == WarmLoose && i != w && Before(cfg, l, i, w);
    assert Present(l, WarmLoose) && s < |l|;
    var h :| 0 <= h < |l| && l[h].role == Hot;
    GradedHot(cfg, l, h, s, w);
    assert Beats(cfg, r, i, w) && Beats(cfg, r, s, w) && i != s;
    assert r[w].role == WarmSafe && !Second(cfg, r, w);
  }

  /** Paths registered best first. */
  function Chain(n: nat): (r: seq<Event>)
    ensures |r| == n
  {
    if n == 0 then [] else Chain(n - 1) + [Registering(seq(n, _ => 'a'), "tcp", n)]
  }

  predicate Ascending(l: Ladder) {
    forall i :: 0 <= i < |l| ==> |l[i].id| == i + 1 && l[i].proto == "tcp" && l[i].rtt == i + 1 && l[i].role != Dead
  }

  lemma ChainStep(cfg: Settings, l: Ladder, id: string)
    requires Ascending(l) && |id| == |l| + 1
    ensures var r := Register(cfg, l, id, "tcp", |l| + 1); |r| == |l| + 1 && Ascending(r) && Graded(cfg, r)
  {
    NewPath(cfg, l, id, "tcp", |l| + 1);
    NewPathGraded(cfg, l, id, "tcp", |l| + 1);
    AscendingNext(l, Register(cfg, l, id, "tcp", |l| + 1));
  }

  lemma AscendingNext(l: Ladder, r: Ladder)
    requires Ascending(l) && |r| == |l| + 1
    requires forall i :: 0 <= i < |l| ==>
      && r[i].id == l[i].id && r[i].proto == l[i].proto && r[i].rtt == l[i].rtt
      && (r[i].role == Dead <==> l[i].role == Dead)
    requires |r[|l|].id| == |l| + 1 && r[|l|].proto == "tcp" && r[|l|].rtt == |l| + 1 && r[|l|].role != Dead
    ensures Ascending(r)
  {
  }

  lemma RunAppend(cfg: Settings, run: seq<Event>, e: Event)
    ensures Run(cfg, run + [e]) == Step(cfg, Run(cfg, run), e)
  {
    assert (run + [e])[..|run|] == run;
  }

  lemma ChainNext(cfg: Settings, n: nat)
    requires n > 0
    ensures Run(cfg, Chain(n)) == Register(cfg, Run(cfg, Chain(n - 1)), seq(n, _ => 'a'), "tcp", n)
  {
    RunAppend(cfg, Chain(n - 1), Registering(seq(n, _ => 'a'), "tcp", n));
  }

  lemma {:induction false} ChainRun(cfg: Settings, n: nat)
    ensures |Run(cfg, Chain(n))| == n && Ascending(Run(cfg, Chain(n)))
    ensures n > 0 ==> Graded(cfg, Run(cfg, Chain(n)))
  {
    if n == 0 {
    } else {
      ChainRun(cfg, n - 1);
      ChainNext(cfg, n);
      ChainStep(cfg, Run(cfg, Chain(n - 1)), seq(n, _ => 'a'));
    }
  }

  lemma TwiceBeaten(cfg: Settings, l: Ladder, a: nat, b: nat, i: nat)
    requires Live(l, i) && a != b && a < |l| && b < |l| && Beats(cfg, l, a, i) && Beats(cfg, l, b, i)
    ensures Deserved(cfg, l, i) == WarmLoose
  {
  }

  lemma AscendingUnsorts(cfg: Settings, l: Ladder)
    requires |l| == 4 && Ascending(l) && Graded(cfg, l)
    ensures !LastLooseIsBest(cfg, l)
  {
    TwiceBeaten(cfg, l, 0, 1, 2);
    TwiceBeaten(cfg, l, 0, 1, 3);
    LooseUnsorts(cfg, l, 2, 3);
  }

  lemma LooseUnsorts(cfg: Settings, l: Ladder, i: nat, w: nat)
    requires i < w && w == |l| - 1 && l[i].role == WarmLoose && l[w].role == WarmLoose && Before(cfg, l, i, w)
    ensures !LastLooseIsBest(cfg, l)
  {
    assert Last(l, WarmLoose) == w;
  }

  /** With four paths registered best first, promotion lifts the worst of them over the third. */
  lemma PromotionUnsorts(cfg: Settings)
    ensures Graded(cfg, Run(cfg, Chain(4))) && !Graded(cfg, Run(cfg, Chain(4) + [Promoting]))
  {
    ChainRun(cfg, 4);
    AscendingUnsorts(cfg, Run(cfg, Chain(4)));
    PromoteGradedExact(cfg, Run(cfg, Chain(4)));
    assert (Chain(4) + [Promoting])[..4] == Chain(4);
  }

  /** A path with a new name joins at the end, alive. */
  lemma NewPath(cfg: Settings, l: Ladder, id: string, proto: Proto, rtt: int)
    requires forall i :: 0 <= i < |l| ==> l[i].id != id
    ensures !Live(l, Find(l, id))
    ensures var r := Register(cfg, l, id, proto, rtt);
      && |r| == |l| + 1
      && (forall i :: 0 <= i < |l| ==> r[i].id == l[i].id && r[i].proto == l[i].proto && r[i].rtt == l[i].rtt
                                       && (r[i].role == Dead <==> l[i].role == Dead))
      && r[|l|].id == id && r[|l|].proto == proto && r[|l|].rtt == rtt && r[|l|].role != Dead
  {
    assert Find(l, id) == |l|;
    RegradeSame(cfg, Enter(cfg, l, id, proto, rtt));
  }

  lemma NewPathGraded(cfg: Settings, l: Ladder, id: string, proto: Proto, rtt: int)
    requires forall i :: 0 <= i < |l| ==> l[i].id != id
    ensures Graded(cfg, Register(cfg, l, id, proto, rtt))
  {
    assert Find(l, id) == |l|;
    RegradeGraded(cfg, Enter(cfg, l, id, proto, rtt));
  }

  /** Regrading changes roles and searches only, and none of a dead path. */
  lemma RegradeSame(cfg: Settings, l: Ladder)
    ensures var r := Regrade(cfg, l);
      forall i :: 0 <= i < |l| ==>
        && r[i].id == l[i].id && r[i].proto == l[i].proto && r[i].rtt == l[i].rtt
        && (r[i].role == Dead <==> l[i].role == Dead) && (l[i].role == Dead ==> r[i] == l[i])
  {
  }
}
