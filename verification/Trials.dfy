// num-flyways-new.cc: in random order, add every flyway that can be added.
module Trials {
  import opened Sequences
  import opened Interference
  import opened Placement
  import opened FlywayTables
  import opened Greedy

  ghost predicate PermutesNodes(nodes: seq<int>, n: nat) {
    NoRepeats(nodes) && |nodes| == n && forall x :: x in nodes <==> 0 <= x < n
  }

  // The order after one swap for each of `rand`, the results of rand().
  function Shuffled(n: nat, rand: seq<nat>): (nodes: seq<int>)
    requires |rand| <= n
    ensures |nodes| == n
  {
    if rand == [] then seq(n, i => i)
    else
      var k := |rand| - 1;
      Swap(Shuffled(n, rand[..k]), k, rand[k] % n)
  }

  function Swap(s: seq<int>, i: nat, j: nat): seq<int>
    requires i < |s| && j < |s|
  {
    s[i := s[j]][j := s[i]]
  }

  method RandomizeNodeOrder(n: nat, rand: seq<nat>) returns (nodes: array<int>)
    requires |rand| == n
    ensures fresh(nodes) && nodes[..] == Shuffled(n, rand) && PermutesNodes(nodes[..], n)
  {
    nodes := new int[n](i => i);
    for i := 0 to n
      invariant nodes[..] == Shuffled(n, rand[..i])
    {
      var j := rand[i] % n;
      nodes[i], nodes[j] := nodes[j], nodes[i];
      assert rand[..i + 1][..i] == rand[..i];
    }
    assert rand[..n] == rand;
    ShuffledPermutes(n, rand);
  }

  lemma {:induction false} ShuffledPermutes(n: nat, rand: seq<nat>)
    requires |rand| <= n
    ensures PermutesNodes(Shuffled(n, rand), n)
  {
    if rand == [] {
      forall x | 0 <= x < n ensures x in Shuffled(n, rand) {
        assert Shuffled(n, rand)[x] == x;
      }
    } else {
      var k := |rand| - 1;
      ShuffledPermutes(n, rand[..k]);
      SwapPermutes(Shuffled(n, rand[..k]), k, rand[k] % n);
    }
  }

  lemma SwapPermutes(s: seq<int>, i: nat, j: nat)
    requires PermutesNodes(s, |s|) && i < |s| && j < |s|
    ensures PermutesNodes(Swap(s, i, j), |s|)
  {
    var s' := Swap(s, i, j);
    forall x ensures x in s' <==> 0 <= x < |s| {
      if x in s {
        var k :| 0 <= k < |s| && s[k] == x;
        assert s'[if k == i then j else if k == j then i else k] == x;
      }
    }
  }

  // Every order of the nodes comes up for some random numbers.
  lemma EveryOrderComesUp(p: seq<int>) returns (rand: seq<nat>)
    requires PermutesNodes(p, |p|)
    ensures |rand| == |p| && Shuffled(|p|, rand) == p
  {
    rand := FrontComesUp(p, |p|);
    assert Shuffled(|p|, rand)[..|p|] == p[..|p|];
  }

  lemma {:induction false} FrontComesUp(p: seq<int>, i: nat) returns (rand: seq<nat>)
    requires PermutesNodes(p, |p|) && i <= |p|
    ensures |rand| == i && Shuffled(|p|, rand)[..i] == p[..i]
  {
    hide PermutesNodes, Shuffled;
    if i == 0 {
      rand := [];
    } else {
      var k := i - 1;
      var before := FrontComesUp(p, k);
      var s := Shuffled(|p|, before);
      ShuffledPermutes(|p|, before);
      var j := StillBehind(p, s, k);
      rand := before + [j];
      OneMoreSwap(|p|, before, j);
      assert Swap(s, k, j)[..k] == s[..k];
      assert Swap(s, k, j)[..i] == p[..k] + [p[k]];
    }
  }

  lemma OneMoreSwap(n: nat, before: seq<nat>, j: nat)
    requires |before| < n && j < n
    ensures Shuffled(n, before + [j]) == Swap(Shuffled(n, before), |before|, j)
  {
    assert (before + [j])[..|before|] == before;
    assert j % n == j;
  }

  // Where two orders agree in front, what comes next in one is behind that in the other.
  lemma StillBehind(p: seq<int>, s: seq<int>, i: nat) returns (j: nat)
    requires PermutesNodes(p, |p|) && PermutesNodes(s, |p|) && i < |p| && s[..i] == p[..i]
    ensures i <= j < |p| && s[j] == p[i]
  {
    var x := p[i];
    assert x in p && x in s;
    j :| 0 <= j < |s| && s[j] == x;
    SameFront(s, p, i);
  }

  lemma SameFront(s: seq<int>, p: seq<int>, i: nat)
    requires i <= |s| && i <= |p| && s[..i] == p[..i]
    ensures forall k :: 0 <= k < i ==> s[k] == p[k]
  {
    forall k | 0 <= k < i ensures s[k] == p[k] {
      assert s[..i][k] == p[..i][k];
    }
  }

  // One round of FindFlywayChannel: `f` is aimed already, try it on channel `d`.
  method TryAimed(t: FlywayTable, f: Flyway, d: nat) returns (placed: bool, g: Flyway)
    requires t.Shaped() && Aimed(t.aim, t.flyways) && AimedAt(t.aim, f)
    requires d < t.cfg.numChannels && t.nodesWithFlyways[d] == Endpoints(Links(t.flyways), d)
    requires f.channel == -1
    modifies t`flyways, t`flywayRates, t`nodesWithFlyways
    ensures placed == Fits(t.cfg, Links(old(t.flyways)), f.from, f.to, d)
    ensures placed ==>
              && g == f.(channel := d)
              && t.flyways == old(t.flyways) + [g]
              && t.nodesWithFlyways == old(t.nodesWithFlyways[d := t.nodesWithFlyways[d] + {g.to} + {g.from}])
              && t.flywayRates == Rates(t.cfg, RaysOf(Links(t.flyways)))
    ensures !placed ==> g == f && t.flyways == old(t.flyways) && t.nodesWithFlyways == old(t.nodesWithFlyways)
  {
    if f.from in t.nodesWithFlyways[d] {
      return false, f;
    }
    if f.to in t.nodesWithFlyways[d] {
      return false, f;
    }
    g := f.(channel := d);
    LinksSnoc(t.flyways, g);
    AimedRays(t.aim, t.flyways + [g]);
    t.flyways := t.flyways + [g];
    var feasible := t.IsFlywaySetFeasible();
    if !feasible {
      t.flyways := t.flyways[..|t.flyways| - 1];
      return false, f;
    }
    t.nodesWithFlyways := t.nodesWithFlyways[d := t.nodesWithFlyways[d] + {g.to}];
    t.nodesWithFlyways := t.nodesWithFlyways[d := t.nodesWithFlyways[d] + {g.from}];
    return true, g;
  }

  // The loop of FindFlywayChannel.
  method SearchChannels(t: FlywayTable, f: Flyway) returns (found: bool, g: Flyway)
    requires t.Agrees([LinkOf(f)] + []) && AimedAt(t.aim, f)
    requires f.from != f.to && KnownNodes(f) && f.channel == -1
    requires NextDongles(Links(t.flyways), f) && DonglesLeft(t.cfg, Links(t.flyways), f.from, f.to)
    modifies t`flyways, t`flywayRates, t`nodesWithFlyways
    ensures found == PickChannel(t.cfg, old(t.CurrentPlan()), f.from, f.to, 0).Some?
    ensures found ==>
              && g == f.(channel := PickChannel(t.cfg, old(t.CurrentPlan()), f.from, f.to, 0).value)
              && t.flyways == old(t.flyways) + [g]
              && t.Agrees([])
              && t.flywayRates == Rates(t.cfg, RaysOf(Links(t.flyways)))
    ensures !found ==> t.Agrees([LinkOf(f)] + []) && t.flyways == old(t.flyways)
  {
    hide Numbered, RaysOf, Degree, Good, SetOk, Endpoints, Links, Fits, DonglesLeft;
    ghost var plan := t.CurrentPlan();
    var c := 0;
    while c < t.cfg.numChannels
      invariant c <= t.cfg.numChannels
      invariant t.flyways == old(t.flyways) && t.nodesWithFlyways == old(t.nodesWithFlyways)
      invariant PickChannel(t.cfg, plan, f.from, f.to, 0) == PickChannel(t.cfg, plan, f.from, f.to, c)
    {
      var d := (c + t.curChan) % t.cfg.numChannels;
      assert d == Slot(t.cfg, plan, c);
      found, g := TryAimed(t, f, d);
      if found {
        TablesUpdated(t, old(t.flyways), f, g, []);
        return;
      }
      c := c + 1;
    }
    return false, f;
  }

  method FindFlywayChannel(t: FlywayTable, f: Flyway) returns (found: bool, g: Flyway)
    requires t.Agrees([LinkOf(f)] + []) && AimedAt(t.aim, f)
    requires f.from != f.to && KnownNodes(f) && f.channel == -1
    requires NextDongles(Links(t.flyways), f) && DonglesLeft(t.cfg, Links(t.flyways), f.from, f.to)
    modifies t`flyways, t`flywayRates, t`nodesWithFlyways, t`curChan
    ensures found == PickChannel(t.cfg, old(t.CurrentPlan()), f.from, f.to, 0).Some?
    ensures found ==>
              && g == f.(channel := PickChannel(t.cfg, old(t.CurrentPlan()), f.from, f.to, 0).value)
              && t.CurrentPlan() == Add(t.cfg, old(t.CurrentPlan()), f.from, f.to, g.channel)
              && t.Agrees([])
              && t.flywayRates == Rates(t.cfg, RaysOf(Links(t.flyways)))
    ensures !found ==> t.Agrees([LinkOf(f)] + []) && t.CurrentPlan() == old(t.CurrentPlan())
  {
    hide FlywayTable.Agrees, Links, Rates, PickChannel, AimedAt, DonglesLeft;
    found, g := SearchChannels(t, f);
    if found {
      LinksSnoc(old(t.flyways), g);
      AdvanceChannel(t, []);
    }
  }

  method HasDongles(t: FlywayTable, a: int, b: int) returns (left: bool)
    requires t.Agrees([]) && 0 <= a < MAX_NODES && 0 <= b < MAX_NODES
    ensures left == DonglesLeft(t.cfg, Links(t.flyways), a, b)
  {
    assert Links(t.flyways) + [] == Links(t.flyways);
    left := !(t.dongleCounts[a] >= t.cfg.numDongles || t.dongleCounts[b] >= t.cfg.numDongles);
  }

  // Are the nodes free on the same channel?
  method SharesChannel(t: FlywayTable, a: int, b: int, ghost pending: seq<Link>) returns (flag: bool)
    requires t.Agrees(pending)
    ensures flag == SharesFreeChannel(t.cfg, Links(t.flyways), a, b)
  {
    flag := false;
    var c := 0;
    while c < t.cfg.numChannels
      invariant c <= t.cfg.numChannels
      invariant !flag && forall k :: 0 <= k < c ==> !FreeOn(Links(t.flyways), a, b, k)
    {
      if a in t.nodesWithFlyways[c] {
      } else if b in t.nodesWithFlyways[c] {
      } else {
        assert FreeOn(Links(t.flyways), a, b, c);
        return true;
      }
      c := c + 1;
    }
  }

  method PointAndMeasure(t: FlywayTable, f: Flyway) returns (strong: bool)
    requires t.Agrees([LinkOf(f)] + []) && f.from != f.to && NextDongles(Links(t.flyways), f)
    modifies t`aim
    ensures t.Agrees([LinkOf(f)] + []) && AimedAt(t.aim, f)
    ensures strong == !(Strength(t.cfg.medium, Facing(Link(f.from, f.to, -1))) < t.cfg.threshold + MARGIN_DB)
  {
    t.PointAtEachOther(f.from, f.dongleFrom, f.to, f.dongleTo);
    AimKept(old(t.aim), t.aim, t.flyways);
    var rssi := t.CalcSignalStrength(f.from, f.dongleFrom, f.to, f.dongleTo);
    strong := !(rssi < t.cfg.threshold + MARGIN_DB);
  }

  // All the tests for one pair of nodes, and the placing.
  method AttemptPair(t: FlywayTable, a: int, b: int) returns (o: Outcome)
    requires t.Agrees([]) && 0 <= a < MAX_NODES && 0 <= b < MAX_NODES && a != b
    modifies t, t.dongleCounts
    ensures o == Attempt(t.cfg, old(t.CurrentPlan()), a, b)
    ensures t.CurrentPlan() == After(t.cfg, old(t.CurrentPlan()), a, b)
    ensures t.Agrees([])
    ensures o.Placed? ==> t.flywayRates == Rates(t.cfg, RaysOf(Links(t.flyways)))
  {
    hide FlywayTable.Agrees, Links, Rates, PickChannel, AimedAt, DonglesLeft, SharesFreeChannel, Strength;
    var left := HasDongles(t, a, b);
    if !left {
      return NoFreeDongle;
    }
    var dongleFrom, dongleTo := ReserveDongles(t, a, b);
    var f := Flyway(a, dongleFrom, b, dongleTo, -1);
    var shared := SharesChannel(t, a, b, [LinkOf(f)]);
    assert [LinkOf(f)] + [] == [LinkOf(f)];
    if !shared {
      o := NoFreeChannel;
    } else {
      var strong := PointAndMeasure(t, f);
      if !strong {
        o := TooFar;
      } else {
        var found, g := FindFlywayChannel(t, f);
        if found {
          return Placed(g.channel);
        }
        o := HurtsOthers;
      }
    }
    ReleaseDongles(t, f, []);
  }

  function Progress(cfg: Config, start: nat, nodes: seq<int>, s: nat, d: nat): Result
    requires s < |nodes| || (s == |nodes| && d == 0)
    requires d <= |nodes|
  {
    Trial(cfg, start, PairsBefore(nodes, s, d))
  }

  lemma ProgressStep(cfg: Config, start: nat, nodes: seq<int>, s: nat, d: nat)
    requires s < |nodes| && d < |nodes|
    ensures var before := Progress(cfg, start, nodes, s, d);
            var o := Attempt(cfg, before.plan, nodes[s], nodes[d]);
            && Progress(cfg, start, nodes, s, d + 1).plan == After(cfg, before.plan, nodes[s], nodes[d])
            && Tally(Progress(cfg, start, nodes, s, d + 1).outcomes) == Tally(before.outcomes).Plus(o)
  {
    var ps := PairsBefore(nodes, s, d);
    TrialSnoc(cfg, start, ps, (nodes[s], nodes[d]));
    var before := Trial(cfg, start, ps);
    var o := Attempt(cfg, before.plan, nodes[s], nodes[d]);
    assert (before.outcomes + [o])[..|before.outcomes|] == before.outcomes;
  }

  lemma ProgressEnds(cfg: Config, start: nat, nodes: seq<int>)
    ensures Progress(cfg, start, nodes, 0, 0) == Result(Plan([], start), [])
    ensures Tally([]) == Census(0, 0, 0, 0, 0, 0)
    ensures Progress(cfg, start, nodes, |nodes|, 0) == Trial(cfg, start, AllPairs(nodes))
    ensures forall s :: 0 <= s < |nodes| ==>
              Progress(cfg, start, nodes, s + 1, 0) == Progress(cfg, start, nodes, s, |nodes|)
  {
  }

  // A self-pair is counted and nothing else; any other outcome leaves or extends the plan.
  lemma AttemptEffect(cfg: Config, plan: Plan, a: int, b: int)
    ensures a == b ==> Attempt(cfg, plan, a, b) == SameEndPoint && After(cfg, plan, a, b) == plan
    ensures a != b ==> Attempt(cfg, plan, a, b) != SameEndPoint
    ensures !Attempt(cfg, plan, a, b).Placed? ==> After(cfg, plan, a, b) == plan
  {
  }

  // Reset all state.
  method Reset(t: FlywayTable)
    requires t.Shaped()
    modifies t, t.dongleCounts
    ensures t.Agrees([]) && t.CurrentPlan() == Plan([], old(t.curChan)) && t.flywayRates == []
  {
    t.flyways, t.flywayRates, t.aim := [], [], map[];
    var c := 0;
    while c < t.cfg.numChannels
      invariant c <= t.cfg.numChannels && t.Shaped()
      invariant t.flyways == [] && t.flywayRates == [] && t.aim == map[] && t.curChan == old(t.curChan)
      invariant forall k :: 0 <= k < c ==> t.nodesWithFlyways[k] == {}
    {
      t.nodesWithFlyways := t.nodesWithFlyways[c := {}];
      c := c + 1;
    }
    forall n | 0 <= n < t.dongleCounts.Length {
      t.dongleCounts[n] := 0;
    }
  }

  // One trial. The set found and the census are those of Greedy.Trial over the shuffled
  // nodes; the remembered rates are those of the final set, unless nothing was placed.
  method RunTrial(t: FlywayTable, numToRs: nat, rand: seq<nat>, lastFeasible: seq<real>)
    returns (nodes: array<int>, census: Census, total: nat, last: seq<real>)
    requires t.Shaped() && numToRs <= MAX_NODES && |rand| == numToRs
    modifies t, t.dongleCounts
    ensures nodes[..] == Shuffled(numToRs, rand) && PermutesNodes(nodes[..], numToRs)
    ensures t.Agrees([])
    ensures var r := Trial(t.cfg, old(t.curChan), AllPairs(nodes[..]));
            t.CurrentPlan() == r.plan && census == Tally(r.outcomes)
    ensures total == ReportedTotal(census)
    ensures last == if census.valid > 0 then Rates(t.cfg, RaysOf(t.CurrentPlan().links)) else lastFeasible
  {
    hide FlywayTable.Agrees, FlywayTable.Shaped, Links, Rates, Attempt, After, Progress, Tally, Trial, AllPairs,
      Shuffled;
    TablesShaped(t);
    ghost var start := t.curChan;
    Reset(t);
    nodes := RandomizeNodeOrder(numToRs, rand);
    ghost var ns := nodes[..];
    ProgressEnds(t.cfg, start, ns);
    census, last := Census(0, 0, 0, 0, 0, 0), lastFeasible;
    var s := 0;
    while s < nodes.Length
      invariant s <= nodes.Length && nodes[..] == ns
      invariant t.Agrees([]) && t.CurrentPlan() == Progress(t.cfg, start, ns, s, 0).plan
      invariant census == Tally(Progress(t.cfg, start, ns, s, 0).outcomes)
      invariant last == if census.valid > 0 then Rates(t.cfg, RaysOf(t.CurrentPlan().links)) else lastFeasible
    {
      var d := 0;
      while d < nodes.Length
        invariant d <= nodes.Length && nodes[..] == ns
        invariant t.Agrees([]) && t.CurrentPlan() == Progress(t.cfg, start, ns, s, d).plan
        invariant census == Tally(Progress(t.cfg, start, ns, s, d).outcomes)
        invariant last == if census.valid > 0 then Rates(t.cfg, RaysOf(t.CurrentPlan().links)) else lastFeasible
      {
        ProgressStep(t.cfg, start, ns, s, d);
        AttemptEffect(t.cfg, t.CurrentPlan(), ns[s], ns[d]);
        if s == d {
          census := census.Plus(SameEndPoint);
        } else {
          assert nodes[s] == ns[s] && nodes[d] == ns[d] && ns[s] in ns && ns[d] in ns;
          var o := AttemptPair(t, nodes[s], nodes[d]);
          census := census.Plus(o);
          if o.Placed? {
            last := t.flywayRates;
          }
        }
        d := d + 1;
      }
      s := s + 1;
    }
    total := census.valid + census.same + census.noDongle + census.noChannel + census.hurts;
  }

  lemma TablesShaped(t: FlywayTable)
    requires t.Shaped()
    ensures t.cfg.Valid() && t.dongleCounts.Length == MAX_NODES
  {
  }
}
