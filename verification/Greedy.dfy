// The randomized trial of num-flyways-new.cc as a function: every ordered pair of
// nodes is attempted once, and placed if it can be.
module Greedy {
  import opened Sequences
  import opened Interference
  import opened Placement

  datatype Outcome = SameEndPoint | NoFreeDongle | NoFreeChannel | TooFar | HurtsOthers | Placed(channel: nat)

  datatype Result = Result(plan: Plan, outcomes: seq<Outcome>)

  predicate SharesFreeChannel(cfg: Config, ls: seq<Link>, a: int, b: int) {
    exists c :: 0 <= c < cfg.numChannels && FreeOn(ls, a, b, c)
  }

  // The tests of the inner loop, in the program's order.
  function Attempt(cfg: Config, plan: Plan, a: int, b: int): (o: Outcome)
    ensures o.Placed? ==> o.channel < cfg.numChannels && Fits(cfg, plan.links, a, b, o.channel)
  {
    if a == b then SameEndPoint
    else if !DonglesLeft(cfg, plan.links, a, b) then NoFreeDongle
    else if !SharesFreeChannel(cfg, plan.links, a, b) then NoFreeChannel
    else if Strength(cfg.medium, Facing(Link(a, b, -1))) < cfg.threshold + MARGIN_DB then TooFar
    else
      match PickChannel(cfg, plan, a, b, 0)
      case None => HurtsOthers
      case Some(c) => Placed(c)
  }

  function After(cfg: Config, plan: Plan, a: int, b: int): Plan {
    var o := Attempt(cfg, plan, a, b);
    if o.Placed? then Add(cfg, plan, a, b, o.channel) else plan
  }

  function Trial(cfg: Config, start: nat, pairs: seq<(int, int)>): (r: Result)
    ensures |r.outcomes| == |pairs|
  {
    if pairs == [] then Result(Plan([], start), [])
    else
      var k := |pairs| - 1;
      var (a, b) := pairs[k];
      var before := Trial(cfg, start, pairs[..k]);
      Result(After(cfg, before.plan, a, b), before.outcomes + [Attempt(cfg, before.plan, a, b)])
  }

  lemma TrialSnoc(cfg: Config, start: nat, ps: seq<(int, int)>, p: (int, int))
    ensures var before := Trial(cfg, start, ps);
            Trial(cfg, start, ps + [p])
            == Result(After(cfg, before.plan, p.0, p.1), before.outcomes + [Attempt(cfg, before.plan, p.0, p.1)])
  {
    assert (ps + [p])[..|ps|] == ps;
  }

  // The pairs (nodes[i], nodes[j]) attempted before indices (s, d), row by row.
  function PairsBefore(nodes: seq<int>, s: nat, d: nat): (ps: seq<(int, int)>)
    requires s < |nodes| || (s == |nodes| && d == 0)
    requires d <= |nodes|
    decreases s, d
  {
    if d > 0 then PairsBefore(nodes, s, d - 1) + [(nodes[s], nodes[d - 1])]
    else if s > 0 then PairsBefore(nodes, s - 1, |nodes|)
    else []
  }

  function AllPairs(nodes: seq<int>): seq<(int, int)> {
    PairsBefore(nodes, |nodes|, 0)
  }

  lemma {:induction false} PairCount(nodes: seq<int>, s: nat, d: nat)
    requires s < |nodes| || (s == |nodes| && d == 0)
    requires d <= |nodes|
    ensures |PairsBefore(nodes, s, d)| == s * |nodes| + d
    decreases s, d
  {
    if d > 0 {
      PairCount(nodes, s, d - 1);
    } else if s > 0 {
      PairCount(nodes, s - 1, |nodes|);
      assert (s - 1) * |nodes| + |nodes| == s * |nodes|;
    }
  }

  // Attempt number i * n + j is that of the i-th and the j-th node.
  lemma {:induction false} EveryPairAttempted(nodes: seq<int>, s: nat, d: nat, i: nat, j: nat)
    requires s < |nodes| || (s == |nodes| && d == 0)
    requires d <= |nodes| && j < |nodes|
    requires i < s || (i == s && j < d)
    ensures i * |nodes| + j < |PairsBefore(nodes, s, d)|
    ensures PairsBefore(nodes, s, d)[i * |nodes| + j] == (nodes[i], nodes[j])
    decreases s, d
  {
    PairCount(nodes, s, d);
    if d > 0 {
      PairCount(nodes, s, d - 1);
      if !(i == s && j == d - 1) {
        EveryPairAttempted(nodes, s, d - 1, i, j);
      }
    } else {
      PairCount(nodes, s - 1, |nodes|);
      EveryPairAttempted(nodes, s - 1, |nodes|, i, j);
    }
  }

  // ----- maximality

  ghost predicate Addable(cfg: Config, ls: seq<Link>, a: int, b: int) {
    && a != b
    && DonglesLeft(cfg, ls, a, b)
    && exists c :: 0 <= c < cfg.numChannels && Fits(cfg, ls, a, b, c)
  }

  // The chain of tests accepts exactly the pairs that can be added on some channel:
  // the early exits and the signal prefilter never lose one.
  lemma AttemptPlacesIffAddable(cfg: Config, plan: Plan, a: int, b: int)
    requires cfg.Valid() && plan.next < cfg.numChannels
    ensures Attempt(cfg, plan, a, b).Placed? <==> Addable(cfg, plan.links, a, b)
  {
    PickChannelComplete(cfg, plan, a, b);
    if Strength(cfg.medium, Facing(Link(a, b, -1))) < cfg.threshold + MARGIN_DB {
      forall c | 0 <= c < cfg.numChannels ensures !Fits(cfg, plan.links, a, b, c) {
        WeakRayNeverWorks(cfg, RaysOf(plan.links + [Link(a, b, c)]), |plan.links|);
      }
    }
  }

  // Which outcome a pair gets: each test counts only for pairs that pass those in front of it.
  lemma OutcomeExactly(cfg: Config, plan: Plan, a: int, b: int)
    requires cfg.Valid() && plan.next < cfg.numChannels
    ensures var o := Attempt(cfg, plan, a, b);
            var free := exists c :: 0 <= c < cfg.numChannels && !Busy(plan.links, a, c) && !Busy(plan.links, b, c);
            var signal := cfg.medium.signal(a, Toward(b), b, Toward(a));
            && (o == SameEndPoint <==> a == b)
            && (o == NoFreeDongle <==> a != b && (Degree(plan.links, a) >= cfg.numDongles
                                                  || Degree(plan.links, b) >= cfg.numDongles))
            && (o == NoFreeChannel <==> a != b && DonglesLeft(cfg, plan.links, a, b) && !free)
            && (o == TooFar <==> a != b && DonglesLeft(cfg, plan.links, a, b) && free && signal < cfg.threshold + 3.0)
            && (o == HurtsOthers <==> && a != b && DonglesLeft(cfg, plan.links, a, b) && free
                                      && signal >= cfg.threshold + 3.0 && !Addable(cfg, plan.links, a, b))
  {
    hide Endpoints, Degree, Fits;
    AttemptPlacesIffAddable(cfg, plan, a, b);
    FreeExactly(cfg, plan.links, a, b);
  }

  lemma FreeExactly(cfg: Config, ls: seq<Link>, a: int, b: int)
    ensures SharesFreeChannel(cfg, ls, a, b)
       <==> exists c :: 0 <= c < cfg.numChannels && !Busy(ls, a, c) && !Busy(ls, b, c)
  {
    hide Endpoints;
    forall c ensures FreeOn(ls, a, b, c) <==> !Busy(ls, a, c) && !Busy(ls, b, c) {
      BusyExactly(ls, a, c);
      BusyExactly(ls, b, c);
    }
  }

  lemma AddableBefore(cfg: Config, ls: seq<Link>, l: Link, a: int, b: int)
    requires cfg.Valid()
    requires Addable(cfg, ls + [l], a, b)
    ensures Addable(cfg, ls, a, b)
  {
    SnocDegree(ls, l, a);
    SnocDegree(ls, l, b);
    var c :| 0 <= c < cfg.numChannels && Fits(cfg, ls + [l], a, b, c);
    SnocEndpoints(ls, l, c);
    var r := Facing(Link(a, b, c));
    assert RaysOf(ls + [l] + [Link(a, b, c)]) == RaysOf(ls) + [Facing(l)] + [r];
    assert RaysOf(ls + [Link(a, b, c)]) == RaysOf(ls) + [r];
    if !SetOk(cfg, RaysOf(ls) + [r]) {
      MisfitStaysMisfit(cfg, RaysOf(ls), Facing(l), r);
    }
    assert Fits(cfg, ls, a, b, c);
  }

  lemma {:induction false} TrialIsGood(cfg: Config, start: nat, pairs: seq<(int, int)>)
    requires cfg.Valid() && start < cfg.numChannels
    ensures var p := Trial(cfg, start, pairs).plan; Good(cfg, p.links) && p.next < cfg.numChannels
  {
    if pairs != [] {
      var k := |pairs| - 1;
      TrialIsGood(cfg, start, pairs[..k]);
      var (a, b) := pairs[k];
      var plan := Trial(cfg, start, pairs[..k]).plan;
      var o := Attempt(cfg, plan, a, b);
      if o.Placed? {
        AddKeepsGood(cfg, plan.links, a, b, o.channel);
      }
    }
  }

  // At the end of a trial every attempted pair is either part of the set or can no
  // longer be added on any channel.
  lemma {:induction false} TrialIsMaximal(cfg: Config, start: nat, pairs: seq<(int, int)>, a: int, b: int)
    requires cfg.Valid() && start < cfg.numChannels
    requires (a, b) in pairs
    ensures var ls := Trial(cfg, start, pairs).plan.links;
            (a, b) in Pairs(ls) || !Addable(cfg, ls, a, b)
  {
    var k := |pairs| - 1;
    var plan := Trial(cfg, start, pairs[..k]).plan;
    var (x, y) := pairs[k];
    var o := Attempt(cfg, plan, x, y);
    TrialIsGood(cfg, start, pairs[..k]);
    if (a, b) in pairs[..k] {
      TrialIsMaximal(cfg, start, pairs[..k], a, b);
      if o.Placed? {
        var l := Link(x, y, o.channel);
        assert Pairs(plan.links + [l]) == Pairs(plan.links) + [(x, y)];
        if Addable(cfg, plan.links + [l], a, b) {
          AddableBefore(cfg, plan.links, l, a, b);
        }
      }
    } else {
      assert (x, y) == (a, b);
      AttemptPlacesIffAddable(cfg, plan, a, b);
      if o.Placed? {
        var ls := plan.links + [Link(a, b, o.channel)];
        assert Pairs(ls)[|plan.links|] == (a, b);
      }
    }
  }

  // ----- a placed pair may still be addable a second time

  ghost predicate LeavesNothing(cfg: Config, start: nat, nodes: seq<int>) {
    forall a, b :: a in nodes && b in nodes ==> !Addable(cfg, Trial(cfg, start, AllPairs(nodes)).plan.links, a, b)
  }

  ghost predicate AlwaysLeavesNothing(numDongles: nat, numChannels: nat) {
    forall cfg: Config, start: nat, nodes: seq<int> ::
      cfg.Valid() && cfg.numDongles == numDongles && cfg.numChannels == numChannels && start < numChannels
      ==> LeavesNothing(cfg, start, nodes)
  }

  lemma LinkedNodesAreFull(cfg: Config, ls: seq<Link>, a: int, b: int)
    requires Good(cfg, ls) && (cfg.numDongles <= 1 || cfg.numChannels <= 1)
    requires (a, b) in Pairs(ls)
    ensures !Addable(cfg, ls, a, b)
  {
    var i :| 0 <= i < |ls| && Pairs(ls)[i] == (a, b);
    assert ProperLink(cfg, ls[i]);
    EndpointsAreEnds(ls, ls[i].channel, a);
    assert Ends(ls[i], a) > 0;
    DegreeAtLeast(ls, i, a);
  }

  lemma {:induction false} DegreeAtLeast(ls: seq<Link>, i: nat, n: int)
    requires i < |ls|
    ensures Degree(ls, n) >= Ends(ls[i], n)
  {
    var k := |ls| - 1;
    if i < k {
      DegreeAtLeast(ls[..k], i, n);
    }
  }

  // A medium in which only 0 => 1 is audible, and only to an antenna pointed at it.
  function OneWaySignal(threshold: real): (int, Heading, int, Heading) -> real {
    (a: int, ha: Heading, b: int, hb: Heading) =>
      if a == 0 && b == 1 && ha == Toward(1) && hb == Toward(0) then threshold + 10.0 else threshold - 10.0
  }

  function OneWayConfig(numDongles: nat, numChannels: nat): Config {
    Config(Medium(OneWaySignal(0.0), SampleToLinear, SampleToDb), 0.0, false, [], [], numChannels, numDongles)
  }

  // Rays on different channels do not disturb each other.
  lemma QuietSet(numDongles: nat, numChannels: nat, rs: seq<Ray>)
    requires 1 <= |rs| <= 2
    requires forall i :: 0 <= i < |rs| ==> rs[i] == Facing(Link(0, 1, rs[i].channel))
    requires |rs| == 2 ==> rs[0].channel != rs[1].channel
    ensures SetOk(OneWayConfig(numDongles, numChannels), rs)
  {
    var cfg := OneWayConfig(numDongles, numChannels);
    var m := cfg.medium;
    SampleConversionsValid(OneWaySignal(0.0));
    forall i | 0 <= i < |rs| ensures LinkOk(cfg, rs, i) {
      SilentNoise(m, rs, i, rs[i].from, rs[i].fromHeading);
      SilentNoise(m, rs, i, rs[i].to, rs[i].toHeading);
    }
  }

  lemma SilentNoise(m: Medium, rs: seq<Ray>, i: nat, node: int, heading: Heading)
    requires i < |rs| <= 2 && m.Valid()
    requires |rs| == 2 ==> rs[0].channel != rs[1].channel
    ensures m.toDb(Noise(m, rs, i, rs[i].channel, node, heading)) == BASELINE_NOISE_DBM
  {
    assert rs[..|rs| - 1][..0] == [];
    assert Noise(m, rs[..|rs| - 1][..0], i, rs[i].channel, node, heading) == m.toLinear(BASELINE_NOISE_DBM);
  }

  lemma SecondLinkLeft(numDongles: nat, numChannels: nat)
    requires numDongles >= 2 && 2 <= numChannels <= 3
    ensures OneWayConfig(numDongles, numChannels).Valid()
    ensures !LeavesNothing(OneWayConfig(numDongles, numChannels), 0, [0, 1])
  {
    var cfg := OneWayConfig(numDongles, numChannels);
    SampleConversionsValid(OneWaySignal(0.0));
    var nodes := [0, 1];
    var ps := AllPairs(nodes);
    PairsOfTwo();
    var p0, p1 := Plan([], 0), Plan([Link(0, 1, 0)], 1);
    var t1 := Trial(cfg, 0, ps[..1]);
    assert ps[..1] == [] + [ps[0]];
    TrialSnoc(cfg, 0, [], ps[0]);
    assert t1.plan == p0;
    QuietSet(numDongles, numChannels, RaysOf([Link(0, 1, 0)]));
    assert [] + [Link(0, 1, 0)] == [Link(0, 1, 0)];
    assert FreeOn([], 0, 1, 0);
    assert Fits(cfg, [], 0, 1, Slot(cfg, p0, 0));
    assert ps[..2][..1] == ps[..1];
    assert Trial(cfg, 0, ps[..2]).plan == p1;
    assert ps[..3][..2] == ps[..2];
    assert !Attempt(cfg, p1, 1, 0).Placed?;
    assert Trial(cfg, 0, ps[..3]).plan == p1;
    assert Trial(cfg, 0, ps).plan == p1;
    QuietSet(numDongles, numChannels, RaysOf([Link(0, 1, 0), Link(0, 1, 1)]));
    assert p1.links + [Link(0, 1, 1)] == [Link(0, 1, 0), Link(0, 1, 1)];
    assert p1.links[..0] == [];
    assert Fits(cfg, p1.links, 0, 1, 1);
    assert Addable(cfg, p1.links, 0, 1);
  }

  lemma PairsOfTwo()
    ensures AllPairs([0, 1]) == [(0, 0), (0, 1), (1, 0), (1, 1)]
  {
    var nodes := [0, 1];
    assert PairsBefore(nodes, 0, 2) == [(0, 0), (0, 1)];
    assert PairsBefore(nodes, 1, 2) == PairsBefore(nodes, 0, 2) + [(1, 0), (1, 1)];
  }

  // A trial is certain to leave no addable pair at all exactly when there is only one
  // dongle per node or only one channel. Otherwise a pair that was placed on one
  // channel may still be addable on another, because it is attempted only once.
  lemma LeavesNothingExactly(numDongles: nat, numChannels: nat)
    requires 1 <= numChannels <= 3
    ensures AlwaysLeavesNothing(numDongles, numChannels) <==> numDongles <= 1 || numChannels <= 1
  {
    if numDongles <= 1 || numChannels <= 1 {
      forall cfg: Config, start: nat, nodes: seq<int>, a, b |
        && cfg.Valid() && cfg.numDongles == numDongles && cfg.numChannels == numChannels && start < numChannels
        && a in nodes && b in nodes
        ensures !Addable(cfg, Trial(cfg, start, AllPairs(nodes)).plan.links, a, b)
      {
        var i :| 0 <= i < |nodes| && nodes[i] == a;
        var j :| 0 <= j < |nodes| && nodes[j] == b;
        EveryPairAttempted(nodes, |nodes|, 0, i, j);
        TrialIsMaximal(cfg, start, AllPairs(nodes), a, b);
        TrialIsGood(cfg, start, AllPairs(nodes));
        if (a, b) in Pairs(Trial(cfg, start, AllPairs(nodes)).plan.links) {
          LinkedNodesAreFull(cfg, Trial(cfg, start, AllPairs(nodes)).plan.links, a, b);
        }
      }
    } else {
      SecondLinkLeft(numDongles, numChannels);
    }
  }

  // ----- the census

  datatype Census = Census(valid: nat, same: nat, noDongle: nat, noChannel: nat, tooFar: nat, hurts: nat) {
    function Plus(o: Outcome): Census {
      match o
      case Placed(_) => this.(valid := valid + 1)
      case SameEndPoint => this.(same := same + 1)
      case NoFreeDongle => this.(noDongle := noDongle + 1)
      case NoFreeChannel => this.(noChannel := noChannel + 1)
      case TooFar => this.(tooFar := tooFar + 1)
      case HurtsOthers => this.(hurts := hurts + 1)
    }
  }

  function Tally(os: seq<Outcome>): Census {
    if os == [] then Census(0, 0, 0, 0, 0, 0) else Tally(os[..|os| - 1]).Plus(os[|os| - 1])
  }

  function CountOf(os: seq<Outcome>, test: Outcome -> bool): nat {
    if os == [] then 0 else (if test(os[0]) then 1 else 0) + CountOf(os[1..], test)
  }

  lemma {:induction false} CountOfSnoc(os: seq<Outcome>, o: Outcome, test: Outcome -> bool)
    ensures CountOf(os + [o], test) == CountOf(os, test) + if test(o) then 1 else 0
  {
    if os == [] {
      assert os + [o] == [o] && [o][1..] == [];
    } else {
      assert (os + [o])[1..] == os[1..] + [o];
      CountOfSnoc(os[1..], o, test);
    }
  }

  // Each counter is the number of pairs with that outcome.
  lemma {:induction false} TallyCounts(os: seq<Outcome>)
    ensures var c := Tally(os);
            && c.valid == CountOf(os, (o: Outcome) => o.Placed?)
            && c.same == CountOf(os, (o: Outcome) => o == SameEndPoint)
            && c.noDongle == CountOf(os, (o: Outcome) => o == NoFreeDongle)
            && c.noChannel == CountOf(os, (o: Outcome) => o == NoFreeChannel)
            && c.tooFar == CountOf(os, (o: Outcome) => o == TooFar)
            && c.hurts == CountOf(os, (o: Outcome) => o == HurtsOthers)
  {
    if os != [] {
      var k := |os| - 1;
      TallyCounts(os[..k]);
      assert os == os[..k] + [os[k]];
      CountOfSnoc(os[..k], os[k], (o: Outcome) => o.Placed?);
      CountOfSnoc(os[..k], os[k], (o: Outcome) => o == SameEndPoint);
      CountOfSnoc(os[..k], os[k], (o: Outcome) => o == NoFreeDongle);
      CountOfSnoc(os[..k], os[k], (o: Outcome) => o == NoFreeChannel);
      CountOfSnoc(os[..k], os[k], (o: Outcome) => o == TooFar);
      CountOfSnoc(os[..k], os[k], (o: Outcome) => o == HurtsOthers);
    }
  }

  // The `total` that the program reports leaves out the pairs that are too far apart.
  function ReportedTotal(c: Census): nat {
    c.valid + c.same + c.noDongle + c.noChannel + c.hurts
  }

  lemma {:induction false} TallyIsComplete(os: seq<Outcome>)
    ensures ReportedTotal(Tally(os)) + Tally(os).tooFar == |os|
  {
    if os != [] {
      TallyIsComplete(os[..|os| - 1]);
    }
  }

  lemma {:induction false} ValidCountsLinks(cfg: Config, start: nat, pairs: seq<(int, int)>)
    ensures Tally(Trial(cfg, start, pairs).outcomes).valid == |Trial(cfg, start, pairs).plan.links|
  {
    if pairs != [] {
      var k := |pairs| - 1;
      ValidCountsLinks(cfg, start, pairs[..k]);
      var r := Trial(cfg, start, pairs);
      assert r.outcomes[..|r.outcomes| - 1] == Trial(cfg, start, pairs[..k]).outcomes;
    }
  }

  function Loops(ps: seq<(int, int)>): nat {
    if ps == [] then 0
    else
      var k := |ps| - 1;
      Loops(ps[..k]) + if ps[k].0 == ps[k].1 then 1 else 0
  }

  lemma {:induction false} SameCountsLoops(cfg: Config, start: nat, ps: seq<(int, int)>)
    ensures Tally(Trial(cfg, start, ps).outcomes).same == Loops(ps)
  {
    if ps != [] {
      var k := |ps| - 1;
      SameCountsLoops(cfg, start, ps[..k]);
      var r := Trial(cfg, start, ps);
      assert r.outcomes[..k] == Trial(cfg, start, ps[..k]).outcomes;
    }
  }

  lemma {:induction false} LoopsOnDiagonal(nodes: seq<int>, s: nat, d: nat)
    requires NoRepeats(nodes)
    requires (s < |nodes| && d <= |nodes|) || (s == |nodes| && d == 0)
    ensures Loops(PairsBefore(nodes, s, d)) == s + if s < d then 1 else 0
    decreases s, d
  {
    if d > 0 {
      LoopsOnDiagonal(nodes, s, d - 1);
      var before := PairsBefore(nodes, s, d - 1);
      assert (before + [(nodes[s], nodes[d - 1])])[..|before|] == before;
      assert nodes[s] == nodes[d - 1] <==> s == d - 1;
    } else if s > 0 {
      LoopsOnDiagonal(nodes, s - 1, |nodes|);
    }
  }

  lemma {:induction false} TrialJoinsNodes(cfg: Config, start: nat, pairs: seq<(int, int)>, nodes: seq<int>)
    requires forall i :: 0 <= i < |pairs| ==> pairs[i].0 in nodes && pairs[i].1 in nodes
    ensures var ls := Trial(cfg, start, pairs).plan.links;
            forall i :: 0 <= i < |ls| ==> ls[i].from in nodes && ls[i].to in nodes
  {
    if pairs != [] {
      var k := |pairs| - 1;
      TrialJoinsNodes(cfg, start, pairs[..k], nodes);
      TrialSnoc(cfg, start, pairs[..k], pairs[k]);
      assert pairs == pairs[..k] + [pairs[k]];
    }
  }

  lemma {:induction false} PairsAreOfNodes(nodes: seq<int>, s: nat, d: nat)
    requires (s < |nodes| && d <= |nodes|) || (s == |nodes| && d == 0)
    ensures forall p :: p in PairsBefore(nodes, s, d) ==> p.0 in nodes && p.1 in nodes
    decreases s, d
  {
    if d > 0 {
      PairsAreOfNodes(nodes, s, d - 1);
    } else if s > 0 {
      PairsAreOfNodes(nodes, s - 1, |nodes|);
    }
  }

  // Every ordered pair is counted once; the diagonal once per node; and the number of
  // accepted flyways is the size of the set and at most nodes * min(dongles, channels) / 2.
  lemma CensusOfTrial(cfg: Config, start: nat, nodes: seq<int>)
    requires cfg.Valid() && start < cfg.numChannels && NoRepeats(nodes)
    ensures var r := Trial(cfg, start, AllPairs(nodes));
            var c := Tally(r.outcomes);
            && ReportedTotal(c) == |nodes| * |nodes| - c.tooFar
            && c.same == |nodes|
            && c.valid == |r.plan.links|
            && 2 * c.valid <= |nodes| * Min(cfg.numDongles, cfg.numChannels)
  {
    var pairs := AllPairs(nodes);
    var r := Trial(cfg, start, pairs);
    TallyIsComplete(r.outcomes);
    PairCount(nodes, |nodes|, 0);
    ValidCountsLinks(cfg, start, pairs);
    SameCountsLoops(cfg, start, pairs);
    LoopsOnDiagonal(nodes, |nodes|, 0);
    TrialIsGood(cfg, start, pairs);
    PairsAreOfNodes(nodes, |nodes|, 0);
    TrialJoinsNodes(cfg, start, pairs, nodes);
    FlywayCountBound(cfg, r.plan.links, nodes);
  }
}
