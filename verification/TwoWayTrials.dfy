// num-flyways.cc: the random trial with one channel and one dongle per node, which keeps a rate
// for each direction of a flyway.
module TwoWayTrials {
  import opened Wrappers
  import opened Interference
  import opened Placement
  import opened FlywayTables
  import opened Greedy
  import opened SingleChannel
  import opened Trials

  ghost predicate OneOfEach(cfg: Config) {
    cfg.Valid() && cfg.numChannels == 1 && cfg.numDongles == 1
  }

  // The rate towards the sender.
  function BackRate(cfg: Config, rs: seq<Ray>, i: nat): real
    requires i < |rs| && |cfg.limits| == |cfg.rates|
  {
    RateFor(cfg.limits, cfg.rates, Headroom(cfg.medium, rs, i, SenderNoise(cfg.medium, rs, i)))
  }

  // Forward and backward, flyway by flyway.
  function BothRates(cfg: Config, rs: seq<Ray>, n: nat): (r: seq<real>)
    requires n <= |rs| && |cfg.limits| == |cfg.rates|
    ensures |r| == 2 * n
  {
    if n == 0 then [] else BothRates(cfg, rs, n - 1) + [LinkRate(cfg, rs, n - 1), BackRate(cfg, rs, n - 1)]
  }

  // At 2 * k stands the rate of what is left of the signal at the receiver of ray `k`, and behind it
  // that of what is left at the sender.
  lemma {:induction false} BothRatesExactly(cfg: Config, rs: seq<Ray>, n: nat, k: nat)
    requires cfg.Valid() && k < n <= |rs|
    ensures var r := rs[k];
            var signal := cfg.medium.signal(r.from, r.fromHeading, r.to, r.toHeading);
            var sender, receiver := NoiseDb(cfg, rs, k, r.from, r.fromHeading), NoiseDb(cfg, rs, k, r.to, r.toHeading);
            var rates := BothRates(cfg, rs, n);
            && rates[2 * k] == RateFor(cfg.limits, cfg.rates, signal - (receiver + 81.0) - 3.0)
            && rates[2 * k + 1] == RateFor(cfg.limits, cfg.rates, signal - (sender + 81.0) - 3.0)
  {
    hide HeardFrom, Noise, RateFor, LinkRate;
    if k < n - 1 {
      BothRatesExactly(cfg, rs, n - 1, k);
    } else {
      LinkOkExactly(cfg, rs, k);
      NoiseIsHeard(cfg.medium, rs, k, rs[k].channel, rs[k].from, rs[k].fromHeading);
    }
  }

  method IsLinkFeasible(t: FlywayTable, index: nat) returns (ok: bool, rateF: real, rateB: real)
    requires t.cfg.Valid() && index < |t.flyways|
    ensures ok == LinkOk(t.cfg, ResolveAll(t.aim, t.flyways), index)
    ensures ok ==> rateF == LinkRate(t.cfg, ResolveAll(t.aim, t.flyways), index)
    ensures ok ==> rateB == BackRate(t.cfg, ResolveAll(t.aim, t.flyways), index)
  {
    hide Noise, WorstCaseNoise, RateFor;
    var f := t.flyways[index];
    ghost var rs := ResolveAll(t.aim, t.flyways);
    rateF, rateB := 0.0, 0.0;
    var rssi := t.CalcSignalStrength(f.from, f.dongleFrom, f.to, f.dongleTo);
    var noiseAtSender, noiseAtReceiver := t.AddUpNoise(index);
    NoiseAboveBaseline(t.cfg.medium, rs, index, rs[index].channel, rs[index].from, rs[index].fromHeading);
    NoiseAboveBaseline(t.cfg.medium, rs, index, rs[index].channel, rs[index].to, rs[index].toHeading);
    // The background noise is never zero, so the branches for silence are dead.
    assert noiseAtSender != 0.0 && noiseAtReceiver != 0.0;
    noiseAtSender := t.cfg.medium.toDb(noiseAtSender);
    if t.cfg.cca && noiseAtSender > CCA_LIMIT_DBM {
      return false, rateF, rateB;
    }
    var rssiAdjust := rssi - (-1.0 * BASELINE_NOISE_DBM) + (-1.0 * noiseAtSender);
    rateB := t.FindRateForRSSI(rssiAdjust - MARGIN_DB);
    if !(rssiAdjust - MARGIN_DB > t.cfg.threshold) {
      return false, rateF, rateB;
    }
    noiseAtReceiver := t.cfg.medium.toDb(noiseAtReceiver);
    if t.cfg.cca && noiseAtReceiver > CCA_LIMIT_DBM {
      return false, rateF, rateB;
    }
    rssiAdjust := rssi - (-1.0 * BASELINE_NOISE_DBM) + (-1.0 * noiseAtReceiver);
    if rssiAdjust - MARGIN_DB > t.cfg.threshold {
      rateF := t.FindRateForRSSI(rssiAdjust - MARGIN_DB);
      return true, rateF, rateB;
    } else {
      return false, rateF, rateB;
    }
  }

  method IsFlywaySetFeasible(t: FlywayTable) returns (ok: bool)
    requires t.cfg.Valid()
    modifies t`flywayRates
    ensures ok <==> SetOk(t.cfg, ResolveAll(t.aim, t.flyways))
    ensures ok ==> t.flywayRates == BothRates(t.cfg, ResolveAll(t.aim, t.flyways), |t.flyways|)
  {
    hide LinkOk, LinkRate, BackRate;
    ghost var rs := ResolveAll(t.aim, t.flyways);
    t.flywayRates := [];
    for i := 0 to |t.flyways|
      invariant forall k :: 0 <= k < i ==> LinkOk(t.cfg, rs, k)
      invariant t.flywayRates == BothRates(t.cfg, rs, i)
    {
      var linkOk, rateF, rateB := IsLinkFeasible(t, i);
      if !linkOk {
        return false;
      }
      t.flywayRates := t.flywayRates + [rateF];
      t.flywayRates := t.flywayRates + [rateB];
    }
    return true;
  }

  lemma {:induction false} FreeNodeHasNoEnds(ls: seq<Link>, n: int)
    requires (forall i :: 0 <= i < |ls| ==> ls[i].channel == 0) && n !in Endpoints(ls, 0)
    ensures Degree(ls, n) == 0
  {
    if ls != [] {
      FreeNodeHasNoEnds(ls[..|ls| - 1], n);
    }
  }

  // With one channel and one dongle the two tests for room come to one, and the search over
  // channels to one check.
  lemma AttemptOnOneChannel(cfg: Config, ls: seq<Link>, a: int, b: int)
    requires OneOfEach(cfg) && a != b && forall i :: 0 <= i < |ls| ==> ls[i].channel == 0
    ensures var o := Attempt(cfg, Plan(ls, 0), a, b);
            var weak := Strength(cfg.medium, Facing(Link(a, b, 0))) < cfg.threshold + MARGIN_DB;
            if !FreeOn(ls, a, b, 0) then o == NoFreeDongle || o == NoFreeChannel
            else o == if weak then Outcome.TooFar else if Fits(cfg, ls, a, b, 0) then Placed(0) else HurtsOthers
  {
    hide SetOk;
    if FreeOn(ls, a, b, 0) {
      FreeNodeHasNoEnds(ls, a);
      FreeNodeHasNoEnds(ls, b);
      assert SharesFreeChannel(cfg, ls, a, b);
      assert Slot(cfg, Plan(ls, 0), 0) == 0;
      assert PickChannel(cfg, Plan(ls, 0), a, b, 1) == None;
    } else {
      assert !SharesFreeChannel(cfg, ls, a, b);
    }
  }

  predicate IsOverlap(o: Outcome) {
    o == NoFreeDongle || o == NoFreeChannel
  }

  // The tests for one pair, and the placing.
  method AttemptPair(t: FlywayTable, a: int, b: int) returns (o: Outcome)
    requires Tidy(t) && OneOfEach(t.cfg) && a != b
    modifies t`flyways, t`flywayRates, t`nodesWithFlyways, t`aim
    ensures Tidy(t)
    ensures var spec := Attempt(t.cfg, Plan(Links(old(t.flyways)), 0), a, b);
            o == spec || (IsOverlap(o) && IsOverlap(spec))
    ensures Plan(Links(t.flyways), 0) == Greedy.After(t.cfg, Plan(Links(old(t.flyways)), 0), a, b)
    ensures o.Placed? ==> t.flywayRates == BothRates(t.cfg, RaysOf(Links(t.flyways)), |t.flyways|)
  {
    hide SetOk, Endpoints, RaysOf, ResolveAll, BothRates, Attempt, Fits, DonglesLeft, Matching;
    ghost var before := t.flyways;
    OnChannelZero(t);
    AttemptOnOneChannel(t.cfg, Links(before), a, b);
    if a in t.nodesWithFlyways[0] {
      return NoFreeDongle;
    }
    if b in t.nodesWithFlyways[0] {
      return NoFreeDongle;
    }
    var f := Flyway(a, 0, b, 0, 0);
    t.PointAtEachOther(a, 0, b, 0);
    Pointed(old(t.aim), t.aim, before, a, b);
    var rssi := t.CalcSignalStrength(a, 0, b, 0);
    if rssi < t.cfg.threshold + MARGIN_DB {
      return Outcome.TooFar;
    }
    t.flyways := t.flyways + [f];
    var feasible := IsFlywaySetFeasible(t);
    FitsWhenFeasible(t.cfg, Links(before), a, b);
    if feasible {
      t.nodesWithFlyways := t.nodesWithFlyways[0 := t.nodesWithFlyways[0] + {a}];
      t.nodesWithFlyways := t.nodesWithFlyways[0 := t.nodesWithFlyways[0] + {b}];
      Added(t, before, a, b);
      return Placed(0);
    } else {
      t.flyways := t.flyways[..|t.flyways| - 1];
      assert t.flyways == before;
      return HurtsOthers;
    }
  }

  lemma OnChannelZero(t: FlywayTable)
    requires Tidy(t)
    ensures forall i :: 0 <= i < |t.flyways| ==> Links(t.flyways)[i].channel == 0 && t.flyways[i].channel == 0
  {
    assert forall i :: 0 <= i < |t.flyways| ==> t.flyways[i].channel == Links(t.flyways)[i].channel;
  }

  lemma Pointed(aim: Aim, aim': Aim, fs: seq<Flyway>, a: int, b: int)
    requires Aimed(aim, fs) && FreeOn(Links(fs), a, b, 0) && a != b
    requires forall i :: 0 <= i < |fs| ==> fs[i].channel == 0
    requires aim' == aim[(a, 0) := Toward(b)][(b, 0) := Toward(a)]
    ensures var f := Flyway(a, 0, b, 0, 0);
            && Aimed(aim', fs) && Aimed(aim', fs + [f])
            && Resolve(aim', f) == Facing(Link(a, b, 0))
            && Links(fs + [f]) == Links(fs) + [Link(a, b, 0)]
            && ResolveAll(aim', fs + [f]) == RaysOf(Links(fs) + [Link(a, b, 0)])
  {
    var f := Flyway(a, 0, b, 0, 0);
    FreeNodesRepointed(aim, aim', fs, a, b);
    LinksSnoc(fs, f);
    AimedRays(aim', fs + [f]);
  }

  lemma FitsWhenFeasible(cfg: Config, ls: seq<Link>, a: int, b: int)
    requires FreeOn(ls, a, b, 0)
    ensures Fits(cfg, ls, a, b, 0) <==> SetOk(cfg, RaysOf(ls + [Link(a, b, 0)]))
  {
  }

  // ----- the trial

  // The counters of the program; the tests for room have one counter.
  datatype Counters = Counters(valid: nat, same: nat, overlap: nat, tooFar: nat, hurts: nat)

  function Merged(c: Census): Counters {
    Counters(c.valid, c.same, c.noDongle + c.noChannel, c.tooFar, c.hurts)
  }

  function CountIn(c: Counters, o: Outcome): Counters {
    match o
    case Placed(_) => c.(valid := c.valid + 1)
    case SameEndPoint => c.(same := c.same + 1)
    case NoFreeDongle => c.(overlap := c.overlap + 1)
    case NoFreeChannel => c.(overlap := c.overlap + 1)
    case TooFar => c.(tooFar := c.tooFar + 1)
    case HurtsOthers => c.(hurts := c.hurts + 1)
  }

  lemma MergedPlus(c: Census, o: Outcome, spec: Outcome)
    requires o == spec || (IsOverlap(o) && IsOverlap(spec))
    ensures CountIn(Merged(c), o) == Merged(c.Plus(spec))
    ensures CountIn(Merged(c), o).valid == c.valid + if o.Placed? then 1 else 0
  {
  }

  // Each counter is the number of pairs with that outcome, where the two kinds of overlap are one.
  lemma {:induction false} MergedCounts(os: seq<Outcome>)
    ensures var c := Merged(Tally(os));
            && c.valid == CountOf(os, (o: Outcome) => o.Placed?)
            && c.same == CountOf(os, (o: Outcome) => o == Outcome.SameEndPoint)
            && c.overlap == CountOf(os, (o: Outcome) => IsOverlap(o))
            && c.tooFar == CountOf(os, (o: Outcome) => o == Outcome.TooFar)
            && c.hurts == CountOf(os, (o: Outcome) => o == HurtsOthers)
  {
    hide Tally;
    TallyCounts(os);
    OverlapCounts(os);
  }

  lemma {:induction false} OverlapCounts(os: seq<Outcome>)
    ensures CountOf(os, (o: Outcome) => IsOverlap(o))
         == CountOf(os, (o: Outcome) => o == NoFreeDongle) + CountOf(os, (o: Outcome) => o == NoFreeChannel)
  {
    if os != [] {
      OverlapCounts(os[1..]);
    }
  }

  // The rates remembered after a trial that ends with `fs`.
  function RatesAfter(cfg: Config, fs: seq<Flyway>, lastFeasible: seq<real>): seq<real>
    requires |cfg.limits| == |cfg.rates|
  {
    if fs == [] then lastFeasible else BothRates(cfg, RaysOf(Links(fs)), |fs|)
  }

  // One trial of the program. The set and the counters are those of Greedy.Trial; the rates
  // remembered are the two rates of each flyway of the final set, if there is one.
  method RunTrial(t: FlywayTable, numToRs: nat, rand: seq<nat>, lastFeasible: seq<real>)
    returns (nodes: array<int>, counters: Counters, total: nat, last: seq<real>)
    requires OneOfEach(t.cfg) && |t.nodesWithFlyways| == MAX_CHANNELS && |rand| == numToRs
    modifies t`flyways, t`flywayRates, t`nodesWithFlyways, t`aim
    ensures nodes[..] == Shuffled(numToRs, rand) && PermutesNodes(nodes[..], numToRs)
    ensures var r := Trial(t.cfg, 0, AllPairs(nodes[..]));
            Links(t.flyways) == r.plan.links && counters == Merged(Tally(r.outcomes))
    ensures total == numToRs * numToRs && counters.same == numToRs && 2 * counters.valid <= numToRs
    ensures |t.flyways| == counters.valid
    ensures last == RatesAfter(t.cfg, t.flyways, lastFeasible)
  {
    hide Tidy, OneOfEach, Links, BothRates, Attempt, Greedy.After, Progress, Tally, Trial, AllPairs, Merged, CountIn,
      Shuffled;
    t.flyways, t.aim := [], map[];
    t.nodesWithFlyways := t.nodesWithFlyways[0 := {}];
    StartsTidy(t);
    nodes := RandomizeNodeOrder(numToRs, rand);
    ghost var ns := nodes[..];
    ProgressEnds(t.cfg, 0, ns);
    counters, last := Counters(0, 0, 0, 0, 0), lastFeasible;
    var s := 0;
    while s < nodes.Length
      invariant s <= nodes.Length && nodes[..] == ns
      invariant Tidy(t) && SameAs(t, Progress(t.cfg, 0, ns, s, 0), counters)
      invariant last == RatesAfter(t.cfg, t.flyways, lastFeasible)
    {
      var d := 0;
      while d < nodes.Length
        invariant d <= nodes.Length && nodes[..] == ns
        invariant Tidy(t) && SameAs(t, Progress(t.cfg, 0, ns, s, d), counters)
        invariant last == RatesAfter(t.cfg, t.flyways, lastFeasible)
      {
        ProgressStep(t.cfg, 0, ns, s, d);
        AttemptEffect(t.cfg, Plan(Links(t.flyways), 0), ns[s], ns[d]);
        ghost var before := Tally(Progress(t.cfg, 0, ns, s, d).outcomes);
        if s == d {
          MergedPlus(before, Outcome.SameEndPoint, Outcome.SameEndPoint);
          counters := CountIn(counters, Outcome.SameEndPoint);
        } else {
          assert nodes[s] == ns[s] && nodes[d] == ns[d] && ns[s] != ns[d];
          ghost var placed := t.flyways;
          var o := AttemptPair(t, nodes[s], nodes[d]);
          GrowsWhenPlaced(t.cfg, placed, t.flyways, nodes[s], nodes[d]);
          MergedPlus(before, o, Attempt(t.cfg, Plan(Links(placed), 0), nodes[s], nodes[d]));
          counters := CountIn(counters, o);
          if o.Placed? {
            last := t.flywayRates;
          }
        }
        d := d + 1;
      }
      s := s + 1;
    }
    CensusOfTrial(t.cfg, 0, ns);
    MergedTotal(Tally(Trial(t.cfg, 0, AllPairs(ns)).outcomes));
    AsManyLinks(t.flyways);
    total := counters.valid + counters.same + counters.overlap + counters.tooFar + counters.hurts;
  }

  ghost predicate SameAs(t: FlywayTable, r: Greedy.Result, c: Counters)
    reads t
  {
    Plan(Links(t.flyways), 0) == r.plan && c == Merged(Tally(r.outcomes))
  }

  lemma AsManyLinks(fs: seq<Flyway>)
    ensures |Links(fs)| == |fs|
  {
  }

  lemma StartsTidy(t: FlywayTable)
    requires OneOfEach(t.cfg) && |t.nodesWithFlyways| == MAX_CHANNELS
    requires t.flyways == [] && t.aim == map[] && t.nodesWithFlyways[0] == {}
    ensures Tidy(t) && Links(t.flyways) == []
    ensures t.cfg.Valid() && t.cfg.numChannels == t.cfg.numDongles == 1
    ensures Counters(0, 0, 0, 0, 0) == Merged(Census(0, 0, 0, 0, 0, 0))
  {
  }

  // The list of flyways changes only when one is placed, and then it is not empty.
  lemma GrowsWhenPlaced(cfg: Config, fs: seq<Flyway>, fs': seq<Flyway>, a: int, b: int)
    requires cfg.numChannels == 1
    requires Plan(Links(fs'), 0) == Greedy.After(cfg, Plan(Links(fs), 0), a, b)
    ensures Attempt(cfg, Plan(Links(fs), 0), a, b).Placed? ==> fs' != []
    ensures !Attempt(cfg, Plan(Links(fs), 0), a, b).Placed? ==> Links(fs') == Links(fs) && |fs'| == |fs|
  {
    assert |Links(fs)| == |fs| && |Links(fs')| == |fs'|;
  }

  lemma MergedTotal(c: Census)
    ensures var m := Merged(c); m.valid + m.same + m.overlap + m.tooFar + m.hurts == ReportedTotal(c) + c.tooFar
    ensures Merged(c).valid == c.valid && Merged(c).same == c.same
  {
  }
}
