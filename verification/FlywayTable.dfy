// The global tables of the flyway programs, and the feasibility check over them.
module FlywayTables {
  import opened Interference
  import opened Placement

  datatype Flyway = Flyway(from: int, dongleFrom: int, to: int, dongleTo: int, channel: int)

  // Where each (node, dongle) antenna points; an antenna not listed points nowhere.
  type Aim = map<(int, int), Heading>

  const MAX_NODES: nat := 1000
  const MAX_CHANNELS: nat := 3

  function Look(aim: Aim, node: int, dongle: int): Heading {
    if (node, dongle) in aim then aim[(node, dongle)] else Nowhere
  }

  function Resolve(aim: Aim, f: Flyway): Ray {
    Ray(f.from, Look(aim, f.from, f.dongleFrom), f.to, Look(aim, f.to, f.dongleTo), f.channel)
  }

  function ResolveAll(aim: Aim, fs: seq<Flyway>): seq<Ray> {
    seq(|fs|, i requires 0 <= i < |fs| => Resolve(aim, fs[i]))
  }

  function LinkOf(f: Flyway): Link {
    Link(f.from, f.to, f.channel)
  }

  function Links(fs: seq<Flyway>): seq<Link> {
    seq(|fs|, i requires 0 <= i < |fs| => LinkOf(fs[i]))
  }

  // ----- what the tables have in common

  predicate AimedAt(aim: Aim, f: Flyway) {
    Look(aim, f.from, f.dongleFrom) == Toward(f.to) && Look(aim, f.to, f.dongleTo) == Toward(f.from)
  }

  ghost predicate Aimed(aim: Aim, fs: seq<Flyway>) {
    forall i :: 0 <= i < |fs| ==> AimedAt(aim, fs[i])
  }

  // `f` uses the first unused dongle of both its nodes when `before` are in place.
  predicate NextDongles(before: seq<Link>, f: Flyway) {
    f.dongleFrom == Degree(before, f.from) && f.dongleTo == Degree(before, f.to)
  }

  ghost predicate Numbered(fs: seq<Flyway>) {
    forall i :: 0 <= i < |fs| ==> fs[i].from != fs[i].to && NextDongles(Links(fs[..i]), fs[i])
  }

  predicate KnownNodes(f: Flyway) {
    0 <= f.from < MAX_NODES && 0 <= f.to < MAX_NODES
  }

  lemma AimedRays(aim: Aim, fs: seq<Flyway>)
    requires Aimed(aim, fs)
    ensures ResolveAll(aim, fs) == RaysOf(Links(fs))
  {
    forall i | 0 <= i < |fs| ensures Resolve(aim, fs[i]) == Facing(LinkOf(fs[i])) {
      assert AimedAt(aim, fs[i]);
    }
  }

  lemma {:induction false} DegreeOfPrefix(ls: seq<Link>, i: nat, n: int)
    requires i < |ls|
    ensures Degree(ls[..i], n) + Ends(ls[i], n) <= Degree(ls, n)
  {
    var k := |ls| - 1;
    if i < k {
      DegreeOfPrefix(ls[..k], i, n);
      assert ls[..k][..i] == ls[..i];
    }
  }

  lemma {:induction false} DegreeByPairs(ls: seq<Link>, ls': seq<Link>, n: int)
    requires Pairs(ls) == Pairs(ls')
    ensures Degree(ls, n) == Degree(ls', n)
  {
    assert |ls| == |Pairs(ls)| == |Pairs(ls')| == |ls'|;
    if ls != [] {
      var k := |ls| - 1;
      assert Pairs(ls[..k]) == Pairs(ls)[..k] == Pairs(ls')[..k] == Pairs(ls'[..k]);
      assert Pairs(ls)[k] == Pairs(ls')[k];
      DegreeByPairs(ls[..k], ls'[..k], n);
    }
  }

  // The dongles in use at a node are numbered below its degree ...
  lemma UsedDonglesAreCounted(fs: seq<Flyway>, i: nat)
    requires Numbered(fs) && i < |fs|
    ensures 0 <= fs[i].dongleFrom < Degree(Links(fs), fs[i].from)
    ensures 0 <= fs[i].dongleTo < Degree(Links(fs), fs[i].to)
  {
    assert Links(fs)[..i] == Links(fs[..i]);
    DegreeOfPrefix(Links(fs), i, fs[i].from);
    DegreeOfPrefix(Links(fs), i, fs[i].to);
  }

  predicate Uses(f: Flyway, node: int, dongle: int) {
    (f.from == node && f.dongleFrom == dongle) || (f.to == node && f.dongleTo == dongle)
  }

  // ... no dongle serves two flyways ...
  lemma DonglesUnshared(fs: seq<Flyway>, i: nat, j: nat, node: int, dongle: nat)
    requires Numbered(fs) && i < j < |fs|
    requires Uses(fs[i], node, dongle)
    ensures !Uses(fs[j], node, dongle)
  {
    assert Numbered(fs[..j]) by {
      assert forall k :: 0 <= k < j ==> fs[..j][..k] == fs[..k];
    }
    UsedDonglesAreCounted(fs[..j], i);
    assert NextDongles(Links(fs[..j]), fs[j]);
  }

  // ... and every number below the degree is used.
  lemma {:induction false} DonglesAllUsed(fs: seq<Flyway>, node: int, dongle: nat) returns (i: nat)
    requires Numbered(fs)
    requires dongle < Degree(Links(fs), node)
    ensures i < |fs| && Uses(fs[i], node, dongle)
  {
    var k := |fs| - 1;
    var init := fs[..k];
    assert Links(fs)[..k] == Links(init);
    if dongle < Degree(Links(init), node) {
      assert forall j :: 0 <= j < k ==> init[..j] == fs[..j];
      i := DonglesAllUsed(init, node, dongle);
    } else {
      i := k;
      assert NextDongles(Links(init), fs[k]);
    }
  }

  lemma NumberedSnoc(fs: seq<Flyway>, f: Flyway)
    requires Numbered(fs) && f.from != f.to && NextDongles(Links(fs), f)
    ensures Numbered(fs + [f])
  {
    forall i | 0 <= i < |fs + [f]| ensures NextDongles(Links((fs + [f])[..i]), (fs + [f])[i]) {
      assert (fs + [f])[..i] == if i < |fs| then fs[..i] else fs;
      assert i < |fs| ==> NextDongles(Links(fs[..i]), fs[i]);
    }
  }

  // Pointing the next unused dongles disturbs no flyway that is in place.
  lemma AimKept(aim: Aim, aim': Aim, fs: seq<Flyway>)
    requires Numbered(fs) && Aimed(aim, fs)
    requires forall n, d :: 0 <= d < Degree(Links(fs), n) ==> Look(aim', n, d) == Look(aim, n, d)
    ensures Aimed(aim', fs)
  {
    forall i | 0 <= i < |fs| ensures AimedAt(aim', fs[i]) {
      UsedDonglesAreCounted(fs, i);
      assert AimedAt(aim, fs[i]);
    }
  }

  class FlywayTable {
    const cfg: Config
    var flyways: seq<Flyway>
    var flywayRates: seq<real>
    // The nodes in nodesWithFlyways[c], for each channel c.
    var nodesWithFlyways: seq<set<int>>
    const dongleCounts: array<nat>
    // Antenna directions, kept by the topology helper.
    var aim: Aim
    // The function-static channel pointer.
    var curChan: nat

    ghost predicate Shaped()
      reads this
    {
      && cfg.Valid()
      && |nodesWithFlyways| == MAX_CHANNELS
      && dongleCounts.Length == MAX_NODES
      && curChan < cfg.numChannels
    }

    // The tables agree with each other when `pending` flyways have their dongles
    // reserved but are not placed yet.
    ghost predicate Agrees(pending: seq<Link>)
      reads this, dongleCounts
    {
      && Shaped()
      && Good(cfg, Links(flyways))
      && Numbered(flyways)
      && Aimed(aim, flyways)
      && (forall i :: 0 <= i < |flyways| ==> KnownNodes(flyways[i]))
      && (forall c :: 0 <= c < cfg.numChannels ==> nodesWithFlyways[c] == Endpoints(Links(flyways), c))
      && (forall n :: 0 <= n < MAX_NODES ==> dongleCounts[n] == Degree(Links(flyways) + pending, n))
    }

    ghost function CurrentPlan(): Plan
      reads this
    {
      Plan(Links(flyways), curChan)
    }

    constructor (cfg: Config)
      requires cfg.Valid()
      ensures this.cfg == cfg && flyways == [] && flywayRates == [] && curChan == 0
      ensures nodesWithFlyways == [{}, {}, {}] && dongleCounts.Length == MAX_NODES
      ensures forall n :: 0 <= n < dongleCounts.Length ==> dongleCounts[n] == 0
      ensures Agrees([]) && fresh(dongleCounts)
    {
      this.cfg := cfg;
      flyways, flywayRates, aim, curChan := [], [], map[], 0;
      nodesWithFlyways := [{}, {}, {}];
      dongleCounts := new nat[MAX_NODES](_ => 0);
    }

    method FindRateForRSSI(rssi: real) returns (rate: real)
      requires |cfg.limits| == |cfg.rates|
      ensures rate == RateFor(cfg.limits, cfg.rates, rssi)
    {
      rate := 0.0;
      for i := 0 to |cfg.limits|
        invariant rate == RateFor(cfg.limits[..i], cfg.rates[..i], rssi)
      {
        assert cfg.limits[..i + 1][..i] == cfg.limits[..i] && cfg.rates[..i + 1][..i] == cfg.rates[..i];
        if rssi > cfg.limits[i] {
          rate := cfg.rates[i];
        }
      }
      assert cfg.limits[..|cfg.limits|] == cfg.limits && cfg.rates[..|cfg.limits|] == cfg.rates;
    }

    method PointAtEachOther(a: int, dongleA: int, b: int, dongleB: int)
      requires a != b
      modifies `aim
      ensures aim == old(aim)[(a, dongleA) := Toward(b)][(b, dongleB) := Toward(a)]
    {
      aim := aim[(a, dongleA) := Toward(b)];
      aim := aim[(b, dongleB) := Toward(a)];
    }

    function CalcSignalStrength(a: int, dongleA: int, b: int, dongleB: int): real
      reads this
    {
      cfg.medium.signal(a, Look(aim, a, dongleA), b, Look(aim, b, dongleB))
    }

    function WorstCaseNoiseFromFlywayToNode(f: Flyway, b: int, dongleId: int): (noise: real)
      reads this
      ensures noise == WorstCaseNoise(cfg.medium, Resolve(aim, f), b, Look(aim, b, dongleId))
    {
      var noiseFromSender := CalcSignalStrength(f.from, f.dongleFrom, b, dongleId);
      var noiseFromReceiver := CalcSignalStrength(f.to, f.dongleTo, b, dongleId);
      cfg.medium.toDb(cfg.medium.toLinear(noiseFromSender) + cfg.medium.toLinear(noiseFromReceiver))
    }

    // Noise from the other flyways of the channel, added up flyway by flyway.
    method AddUpNoise(index: nat) returns (noiseAtSender: real, noiseAtReceiver: real)
      requires index < |flyways|
      ensures noiseAtSender == SenderNoise(cfg.medium, ResolveAll(aim, flyways), index)
      ensures noiseAtReceiver == ReceiverNoise(cfg.medium, ResolveAll(aim, flyways), index)
    {
      var f := flyways[index];
      var m := cfg.medium;
      ghost var rs := ResolveAll(aim, flyways);
      ghost var r := rs[index];
      noiseAtSender := m.toLinear(BASELINE_NOISE_DBM);
      noiseAtReceiver := m.toLinear(BASELINE_NOISE_DBM);
      for i := 0 to |flyways|
        invariant noiseAtSender == Noise(m, rs[..i], index, r.channel, r.from, r.fromHeading)
        invariant noiseAtReceiver == Noise(m, rs[..i], index, r.channel, r.to, r.toHeading)
      {
        assert rs[..i + 1][..i] == rs[..i];
        if i == index || f.channel != flyways[i].channel {
          continue;
        }
        var noise := WorstCaseNoiseFromFlywayToNode(flyways[i], f.from, f.dongleFrom);
        noiseAtSender := noiseAtSender + m.toLinear(noise);
        noise := WorstCaseNoiseFromFlywayToNode(flyways[i], f.to, f.dongleTo);
        noiseAtReceiver := noiseAtReceiver + m.toLinear(noise);
      }
      assert rs[..|flyways|] == rs;
    }

    method IsLinkFeasible(index: nat) returns (ok: bool, rate: real)
      requires cfg.Valid() && index < |flyways|
      ensures ok == LinkOk(cfg, ResolveAll(aim, flyways), index)
      ensures rate == if ok then LinkRate(cfg, ResolveAll(aim, flyways), index) else 0.0
    {
      var f := flyways[index];
      ghost var rs := ResolveAll(aim, flyways);
      rate := 0.0;
      var rssi := CalcSignalStrength(f.from, f.dongleFrom, f.to, f.dongleTo);
      var noiseAtSender, noiseAtReceiver := AddUpNoise(index);
      NoiseAboveBaseline(cfg.medium, rs, index, rs[index].channel, rs[index].from, rs[index].fromHeading);
      NoiseAboveBaseline(cfg.medium, rs, index, rs[index].channel, rs[index].to, rs[index].toHeading);
      // The background noise is never zero, so the exits for silence are dead.
      assert noiseAtSender != 0.0 && noiseAtReceiver != 0.0;

      noiseAtSender := cfg.medium.toDb(noiseAtSender);
      if cfg.cca && noiseAtSender > CCA_LIMIT_DBM {
        return false, rate;
      }
      var rssiAdjust := rssi - (-1.0 * BASELINE_NOISE_DBM) + (-1.0 * noiseAtSender);
      if !(rssiAdjust - MARGIN_DB > cfg.threshold) {
        return false, rate;
      }

      noiseAtReceiver := cfg.medium.toDb(noiseAtReceiver);
      if cfg.cca && noiseAtReceiver > CCA_LIMIT_DBM {
        return false, rate;
      }
      rssiAdjust := rssi - (-1.0 * BASELINE_NOISE_DBM) + (-1.0 * noiseAtReceiver);
      if rssiAdjust - MARGIN_DB > cfg.threshold {
        rate := FindRateForRSSI(rssiAdjust - MARGIN_DB);
        return true, rate;
      } else {
        return false, rate;
      }
    }

    // The rates are those of the links before the first one that fails.
    method IsFlywaySetFeasible() returns (ok: bool)
      requires cfg.Valid()
      modifies `flywayRates
      ensures Checked(cfg, ResolveAll(aim, flyways), flywayRates)
      ensures ok <==> SetOk(cfg, ResolveAll(aim, flyways))
      ensures ok ==> flywayRates == Rates(cfg, ResolveAll(aim, flyways))
    {
      ghost var rs := ResolveAll(aim, flyways);
      flywayRates := [];
      var i := 0;
      while i < |flyways|
        invariant i == |flywayRates| <= |flyways|
        invariant PassedSoFar(cfg, rs, flywayRates)
      {
        var linkOk, rate := IsLinkFeasible(i);
        if !linkOk {
          return false;
        }
        PassedOneMore(cfg, rs, flywayRates, rate);
        flywayRates := flywayRates + [rate];
        i := i + 1;
      }
      return true;
    }
  }

  ghost predicate PassedSoFar(cfg: Config, rs: seq<Ray>, rates: seq<real>)
    requires |cfg.limits| == |cfg.rates|
  {
    && |rates| <= |rs|
    && forall i :: 0 <= i < |rates| ==> LinkOk(cfg, rs, i) && rates[i] == LinkRate(cfg, rs, i)
  }

  // The outcome of a feasibility check: every link before |rates| works, at the listed
  // rate, and the next one, if there is one, does not.
  ghost predicate Checked(cfg: Config, rs: seq<Ray>, rates: seq<real>)
    requires |cfg.limits| == |cfg.rates|
  {
    && PassedSoFar(cfg, rs, rates)
    && (|rates| < |rs| ==> !LinkOk(cfg, rs, |rates|))
  }

  lemma PassedOneMore(cfg: Config, rs: seq<Ray>, rates: seq<real>, rate: real)
    requires |cfg.limits| == |cfg.rates|
    requires PassedSoFar(cfg, rs, rates) && |rates| < |rs|
    requires LinkOk(cfg, rs, |rates|) && rate == LinkRate(cfg, rs, |rates|)
    ensures PassedSoFar(cfg, rs, rates + [rate])
  {
  }

  // ----- steps shared by the programs

  lemma SameDegrees(ls: seq<Link>, ls': seq<Link>)
    requires Pairs(ls) == Pairs(ls')
    ensures forall n :: Degree(ls, n) == Degree(ls', n)
  {
    forall n ensures Degree(ls, n) == Degree(ls', n) {
      DegreeByPairs(ls, ls', n);
    }
  }

  // The new flyway is recorded in all tables; then they agree again.
  lemma Recorded(before: seq<Flyway>, f: Flyway, g: Flyway, rest: seq<Link>, counts: seq<nat>)
    requires g == f.(channel := g.channel)
    requires |counts| == MAX_NODES
    requires forall n :: 0 <= n < MAX_NODES ==> counts[n] == Degree(Links(before) + ([LinkOf(f)] + rest), n)
    ensures forall n :: 0 <= n < MAX_NODES ==> counts[n] == Degree(Links(before + [g]) + rest, n)
  {
    var ls, ls' := Links(before) + ([LinkOf(f)] + rest), Links(before + [g]) + rest;
    assert Pairs(ls) == Pairs(ls');
    SameDegrees(ls, ls');
  }

  lemma LinksSnoc(fs: seq<Flyway>, f: Flyway)
    ensures Links(fs + [f]) == Links(fs) + [LinkOf(f)]
  {
  }

  lemma TablesUpdated(t: FlywayTable, before: seq<Flyway>, f: Flyway, g: Flyway, rest: seq<Link>)
    requires t.Shaped()
    requires t.flyways == before + [g] && g == f.(channel := g.channel) && KnownNodes(g)
    requires Good(t.cfg, Links(before)) && Numbered(before) && Aimed(t.aim, t.flyways)
    requires forall i :: 0 <= i < |before| ==> KnownNodes(before[i])
    requires g.from != g.to && 0 <= g.channel < t.cfg.numChannels
    requires NextDongles(Links(before), g) && DonglesLeft(t.cfg, Links(before), g.from, g.to)
    requires Fits(t.cfg, Links(before), g.from, g.to, g.channel)
    requires forall c :: 0 <= c < t.cfg.numChannels ==>
               t.nodesWithFlyways[c] == Endpoints(Links(before), c) + if c == g.channel then {g.from, g.to} else {}
    requires forall n :: 0 <= n < MAX_NODES ==> t.dongleCounts[n] == Degree(Links(before) + ([LinkOf(f)] + rest), n)
    ensures t.Agrees(rest)
  {
    LinksSnoc(before, g);
    AddKeepsGood(t.cfg, Links(before), g.from, g.to, g.channel);
    NumberedSnoc(before, g);
    Recorded(before, f, g, rest, t.dongleCounts[..]);
    forall c | 0 <= c < t.cfg.numChannels ensures t.nodesWithFlyways[c] == Endpoints(Links(t.flyways), c) {
      SnocEndpoints(Links(before), LinkOf(g), c);
    }
  }

  lemma AgreesByPairs(t: FlywayTable, pending: seq<Link>, pending': seq<Link>)
    requires t.Agrees(pending) && Pairs(pending) == Pairs(pending')
    ensures t.Agrees(pending')
  {
    assert Pairs(Links(t.flyways) + pending) == Pairs(Links(t.flyways)) + Pairs(pending);
    assert Pairs(Links(t.flyways) + pending') == Pairs(Links(t.flyways)) + Pairs(pending');
    SameDegrees(Links(t.flyways) + pending, Links(t.flyways) + pending');
  }

  // Reserve the next dongles of both nodes.
  method ReserveDongles(t: FlywayTable, from: int, to: int) returns (dongleFrom: nat, dongleTo: nat)
    requires t.Agrees([]) && from != to
    requires 0 <= from < MAX_NODES && 0 <= to < MAX_NODES
    modifies t.dongleCounts
    ensures t.Agrees([Link(from, to, -1)])
    ensures dongleFrom == Degree(Links(t.flyways), from) && dongleTo == Degree(Links(t.flyways), to)
  {
    var l := Link(from, to, -1);
    assert Links(t.flyways) + [] == Links(t.flyways);
    dongleFrom := t.dongleCounts[from];
    t.dongleCounts[from] := t.dongleCounts[from] + 1;
    dongleTo := t.dongleCounts[to];
    t.dongleCounts[to] := t.dongleCounts[to] + 1;
    forall n | 0 <= n < MAX_NODES ensures t.dongleCounts[n] == Degree(Links(t.flyways) + [l], n) {
      SnocDegree(Links(t.flyways), l, n);
    }
  }

  method ReleaseDongles(t: FlywayTable, f: Flyway, ghost rest: seq<Link>)
    requires t.Agrees([LinkOf(f)] + rest) && f.from != f.to && KnownNodes(f)
    modifies t.dongleCounts
    ensures rest == [] ==> t.Agrees([])
  {
    ghost var ls := Links(t.flyways) + ([LinkOf(f)] + rest);
    assert Ends(ls[|t.flyways|], f.from) == Ends(ls[|t.flyways|], f.to) == 1;
    DegreeOfPrefix(ls, |t.flyways|, f.from);
    DegreeOfPrefix(ls, |t.flyways|, f.to);
    t.dongleCounts[f.from] := t.dongleCounts[f.from] - 1;
    t.dongleCounts[f.to] := t.dongleCounts[f.to] - 1;
    if rest == [] {
      assert ls == Links(t.flyways) + [LinkOf(f)];
      assert Links(t.flyways) + [] == Links(t.flyways);
      forall n | 0 <= n < MAX_NODES ensures t.dongleCounts[n] == Degree(Links(t.flyways), n) {
        SnocDegree(Links(t.flyways), LinkOf(f), n);
      }
    }
  }

  method AdvanceChannel(t: FlywayTable, ghost rest: seq<Link>)
    requires t.Agrees(rest)
    modifies t`curChan
    ensures t.Agrees(rest)
    ensures t.curChan == (old(t.curChan) + 1) % t.cfg.numChannels
  {
    t.curChan := (t.curChan + 1) % t.cfg.numChannels;
  }
}
