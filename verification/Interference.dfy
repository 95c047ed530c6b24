// The radio model shared by the flyway programs: who hears whom how loudly, how
// the noise at an antenna adds up, and when a link (or a whole set of links)
// still works under the worst interference the other links can cause.
module Interference {
  // What an antenna is pointed at.
  datatype Heading = Nowhere | Toward(node: int)

  // One flyway as the radio sees it: both ends, where each antenna points, and
  // the channel.
  datatype Ray = Ray(from: int, fromHeading: Heading, to: int, toHeading: Heading, channel: int)

  // The parts of the simulator that are outside this model. `signal` is the
  // received power in dBm between two antennas; `toLinear` is x |-> 10^(x/10)
  // and `toDb` is y |-> 10*log10(y), over exact reals.
  datatype Medium = Medium(
    signal: (int, Heading, int, Heading) -> real,
    toLinear: real -> real,
    toDb: real -> real)
  {
    ghost predicate PowerIsPositive() {
      forall x :: toLinear(x) > 0.0
    }

    // All that the proofs use about the two conversions.
    ghost predicate Valid() {
      && PowerIsPositive()
      && (forall x {:trigger toDb(toLinear(x))} :: toDb(toLinear(x)) == x)
      && (forall x, y {:trigger Below(x, y)} :: Below(x, y) ==> toDb(x) < toDb(y))
    }

    lemma ToDbMonotone(x: real, y: real)
      requires Valid()
      requires 0.0 < x <= y
      ensures toDb(x) <= toDb(y)
    {
      assert x < y ==> Below(x, y);
    }
  }

  predicate Below(x: real, y: real) {
    0.0 < x < y
  }

  const BASELINE_NOISE_DBM := -81.0
  const CCA_LIMIT_DBM := -77.0
  const MARGIN_DB := 3.0

  datatype Config = Config(
    medium: Medium,
    threshold: real,
    cca: bool,
    limits: seq<real>,
    rates: seq<real>,
    numChannels: nat,
    numDongles: nat)
  {
    ghost predicate Valid() {
      && medium.Valid()
      && |limits| == |rates|
      && 1 <= numChannels <= 3
    }
  }

  // ----- rates

  // The rate of the last limit that lies strictly below `rssi`; 0 if none does.
  function RateFor(limits: seq<real>, rates: seq<real>, rssi: real): (rate: real)
    requires |limits| == |rates|
  {
    if limits == [] then 0.0
    else
      var k := |limits| - 1;
      if rssi > limits[k] then rates[k] else RateFor(limits[..k], rates[..k], rssi)
  }

  predicate SortedTable(limits: seq<real>, rates: seq<real>) {
    && |limits| == |rates|
    && (forall i, j :: 0 <= i < j < |limits| ==> limits[i] < limits[j])
    && (forall i, j :: 0 <= i < j < |rates| ==> rates[i] < rates[j])
    && (forall i :: 0 <= i < |rates| ==> 0.0 < rates[i])
  }

  lemma {:induction false} RateIsHighestLimitBelow(limits: seq<real>, rates: seq<real>, rssi: real, i: nat)
    requires SortedTable(limits, rates)
    requires i < |limits|
    ensures RateFor(limits, rates, rssi) == rates[i]
            <==> limits[i] < rssi && forall j :: i < j < |limits| ==> rssi <= limits[j]
  {
    var k := |limits| - 1;
    if rssi > limits[k] {
      assert i < k ==> rates[i] < rates[k];
    } else if i < k {
      RateIsHighestLimitBelow(limits[..k], rates[..k], rssi, i);
      assert forall j :: i < j < k ==> limits[..k][j] == limits[j];
    } else {
      RateFromTable(limits[..k], rates[..k], rssi);
    }
  }

  lemma {:induction false} RateFromTable(limits: seq<real>, rates: seq<real>, rssi: real)
    requires |limits| == |rates|
    ensures RateFor(limits, rates, rssi) == 0.0 || RateFor(limits, rates, rssi) in rates
  {
    if limits != [] {
      var k := |limits| - 1;
      RateFromTable(limits[..k], rates[..k], rssi);
    }
  }

  lemma {:induction false} RateMonotone(limits: seq<real>, rates: seq<real>, x: real, y: real)
    requires SortedTable(limits, rates)
    requires x <= y
    ensures RateFor(limits, rates, x) <= RateFor(limits, rates, y)
  {
    if limits != [] {
      var k := |limits| - 1;
      RateMonotone(limits[..k], rates[..k], x, y);
      RateFromTable(limits[..k], rates[..k], x);
    }
  }

  // The tables of the programs.
  const SC_LIMITS := [-68.0, -67.0, -65.0, -64.0, -63.0, -62.0, -61.0, -59.0, -55.0, -54.0, -53.0, -52.0, -51.0,
                      -50.0, -49.0, -48.0, -47.0]
  const SC_RATES := [0.385, 0.77, 0.9625, 1.155, 1.54, 1.925, 2.31, 2.5025, 3.08, 3.85, 4.62, 5.005, 5.775, 6.93,
                     7.5075, 9.24, 10.01]
  const OFDM_LIMITS := [-66.0, -64.0, -63.0, -62.0, -60.0, -58.0, -56.0, -54.0, -53.0, -51.0, -49.0, -47.0]
  const OFDM_RATES := [0.693, 0.86625, 1.386, 1.73250, 2.079, 2.772, 3.465, 4.158, 4.5045, 5.1975, 6.237, 6.75675]

  predicate Ascends(s: seq<real>) {
    forall i :: 0 < i < |s| ==> s[i - 1] < s[i]
  }

  lemma {:induction false} AscendsThroughout(s: seq<real>, i: nat, j: nat)
    requires Ascends(s) && i < j < |s|
    ensures s[i] < s[j]
    decreases j
  {
    if i + 1 < j {
      AscendsThroughout(s, i, j - 1);
    }
  }

  lemma AscendingTable(limits: seq<real>, rates: seq<real>)
    requires |limits| == |rates| > 0 && Ascends(limits) && Ascends(rates) && 0.0 < rates[0]
    ensures SortedTable(limits, rates)
  {
    forall i, j | 0 <= i < j < |limits| ensures limits[i] < limits[j] && rates[i] < rates[j] {
      AscendsThroughout(limits, i, j);
      AscendsThroughout(rates, i, j);
    }
  }

  // What is said of sorted tables holds of both tables the programs choose from.
  lemma ProgramTablesAreSorted()
    ensures SortedTable(SC_LIMITS, SC_RATES) && SortedTable(OFDM_LIMITS, OFDM_RATES)
  {
    hide SortedTable;
    AscendingTable(SC_LIMITS, SC_RATES);
    AscendingTable(OFDM_LIMITS, OFDM_RATES);
  }

  // ----- noise

  function Strength(m: Medium, r: Ray): real {
    m.signal(r.from, r.fromHeading, r.to, r.toHeading)
  }

  // Both ends of `r` are taken to transmit at once.
  function WorstCaseNoise(m: Medium, r: Ray, node: int, heading: Heading): real {
    m.toDb(m.toLinear(m.signal(r.from, r.fromHeading, node, heading))
         + m.toLinear(m.signal(r.to, r.toHeading, node, heading)))
  }

  // Total linear noise at an antenna from the background and from every ray on
  // `channel` except the one at index `skip`.
  function Noise(m: Medium, rs: seq<Ray>, skip: int, channel: int, node: int, heading: Heading): real {
    if rs == [] then m.toLinear(BASELINE_NOISE_DBM)
    else
      var k := |rs| - 1;
      Noise(m, rs[..k], skip, channel, node, heading)
      + if k == skip || rs[k].channel != channel then 0.0
        else m.toLinear(WorstCaseNoise(m, rs[k], node, heading))
  }

  function SenderNoise(m: Medium, rs: seq<Ray>, i: nat): real
    requires i < |rs|
  {
    Noise(m, rs, i, rs[i].channel, rs[i].from, rs[i].fromHeading)
  }

  function ReceiverNoise(m: Medium, rs: seq<Ray>, i: nat): real
    requires i < |rs|
  {
    Noise(m, rs, i, rs[i].channel, rs[i].to, rs[i].toHeading)
  }

  // Signal left at one end of ray `i` after noise and the 3 dB margin.
  function Headroom(m: Medium, rs: seq<Ray>, i: nat, noise: real): real
    requires i < |rs|
  {
    Strength(m, rs[i]) + BASELINE_NOISE_DBM - m.toDb(noise) - MARGIN_DB
  }

  predicate EndOk(cfg: Config, rs: seq<Ray>, i: nat, noise: real)
    requires i < |rs|
  {
    && !(cfg.cca && cfg.medium.toDb(noise) > CCA_LIMIT_DBM)
    && Headroom(cfg.medium, rs, i, noise) > cfg.threshold
  }

  predicate LinkOk(cfg: Config, rs: seq<Ray>, i: nat)
    requires i < |rs|
  {
    && EndOk(cfg, rs, i, SenderNoise(cfg.medium, rs, i))
    && EndOk(cfg, rs, i, ReceiverNoise(cfg.medium, rs, i))
  }

  function LinkRate(cfg: Config, rs: seq<Ray>, i: nat): real
    requires i < |rs| && |cfg.limits| == |cfg.rates|
  {
    RateFor(cfg.limits, cfg.rates, Headroom(cfg.medium, rs, i, ReceiverNoise(cfg.medium, rs, i)))
  }

  predicate SetOk(cfg: Config, rs: seq<Ray>) {
    forall i :: 0 <= i < |rs| ==> LinkOk(cfg, rs, i)
  }

  function Rates(cfg: Config, rs: seq<Ray>): seq<real>
    requires |cfg.limits| == |cfg.rates|
  {
    seq(|rs|, i requires 0 <= i < |rs| => LinkRate(cfg, rs, i))
  }

  lemma {:induction false} NoiseAboveBaseline(m: Medium, rs: seq<Ray>, skip: int, channel: int, node: int,
        heading: Heading)
    requires m.Valid()
    ensures Noise(m, rs, skip, channel, node, heading) >= m.toLinear(BASELINE_NOISE_DBM) > 0.0
    ensures m.toDb(Noise(m, rs, skip, channel, node, heading)) >= BASELINE_NOISE_DBM
  {
    if rs != [] {
      var k := |rs| - 1;
      NoiseAboveBaseline(m, rs[..k], skip, channel, node, heading);
      assert m.toLinear(WorstCaseNoise(m, rs[k], node, heading)) > 0.0;
    }
    assert m.toDb(m.toLinear(BASELINE_NOISE_DBM)) == BASELINE_NOISE_DBM;
    m.ToDbMonotone(m.toLinear(BASELINE_NOISE_DBM), Noise(m, rs, skip, channel, node, heading));
  }

  // The cheap signal test made before the full check never changes its verdict:
  // a ray that fails it cannot be part of any workable set.
  lemma WeakRayNeverWorks(cfg: Config, rs: seq<Ray>, i: nat)
    requires cfg.Valid()
    requires i < |rs|
    requires Strength(cfg.medium, rs[i]) < cfg.threshold + MARGIN_DB
    ensures !LinkOk(cfg, rs, i)
    ensures !SetOk(cfg, rs)
  {
    NoiseAboveBaseline(cfg.medium, rs, i, rs[i].channel, rs[i].from, rs[i].fromHeading);
  }

  // ----- the noise in terms of signals

  // The two conversions are inverse to each other on every power there is.
  lemma ToLinearOfDb(m: Medium, y: real)
    requires m.Valid() && y > 0.0
    ensures m.toLinear(m.toDb(y)) == y
  {
    var x := m.toDb(y);
    assert m.toDb(m.toLinear(x)) == x && m.toLinear(x) > 0.0;
    assert Below(m.toLinear(x), y) || Below(y, m.toLinear(x)) || m.toLinear(x) == y;
  }

  // What an antenna hears of a transmitter, linearly.
  function Heard(m: Medium, at: int, heading: Heading, node: int, toward: Heading): real {
    m.toLinear(m.signal(at, heading, node, toward))
  }

  lemma HeardIsPositive(m: Medium, at: int, heading: Heading, node: int, toward: Heading)
    requires m.PowerIsPositive()
    ensures Heard(m, at, heading, node, toward) > 0.0
  {
    var x := m.signal(at, heading, node, toward);
    assert m.toLinear(x) > 0.0;
  }

  // What the rays on `channel`, apart from the one at index `skip`, put into an antenna: both ends of
  // each are heard. `first` is the index of the first ray of the list.
  function HeardFrom(m: Medium, rs: seq<Ray>, first: nat, skip: int, channel: int, node: int, heading: Heading): real {
    if rs == [] then 0.0
    else
      (if first != skip && rs[0].channel == channel
       then Heard(m, rs[0].from, rs[0].fromHeading, node, heading) + Heard(m, rs[0].to, rs[0].toHeading, node, heading)
       else 0.0)
      + HeardFrom(m, rs[1..], first + 1, skip, channel, node, heading)
  }

  lemma {:induction false} HeardFromSnoc(m: Medium, rs: seq<Ray>, r: Ray, first: nat, skip: int, channel: int,
                                         node: int, heading: Heading)
    ensures HeardFrom(m, rs + [r], first, skip, channel, node, heading)
         == HeardFrom(m, rs, first, skip, channel, node, heading)
            + if first + |rs| != skip && r.channel == channel
              then Heard(m, r.from, r.fromHeading, node, heading) + Heard(m, r.to, r.toHeading, node, heading) else 0.0
  {
    hide Heard;
    if rs == [] {
      assert rs + [r] == [r] && [r][1..] == [];
    } else {
      assert (rs + [r])[1..] == rs[1..] + [r];
      HeardFromSnoc(m, rs[1..], r, first + 1, skip, channel, node, heading);
    }
  }

  // The noise is the background and what is heard, ends added up one by one.
  lemma {:induction false} NoiseIsHeard(m: Medium, rs: seq<Ray>, skip: int, channel: int, node: int, heading: Heading)
    requires m.Valid()
    ensures Noise(m, rs, skip, channel, node, heading)
         == m.toLinear(BASELINE_NOISE_DBM) + HeardFrom(m, rs, 0, skip, channel, node, heading)
  {
    if rs != [] {
      var k := |rs| - 1;
      NoiseIsHeard(m, rs[..k], skip, channel, node, heading);
      assert rs == rs[..k] + [rs[k]];
      HeardFromSnoc(m, rs[..k], rs[k], 0, skip, channel, node, heading);
      WorstCaseIsBothEnds(m, rs[k], node, heading);
    }
  }

  lemma WorstCaseIsBothEnds(m: Medium, r: Ray, node: int, heading: Heading)
    requires m.Valid()
    ensures m.toLinear(WorstCaseNoise(m, r, node, heading))
         == Heard(m, r.from, r.fromHeading, node, heading) + Heard(m, r.to, r.toHeading, node, heading)
  {
    var sender, receiver := Heard(m, r.from, r.fromHeading, node, heading), Heard(m, r.to, r.toHeading, node, heading);
    HeardIsPositive(m, r.from, r.fromHeading, node, heading);
    HeardIsPositive(m, r.to, r.toHeading, node, heading);
    ToLinearOfDb(m, sender + receiver);
  }

  // The noise at an antenna of the ray at index `i`, in dBm, with a background of -81 dBm.
  function NoiseDb(cfg: Config, rs: seq<Ray>, i: nat, node: int, heading: Heading): real
    requires i < |rs|
  {
    cfg.medium.toDb(cfg.medium.toLinear(-81.0)
                    + HeardFrom(cfg.medium, rs, 0, i, rs[i].channel, node, heading))
  }

  // A link works exactly when at both of its antennas the signal between its ends, less what the
  // noise there is above the background of -81 dBm, and less 3 dB, is above the threshold, and with
  // carrier sensing the noise there is at most -77 dBm. Its rate is that of what is left at the receiver.
  lemma LinkOkExactly(cfg: Config, rs: seq<Ray>, i: nat)
    requires cfg.Valid() && i < |rs|
    ensures var r := rs[i];
            var signal := cfg.medium.signal(r.from, r.fromHeading, r.to, r.toHeading);
            var sender, receiver := NoiseDb(cfg, rs, i, r.from, r.fromHeading), NoiseDb(cfg, rs, i, r.to, r.toHeading);
            && (LinkOk(cfg, rs, i)
                <==> && signal - (sender + 81.0) - 3.0 > cfg.threshold
                     && signal - (receiver + 81.0) - 3.0 > cfg.threshold
                     && (cfg.cca ==> sender <= -77.0 && receiver <= -77.0))
            && LinkRate(cfg, rs, i)
               == RateFor(cfg.limits, cfg.rates, signal - (receiver + 81.0) - 3.0)
  {
    hide HeardFrom, Noise, RateFor;
    NoiseIsHeard(cfg.medium, rs, i, rs[i].channel, rs[i].from, rs[i].fromHeading);
    NoiseIsHeard(cfg.medium, rs, i, rs[i].channel, rs[i].to, rs[i].toHeading);
  }

  // Turning other rays around changes nothing.
  lemma {:induction false} TurnedAround(m: Medium, rs: seq<Ray>, rs': seq<Ray>, first: nat, skip: int, channel: int,
                                        node: int, heading: Heading)
    requires |rs| == |rs'|
    requires forall i :: 0 <= i < |rs| && first + i != skip ==> rs'[i] == rs[i] || rs'[i] == Reversed(rs[i])
    requires forall i :: 0 <= i < |rs| ==> rs'[i].channel == rs[i].channel
    ensures HeardFrom(m, rs', first, skip, channel, node, heading)
         == HeardFrom(m, rs, first, skip, channel, node, heading)
  {
    hide Heard;
    if rs != [] {
      forall i | 0 <= i < |rs[1..]| && first + 1 + i != skip
        ensures rs'[1..][i] == rs[1..][i] || rs'[1..][i] == Reversed(rs[1..][i])
      {
        assert rs'[1..][i] == rs'[i + 1] && rs[1..][i] == rs[i + 1];
      }
      TurnedAround(m, rs[1..], rs'[1..], first + 1, skip, channel, node, heading);
    }
  }

  function Reversed(r: Ray): Ray {
    Ray(r.to, r.toHeading, r.from, r.fromHeading, r.channel)
  }

  // The direction in which the other links are used does not matter to a link.
  lemma DirectionOfOthersIsFree(cfg: Config, rs: seq<Ray>, i: nat, j: nat)
    requires cfg.Valid() && i < |rs| && j < |rs| && i != j
    ensures LinkOk(cfg, rs[j := Reversed(rs[j])], i) == LinkOk(cfg, rs, i)
    ensures LinkRate(cfg, rs[j := Reversed(rs[j])], i) == LinkRate(cfg, rs, i)
  {
    hide HeardFrom, LinkOk, LinkRate;
    var r, rs' := rs[i], rs[j := Reversed(rs[j])];
    LinkOkExactly(cfg, rs, i);
    LinkOkExactly(cfg, rs', i);
    TurnedAround(cfg.medium, rs, rs', 0, i, r.channel, r.from, r.fromHeading);
    TurnedAround(cfg.medium, rs, rs', 0, i, r.channel, r.to, r.toHeading);
  }

  // ----- thinning a set of rays

  // The entries of `s` whose flag is set, in order.
  function Select<T>(s: seq<T>, keep: seq<bool>): seq<T>
    requires |s| == |keep|
  {
    if s == [] then []
    else
      var k := |s| - 1;
      Select(s[..k], keep[..k]) + if keep[k] then [s[k]] else []
  }

  // What one more ray adds to the noise.
  function Share(m: Medium, r: Ray, skipped: bool, channel: int, node: int, heading: Heading): (share: real)
    requires m.PowerIsPositive()
    ensures share >= 0.0
  {
    if skipped || r.channel != channel then 0.0 else m.toLinear(WorstCaseNoise(m, r, node, heading))
  }

  lemma NoiseSnoc(m: Medium, rs: seq<Ray>, r: Ray, skip: int, channel: int, node: int, heading: Heading)
    requires m.PowerIsPositive()
    ensures Noise(m, rs + [r], skip, channel, node, heading)
            == Noise(m, rs, skip, channel, node, heading) + Share(m, r, |rs| == skip, channel, node, heading)
  {
    assert (rs + [r])[..|rs|] == rs;
  }

  lemma {:induction false} NoiseThins(m: Medium, rs: seq<Ray>, keep: seq<bool>, i: nat, j: nat,
                                     channel: int, node: int, heading: Heading)
    requires m.PowerIsPositive()
    requires |rs| == |keep|
    requires if i < |rs| then keep[i] && j == |Select(rs[..i], keep[..i])| else j >= |Select(rs, keep)|
    ensures Noise(m, Select(rs, keep), j, channel, node, heading) <= Noise(m, rs, i, channel, node, heading)
  {
    if rs != [] {
      var k := |rs| - 1;
      var rest, thin, last := rs[..k], Select(rs[..k], keep[..k]), rs[k];
      ThinPosition(rs, keep, i, j);
      NoiseThins(m, rest, keep[..k], i, j, channel, node, heading);
      assert rs == rest + [last];
      NoiseSnoc(m, rest, last, i, channel, node, heading);
      NoiseSnoc(m, thin, last, j, channel, node, heading);
      assert Select(rs, keep) == if keep[k] then thin + [last] else thin;
    }
  }

  // Taking off the last entry keeps index `i` of `s` and index `j` of the selection in step.
  lemma ThinPosition<T>(s: seq<T>, keep: seq<bool>, i: nat, j: nat)
    requires |s| == |keep| > 0
    requires if i < |s| then keep[i] && j == |Select(s[..i], keep[..i])| else j >= |Select(s, keep)|
    ensures var k := |s| - 1;
            && (if i < k then keep[i] && j == |Select(s[..k][..i], keep[..k][..i])|
                else j >= |Select(s[..k], keep[..k])|)
            && (keep[k] ==> (|Select(s[..k], keep[..k])| == j <==> i == k))
  {
    var k := |s| - 1;
    if i < k {
      assert s[..k][..i] == s[..i] && keep[..k][..i] == keep[..i];
      SelectKeeps(s[..k], keep[..k], i);
    }
  }

  // Every kept entry is found in the selection, at the number of kept entries before it.
  lemma {:induction false} SelectKeeps<T>(s: seq<T>, keep: seq<bool>, i: nat)
    requires |s| == |keep| && i < |s| && keep[i]
    ensures |Select(s[..i], keep[..i])| < |Select(s, keep)|
    ensures Select(s, keep)[|Select(s[..i], keep[..i])|] == s[i]
  {
    var k := |s| - 1;
    if i < k {
      assert s[..k][..i] == s[..i] && keep[..k][..i] == keep[..i];
      SelectKeeps(s[..k], keep[..k], i);
    }
  }

  // Every entry of the selection comes from a kept entry.
  lemma {:induction false} SelectOrigin<T>(s: seq<T>, keep: seq<bool>, j: nat) returns (i: nat)
    requires |s| == |keep| && j < |Select(s, keep)|
    ensures i < |s| && keep[i] && j == |Select(s[..i], keep[..i])|
  {
    var k := |s| - 1;
    if j < |Select(s[..k], keep[..k])| {
      i := SelectOrigin(s[..k], keep[..k], j);
      assert s[..k][..i] == s[..i] && keep[..k][..i] == keep[..i];
    } else {
      i := k;
    }
  }

  lemma LinkThins(cfg: Config, rs: seq<Ray>, keep: seq<bool>, i: nat)
    requires cfg.Valid() && |rs| == |keep| && i < |rs| && keep[i]
    ensures var j := |Select(rs[..i], keep[..i])|;
            && j < |Select(rs, keep)|
            && (LinkOk(cfg, rs, i) ==> LinkOk(cfg, Select(rs, keep), j))
            && (SortedTable(cfg.limits, cfg.rates) ==> LinkRate(cfg, rs, i) <= LinkRate(cfg, Select(rs, keep), j))
  {
    var j := |Select(rs[..i], keep[..i])|;
    var m, r, sub := cfg.medium, rs[i], Select(rs, keep);
    SelectKeeps(rs, keep, i);
    NoiseThins(m, rs, keep, i, j, r.channel, r.from, r.fromHeading);
    NoiseThins(m, rs, keep, i, j, r.channel, r.to, r.toHeading);
    NoiseAboveBaseline(m, sub, j, r.channel, r.from, r.fromHeading);
    NoiseAboveBaseline(m, sub, j, r.channel, r.to, r.toHeading);
    m.ToDbMonotone(SenderNoise(m, sub, j), SenderNoise(m, rs, i));
    m.ToDbMonotone(ReceiverNoise(m, sub, j), ReceiverNoise(m, rs, i));
    if SortedTable(cfg.limits, cfg.rates) {
      RateMonotone(cfg.limits, cfg.rates, Headroom(m, rs, i, ReceiverNoise(m, rs, i)),
                   Headroom(m, sub, j, ReceiverNoise(m, sub, j)));
    }
  }

  // Interference only grows: whatever is left of a workable set still works.
  lemma SubsetOk(cfg: Config, rs: seq<Ray>, keep: seq<bool>)
    requires cfg.Valid() && |rs| == |keep|
    requires SetOk(cfg, rs)
    ensures SetOk(cfg, Select(rs, keep))
  {
    forall j | 0 <= j < |Select(rs, keep)|
      ensures LinkOk(cfg, Select(rs, keep), j)
    {
      var i := SelectOrigin(rs, keep, j);
      LinkThins(cfg, rs, keep, i);
    }
  }

  lemma {:induction false} SelectAll<T>(s: seq<T>, keep: seq<bool>)
    requires |s| == |keep| && forall i :: 0 <= i < |s| ==> keep[i]
    ensures Select(s, keep) == s
  {
    if s != [] {
      var k := |s| - 1;
      SelectAll(s[..k], keep[..k]);
    }
  }

  // A ray that does not fit into a set does not fit after the set has grown either.
  lemma MisfitStaysMisfit(cfg: Config, rs: seq<Ray>, more: Ray, r: Ray)
    requires cfg.Valid()
    requires !SetOk(cfg, rs + [r])
    ensures !SetOk(cfg, rs + [more] + [r])
  {
    if SetOk(cfg, rs + [more] + [r]) {
      var all := rs + [more] + [r];
      var keep := seq(|all|, i => i != |rs|);
      SelectAll(rs, keep[..|rs|]);
      assert all[..|all| - 1] == rs + [more] && keep[..|all| - 1][..|rs|] == keep[..|rs|];
      assert (rs + [more])[..|rs|] == rs;
      assert Select(all, keep) == rs + [r];
      SubsetOk(cfg, all, keep);
    }
  }

  lemma PrefixOk(cfg: Config, rs: seq<Ray>, n: nat)
    requires cfg.Valid() && n <= |rs| && SetOk(cfg, rs)
    ensures SetOk(cfg, rs[..n])
    decreases |rs|
  {
    if n < |rs| {
      var k := |rs| - 1;
      var keep := seq(|rs|, i => i != k);
      SelectAll(rs[..k], keep[..k]);
      SubsetOk(cfg, rs, keep);
      assert Select(rs, keep) == rs[..k];
      assert rs[..k][..n] == rs[..n];
      PrefixOk(cfg, rs[..k], n);
    } else {
      assert rs[..n] == rs;
    }
  }

  // ----- the assumptions on the conversions can be met

  function SampleToLinear(x: real): real {
    if x >= 0.0 then 1.0 + x else 1.0 / (1.0 - x)
  }

  function SampleToDb(y: real): real {
    if y >= 1.0 then y - 1.0 else if y > 0.0 then 1.0 - 1.0 / y else 0.0
  }

  lemma SampleConversionsValid(signal: (int, Heading, int, Heading) -> real)
    ensures Medium(signal, SampleToLinear, SampleToDb).Valid()
  {
    forall x ensures SampleToLinear(x) > 0.0 && SampleToDb(SampleToLinear(x)) == x {
      if x < 0.0 {
        var d := 1.0 - x;
        assert 1.0 / d * d == 1.0;
        assert 0.0 < 1.0 / d < 1.0;
        assert 1.0 / (1.0 / d) == d;
      }
    }
    forall x, y | Below(x, y) ensures SampleToDb(x) < SampleToDb(y) {
      if y < 1.0 {
        assert 1.0 / x * x == 1.0 && 1.0 / y * y == 1.0;
        Reciprocal(x, y);
      } else if x < 1.0 {
        Reciprocal(x, 1.0);
      }
    }
  }

  lemma Reciprocal(x: real, y: real)
    requires 0.0 < x < y
    ensures 1.0 / y < 1.0 / x
  {
    var a, b := 1.0 / x, 1.0 / y;
    assert a > 0.0 && a * x == 1.0 && b * y == 1.0;
    assert a * (y - x) > 0.0;
    assert (a - b) * y > 0.0;
  }
}
