// How much a "false" verdict of the allocator means. A list that is placed has a
// channel assignment, but the round-robin search gives up on some lists that have one.
module Completeness {
  import opened Wrappers
  import opened Interference
  import opened Placement

  // Some assignment of channels to the pairs, in order, meets every constraint.
  ghost predicate Assignable(cfg: Config, pairs: seq<(int, int)>) {
    exists ls: seq<Link> :: Pairs(ls) == pairs && Good(cfg, ls)
  }

  ghost predicate SearchIsComplete(numDongles: nat, numChannels: nat) {
    forall cfg: Config, pairs: seq<(int, int)> ::
      cfg.Valid() && cfg.numDongles == numDongles && cfg.numChannels == numChannels
      ==> (PlaceAll(cfg, Plan([], 0), pairs).Some? <==> Assignable(cfg, pairs))
  }

  lemma PlacedIsAssignable(cfg: Config, pairs: seq<(int, int)>)
    requires cfg.Valid()
    ensures PlaceAll(cfg, Plan([], 0), pairs).Some? ==> Assignable(cfg, pairs)
  {
    PlacementIsGood(cfg, Plan([], 0), pairs);
    PlacementJoins(cfg, Plan([], 0), pairs);
    if PlaceAll(cfg, Plan([], 0), pairs).Some? {
      assert Pairs(PlaceAll(cfg, Plan([], 0), pairs).value.links) == pairs;
    }
  }

  // ----- one channel: the search is complete

  lemma GoodPrefix(cfg: Config, ls: seq<Link>, i: nat)
    requires cfg.Valid() && Good(cfg, ls) && i < |ls|
    ensures DonglesLeft(cfg, ls[..i], ls[i].from, ls[i].to)
    ensures Fits(cfg, ls[..i], ls[i].from, ls[i].to, ls[i].channel)
    ensures ProperLink(cfg, ls[i])
  {
    var before, l := ls[..i], ls[i];
    assert ls[..i + 1] == before + [l];
    assert RaysOf(ls)[..i + 1] == RaysOf(before + [l]);
    PrefixOk(cfg, RaysOf(ls), i + 1);
    forall n ensures Degree(before, n) + Ends(l, n) <= Degree(ls, n) {
      SnocDegree(before, l, n);
      DegreeUpTo(ls, i + 1, n);
    }
    assert ProperLink(cfg, l);
    forall j | 0 <= j < i && before[j].channel == l.channel
      ensures Ends(before[j], l.from) == 0 && Ends(before[j], l.to) == 0
    {
      assert Apart(ls[j], ls[i]);
    }
    EndpointsAreEnds(before, l.channel, l.from);
    EndpointsAreEnds(before, l.channel, l.to);
    assert l == Link(l.from, l.to, l.channel);
  }

  lemma {:induction false} DegreeUpTo(ls: seq<Link>, i: nat, n: int)
    requires i <= |ls|
    ensures Degree(ls[..i], n) <= Degree(ls, n)
  {
    if i == |ls| {
      assert ls[..i] == ls;
    } else {
      var k := |ls| - 1;
      DegreeUpTo(ls[..k], i, n);
      assert ls[..k][..i] == ls[..i];
    }
  }

  lemma {:induction false} OneChannelFollows(cfg: Config, ls: seq<Link>, i: nat)
    requires cfg.Valid() && cfg.numChannels == 1 && Good(cfg, ls) && i <= |ls|
    ensures PlaceAll(cfg, Plan(ls[..i], 0), Pairs(ls)[i..]).Some?
    decreases |ls| - i
  {
    if i < |ls| {
      GoodPrefix(cfg, ls, i);
      var plan, l := Plan(ls[..i], 0), ls[i];
      assert l.channel == Slot(cfg, plan, 0) == 0;
      assert ls[..i] + [Link(l.from, l.to, 0)] == ls[..i + 1];
      assert PlaceOne(cfg, plan, l.from, l.to) == Some(Plan(ls[..i + 1], 0));
      assert Pairs(ls)[i..][0] == (l.from, l.to) && Pairs(ls)[i..][1..] == Pairs(ls)[i + 1..];
      OneChannelFollows(cfg, ls, i + 1);
    }
  }

  lemma OneChannelComplete(cfg: Config, pairs: seq<(int, int)>)
    requires cfg.Valid() && cfg.numChannels == 1 && Assignable(cfg, pairs)
    ensures PlaceAll(cfg, Plan([], 0), pairs).Some?
  {
    var ls :| Pairs(ls) == pairs && Good(cfg, ls);
    OneChannelFollows(cfg, ls, 0);
    assert ls[..0] == [] && pairs[0..] == pairs;
  }

  lemma NoDonglesNoFlyways(cfg: Config, pairs: seq<(int, int)>)
    requires cfg.Valid() && cfg.numDongles == 0 && Assignable(cfg, pairs)
    ensures PlaceAll(cfg, Plan([], 0), pairs).Some?
  {
    var ls :| Pairs(ls) == pairs && Good(cfg, ls);
    if ls != [] {
      GoodPrefix(cfg, ls, 0);
      assert false;
    }
  }

  // ----- more channels: a list on which it is not

  // Nodes from `touchy` on are drowned out by everybody else on their channel; all
  // other bystanders are hardly heard.
  function TouchySignal(touchy: int): (int, Heading, int, Heading) -> real {
    (a: int, ha: Heading, b: int, hb: Heading) =>
      if ha == Toward(b) && hb == Toward(a) then 100.0
      else if b >= touchy then 200.0
      else -10.0
  }

  function TouchyConfig(numDongles: nat, numChannels: nat): Config {
    Config(Medium(TouchySignal(2 * numChannels), SampleToLinear, SampleToDb), 0.0, false, [], [], numChannels,
      numDongles)
  }

  // (0,1), (2,3), ..., and one pair of touchy nodes at the end.
  function Request(numChannels: nat): seq<(int, int)> {
    seq(numChannels + 1, i => (2 * i, 2 * i + 1))
  }

  // The first `k` of these pairs, each on a channel of its own.
  function Spread(k: nat): seq<Link> {
    seq(k, i => Link(2 * i, 2 * i + 1, i))
  }

  // All of them on channel 0, but for the touchy pair.
  function Packed(numChannels: nat): seq<Link> {
    seq(numChannels + 1, i => Link(2 * i, 2 * i + 1, if i < numChannels then 0 else 1))
  }

  predicate Neighbours(ls: seq<Link>) {
    forall i :: 0 <= i < |ls| ==> ls[i].from == 2 * i && ls[i].to == 2 * i + 1
  }

  // What one bystander link adds ...
  lemma LittleTerm(m: Medium, touchy: int, r: Ray, node: int, peer: int)
    requires m == Medium(TouchySignal(touchy), SampleToLinear, SampleToDb) && node < touchy
    requires node != r.from && node != r.to && peer != r.from && peer != r.to
    ensures 0.0 < m.toLinear(WorstCaseNoise(m, r, node, Toward(peer))) <= 0.2
  {
    var one := SampleToLinear(-10.0);
    assert WorstCaseNoise(m, r, node, Toward(peer)) == SampleToDb(one + one);
    assert one == 1.0 / 11.0;
  }

  // ... and what is there without any.
  lemma LittleBaseline(m: Medium, touchy: int)
    requires m == Medium(TouchySignal(touchy), SampleToLinear, SampleToDb)
    ensures 0.0 < m.toLinear(BASELINE_NOISE_DBM) <= 0.1
  {
  }

  // The noise at an end of link `i` is small when no touchy node shares its channel.
  lemma {:induction false} LittleNoise(m: Medium, touchy: int, ls: seq<Link>, i: nat, channel: int, node: int,
                                       peer: int)
    requires m == Medium(TouchySignal(touchy), SampleToLinear, SampleToDb)
    requires Neighbours(ls) && {node, peer} == {2 * i, 2 * i + 1}
    requires forall j :: 0 <= j < |ls| && j != i && ls[j].channel == channel ==> node < touchy
    ensures 0.0 < Noise(m, RaysOf(ls), i, channel, node, Toward(peer)) <= 0.1 + 0.2 * |ls| as real
  {
    hide WorstCaseNoise, TouchySignal;
    LittleBaseline(m, touchy);
    if ls != [] {
      var k := |ls| - 1;
      LittleNoise(m, touchy, ls[..k], i, channel, node, peer);
      assert RaysOf(ls)[..k] == RaysOf(ls[..k]);
      if k != i && ls[k].channel == channel {
        LittleTerm(m, touchy, RaysOf(ls)[k], node, peer);
      }
    }
  }

  lemma QuietLinkWorks(numDongles: nat, numChannels: nat, ls: seq<Link>, i: nat)
    requires Neighbours(ls) && i < |ls| <= 4
    requires forall j :: 0 <= j < |ls| && j != i && ls[j].channel == ls[i].channel ==> i < numChannels
    ensures LinkOk(TouchyConfig(numDongles, numChannels), RaysOf(ls), i)
  {
    var m := TouchyConfig(numDongles, numChannels).medium;
    LittleNoise(m, 2 * numChannels, ls, i, ls[i].channel, 2 * i, 2 * i + 1);
    LittleNoise(m, 2 * numChannels, ls, i, ls[i].channel, 2 * i + 1, 2 * i);
  }

  lemma TouchyValid(numDongles: nat, numChannels: nat)
    requires 1 <= numChannels <= 3
    ensures TouchyConfig(numDongles, numChannels).Valid()
  {
    SampleConversionsValid(TouchySignal(2 * numChannels));
  }

  lemma {:induction false} NeighbourDegree(ls: seq<Link>, n: int)
    requires Neighbours(ls)
    ensures Degree(ls, n) == if 0 <= n < 2 * |ls| then 1 else 0
  {
    if ls != [] {
      NeighbourDegree(ls[..|ls| - 1], n);
    }
  }

  lemma PackedIsGood(numDongles: nat, numChannels: nat)
    requires numDongles >= 1 && 2 <= numChannels <= 3
    ensures Good(TouchyConfig(numDongles, numChannels), Packed(numChannels))
  {
    var cfg, ls := TouchyConfig(numDongles, numChannels), Packed(numChannels);
    forall n ensures Degree(ls, n) <= numDongles {
      NeighbourDegree(ls, n);
    }
    forall i | 0 <= i < |ls| ensures LinkOk(cfg, RaysOf(ls), i) {
      QuietLinkWorks(numDongles, numChannels, ls, i);
    }
  }

  lemma SpreadFits(numDongles: nat, numChannels: nat, k: nat)
    requires numDongles >= 1 && k < numChannels <= 3
    ensures var cfg := TouchyConfig(numDongles, numChannels);
            && DonglesLeft(cfg, Spread(k), 2 * k, 2 * k + 1)
            && Fits(cfg, Spread(k), 2 * k, 2 * k + 1, k)
            && Spread(k) + [Link(2 * k, 2 * k + 1, k)] == Spread(k + 1)
  {
    var cfg, ls := TouchyConfig(numDongles, numChannels), Spread(k + 1);
    assert Spread(k) + [Link(2 * k, 2 * k + 1, k)] == ls;
    NeighbourDegree(Spread(k), 2 * k);
    NeighbourDegree(Spread(k), 2 * k + 1);
    EndpointsAreEnds(Spread(k), k, 2 * k);
    EndpointsAreEnds(Spread(k), k, 2 * k + 1);
    forall i | 0 <= i < |ls| ensures LinkOk(cfg, RaysOf(ls), i) {
      QuietLinkWorks(numDongles, numChannels, ls, i);
    }
  }

  // On every channel the touchy pair would hear somebody.
  lemma TouchyPairRejected(numDongles: nat, numChannels: nat, c: nat)
    requires c < numChannels <= 3
    ensures !Fits(TouchyConfig(numDongles, numChannels), Spread(numChannels), 2 * numChannels, 2 * numChannels + 1, c)
  {
    var cfg, n := TouchyConfig(numDongles, numChannels), numChannels;
    var ls := Spread(n) + [Link(2 * n, 2 * n + 1, c)];
    var rs := RaysOf(ls);
    TouchyValid(numDongles, numChannels);
    LoudShare(cfg.medium, n, rs, c, n);
    NoiseAboveBaseline(cfg.medium, rs, n, c, 2 * n, Toward(2 * n + 1));
    assert !LinkOk(cfg, rs, n);
  }

  lemma {:induction false} LoudShare(m: Medium, n: nat, rs: seq<Ray>, c: nat, last: nat)
    requires m == Medium(TouchySignal(2 * n), SampleToLinear, SampleToDb) && m.Valid()
    requires c < n == last && c < |rs|
    requires rs[c] == Facing(Link(2 * c, 2 * c + 1, c))
    ensures Noise(m, rs, last, c, 2 * n, Toward(2 * n + 1)) >= 400.0
  {
    var k := |rs| - 1;
    if k == c {
      NoiseAboveBaseline(m, rs[..k], last, c, 2 * n, Toward(2 * n + 1));
      assert WorstCaseNoise(m, rs[c], 2 * n, Toward(2 * n + 1))
          == SampleToDb(SampleToLinear(200.0) + SampleToLinear(200.0));
    } else {
      LoudShare(m, n, rs[..k], c, last);
    }
  }

  lemma {:induction false} SpreadThenStuck(numDongles: nat, numChannels: nat, k: nat)
    requires numDongles >= 1 && 2 <= numChannels <= 3 && k <= numChannels
    ensures PlaceAll(TouchyConfig(numDongles, numChannels), Plan(Spread(k), k % numChannels),
                     Request(numChannels)[k..]).None?
    decreases numChannels - k
  {
    var cfg, todo := TouchyConfig(numDongles, numChannels), Request(numChannels)[k..];
    var plan := Plan(Spread(k), k % numChannels);
    assert todo[0] == (2 * k, 2 * k + 1);
    if k < numChannels {
      SpreadFits(numDongles, numChannels, k);
      assert Slot(cfg, plan, 0) == k;
      assert PlaceOne(cfg, plan, 2 * k, 2 * k + 1) == Some(Plan(Spread(k + 1), (k + 1) % numChannels));
      assert todo[1..] == Request(numChannels)[k + 1..];
      SpreadThenStuck(numDongles, numChannels, k + 1);
    } else {
      var (a, b) := todo[0];
      forall c | 0 <= c < numChannels ensures !Fits(cfg, plan.links, a, b, c) {
        TouchyPairRejected(numDongles, numChannels, c);
      }
      PickChannelComplete(cfg, plan, a, b);
    }
  }

  lemma SearchGivesUp(numDongles: nat, numChannels: nat)
    requires numDongles >= 1 && 2 <= numChannels <= 3
    ensures var cfg := TouchyConfig(numDongles, numChannels);
            && cfg.Valid()
            && PlaceAll(cfg, Plan([], 0), Request(numChannels)).None?
            && Assignable(cfg, Request(numChannels))
  {
    TouchyValid(numDongles, numChannels);
    SpreadThenStuck(numDongles, numChannels, 0);
    assert Spread(0) == [] && Request(numChannels)[0..] == Request(numChannels);
    PackedIsGood(numDongles, numChannels);
    assert Pairs(Packed(numChannels)) == Request(numChannels);
  }

  // Placement succeeds on exactly the lists that can be assigned channels, for every
  // medium, only when there is a single channel (or no dongle at all).
  lemma SearchCompleteExactly(numDongles: nat, numChannels: nat)
    requires 1 <= numChannels <= 3
    ensures SearchIsComplete(numDongles, numChannels) <==> numChannels == 1 || numDongles == 0
  {
    if numChannels == 1 || numDongles == 0 {
      forall cfg: Config, pairs: seq<(int, int)> |
        cfg.Valid() && cfg.numDongles == numDongles && cfg.numChannels == numChannels
        ensures PlaceAll(cfg, Plan([], 0), pairs).Some? <==> Assignable(cfg, pairs)
      {
        PlacedIsAssignable(cfg, pairs);
        if Assignable(cfg, pairs) {
          if numChannels == 1 {
            OneChannelComplete(cfg, pairs);
          } else {
            NoDonglesNoFlyways(cfg, pairs);
          }
        }
      }
    } else {
      SearchGivesUp(numDongles, numChannels);
    }
  }
}
