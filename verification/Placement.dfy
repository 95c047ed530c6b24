// What the flyway programs compute, as functions on values: how a list of
// node pairs is placed on channels, and which sets of flyways that produces.
// FlywayTable, CandidateCheck and Trials refer to this module as their specification.
module Placement {
  import opened Sequences
  import opened Wrappers
  import opened Interference

  // A placed flyway. Both ends point at each other.
  datatype Link = Link(from: int, to: int, channel: int)

  // The placed flyways, and the channel tried first for the next one.
  datatype Plan = Plan(links: seq<Link>, next: nat)

  function Facing(l: Link): Ray {
    Ray(l.from, Toward(l.to), l.to, Toward(l.from), l.channel)
  }

  function RaysOf(ls: seq<Link>): (rs: seq<Ray>) {
    seq(|ls|, i requires 0 <= i < |ls| => Facing(ls[i]))
  }

  // The node pairs joined, in order.
  function Pairs(ls: seq<Link>): (ps: seq<(int, int)>) {
    seq(|ls|, i requires 0 <= i < |ls| => (ls[i].from, ls[i].to))
  }

  // Number of flyway ends at node `n`: the dongles it has in use.
  function Degree(ls: seq<Link>, n: int): nat {
    if ls == [] then 0
    else
      var k := |ls| - 1;
      Degree(ls[..k], n) + Ends(ls[k], n)
  }

  function Ends(l: Link, n: int): nat {
    (if l.from == n then 1 else 0) + (if l.to == n then 1 else 0)
  }

  // The nodes that have a flyway on channel `c`.
  function Endpoints(ls: seq<Link>, c: int): set<int> {
    if ls == [] then {}
    else
      var k := |ls| - 1;
      Endpoints(ls[..k], c) + if ls[k].channel == c then {ls[k].from, ls[k].to} else {}
  }

  predicate FreeOn(ls: seq<Link>, a: int, b: int, c: int) {
    a !in Endpoints(ls, c) && b !in Endpoints(ls, c)
  }

  predicate Fits(cfg: Config, ls: seq<Link>, a: int, b: int, c: int) {
    FreeOn(ls, a, b, c) && SetOk(cfg, RaysOf(ls + [Link(a, b, c)]))
  }

  predicate DonglesLeft(cfg: Config, ls: seq<Link>, a: int, b: int) {
    Degree(ls, a) < cfg.numDongles && Degree(ls, b) < cfg.numDongles
  }

  // The channel tried after `k` others.
  function Slot(cfg: Config, plan: Plan, k: nat): (c: nat)
    requires cfg.numChannels > 0
    ensures c < cfg.numChannels
  {
    (k + plan.next) % cfg.numChannels
  }

  // The first channel that fits, in the order next, next+1, ... (mod numChannels),
  // leaving out the first `tried` of them.
  function PickChannel(cfg: Config, plan: Plan, a: int, b: int, tried: nat): (c: Option<nat>)
    requires tried <= cfg.numChannels
    ensures c.Some? ==> c.value < cfg.numChannels && Fits(cfg, plan.links, a, b, c.value)
    decreases cfg.numChannels - tried
  {
    if tried == cfg.numChannels then None
    else
      var c := Slot(cfg, plan, tried);
      if Fits(cfg, plan.links, a, b, c) then Some(c) else PickChannel(cfg, plan, a, b, tried + 1)
  }

  function Add(cfg: Config, plan: Plan, a: int, b: int, c: nat): Plan
    requires cfg.numChannels > 0
  {
    Plan(plan.links + [Link(a, b, c)], (plan.next + 1) % cfg.numChannels)
  }

  // Places one pair on the first channel that takes it, or fails.
  function PlaceOne(cfg: Config, plan: Plan, a: int, b: int): (result: Option<Plan>)
    requires cfg.numChannels > 0
  {
    if a == b || !DonglesLeft(cfg, plan.links, a, b) then None
    else
      match PickChannel(cfg, plan, a, b, 0)
      case None => None
      case Some(c) => Some(Add(cfg, plan, a, b, c))
  }

  // Places every pair of `todo` in order, or fails.
  function PlaceAll(cfg: Config, plan: Plan, todo: seq<(int, int)>): (result: Option<Plan>)
    requires cfg.numChannels > 0
    decreases |todo|
  {
    if todo == [] then Some(plan)
    else
      match PlaceOne(cfg, plan, todo[0].0, todo[0].1)
      case None => None
      case Some(p) => PlaceAll(cfg, p, todo[1..])
  }

  // ----- what every placement keeps

  predicate Apart(l: Link, l': Link) {
    l.channel == l'.channel ==> {l.from, l.to} !! {l'.from, l'.to}
  }

  ghost predicate Matching(ls: seq<Link>) {
    forall i, j :: 0 <= i < j < |ls| ==> Apart(ls[i], ls[j])
  }

  predicate ProperLink(cfg: Config, l: Link) {
    l.from != l.to && 0 <= l.channel < cfg.numChannels
  }

  ghost predicate Good(cfg: Config, ls: seq<Link>) {
    && (forall i :: 0 <= i < |ls| ==> ProperLink(cfg, ls[i]))
    && Matching(ls)
    && (forall n :: Degree(ls, n) <= cfg.numDongles)
    && SetOk(cfg, RaysOf(ls))
  }

  lemma {:induction false} EndpointsAreEnds(ls: seq<Link>, c: int, n: int)
    ensures n in Endpoints(ls, c) <==> exists i :: 0 <= i < |ls| && ls[i].channel == c && Ends(ls[i], n) > 0
  {
    if ls != [] {
      var k := |ls| - 1;
      EndpointsAreEnds(ls[..k], c, n);
      if n in Endpoints(ls[..k], c) {
        var i :| 0 <= i < k && ls[..k][i].channel == c && Ends(ls[..k][i], n) > 0;
        assert ls[i].channel == c && Ends(ls[i], n) > 0;
      } else {
        forall i | 0 <= i < k && ls[i].channel == c ensures Ends(ls[i], n) == 0 {
          assert ls[..k][i] == ls[i];
        }
        if n in Endpoints(ls, c) {
          assert ls[k].channel == c && Ends(ls[k], n) > 0;
        }
      }
    }
  }

  // Does the node have a flyway on the channel?
  predicate Busy(ls: seq<Link>, n: int, c: int) {
    exists i :: 0 <= i < |ls| && ls[i].channel == c && (ls[i].from == n || ls[i].to == n)
  }

  lemma BusyExactly(ls: seq<Link>, n: int, c: int)
    ensures n in Endpoints(ls, c) <==> Busy(ls, n, c)
  {
    EndpointsAreEnds(ls, c, n);
    if i :| 0 <= i < |ls| && ls[i].channel == c && Ends(ls[i], n) > 0 {
      assert ls[i].from == n || ls[i].to == n;
    }
    if i :| 0 <= i < |ls| && ls[i].channel == c && (ls[i].from == n || ls[i].to == n) {
      assert Ends(ls[i], n) > 0;
    }
  }

  lemma SnocDegree(ls: seq<Link>, l: Link, n: int)
    ensures Degree(ls + [l], n) == Degree(ls, n) + Ends(l, n)
  {
    assert (ls + [l])[..|ls|] == ls;
  }

  lemma SnocEndpoints(ls: seq<Link>, l: Link, c: int)
    ensures Endpoints(ls + [l], c) == Endpoints(ls, c) + if l.channel == c then {l.from, l.to} else {}
  {
    assert (ls + [l])[..|ls|] == ls;
  }

  lemma AddKeepsGood(cfg: Config, ls: seq<Link>, a: int, b: int, c: nat)
    requires Good(cfg, ls)
    requires a != b && c < cfg.numChannels && DonglesLeft(cfg, ls, a, b) && Fits(cfg, ls, a, b, c)
    ensures Good(cfg, ls + [Link(a, b, c)])
  {
    var l := Link(a, b, c);
    forall n ensures Degree(ls + [l], n) <= cfg.numDongles {
      SnocDegree(ls, l, n);
    }
    forall i | 0 <= i < |ls| ensures Apart(ls[i], l) {
      EndpointsAreEnds(ls, c, a);
      EndpointsAreEnds(ls, c, b);
      if ls[i].channel == c {
        assert Ends(ls[i], a) == 0 && Ends(ls[i], b) == 0;
      }
    }
  }

  // The plan a placement ends in again meets every constraint ...
  lemma {:induction false} PlacementIsGood(cfg: Config, plan: Plan, todo: seq<(int, int)>)
    requires cfg.numChannels > 0 && plan.next < cfg.numChannels && Good(cfg, plan.links)
    ensures var r := PlaceAll(cfg, plan, todo);
            r.Some? ==> Good(cfg, r.value.links) && r.value.next < cfg.numChannels
    decreases |todo|
  {
    hide Good;
    if todo != [] {
      var (a, b) := todo[0];
      var next := PlaceOne(cfg, plan, a, b);
      if next.Some? {
        AddKeepsGood(cfg, plan.links, a, b, PickChannel(cfg, plan, a, b, 0).value);
        PlacementIsGood(cfg, next.value, todo[1..]);
      }
    }
  }

  // ... extends the plan it started from, and joins exactly the requested pairs in order.
  lemma {:induction false} PlacementJoins(cfg: Config, plan: Plan, todo: seq<(int, int)>)
    requires cfg.numChannels > 0
    ensures var r := PlaceAll(cfg, plan, todo);
            r.Some? ==> plan.links <= r.value.links && Pairs(r.value.links) == Pairs(plan.links) + todo
    decreases |todo|
  {
    hide PickChannel;
    if todo != [] {
      var next := PlaceOne(cfg, plan, todo[0].0, todo[0].1);
      if next.Some? {
        PlacementJoins(cfg, next.value, todo[1..]);
        assert Pairs(next.value.links) == Pairs(plan.links) + [todo[0]];
        assert Pairs(next.value.links) + todo[1..] == Pairs(plan.links) + todo;
      }
    }
  }

  // Placing a list is placing its first part and then, from there, the rest.
  lemma {:induction false} PlaceAllAppend(cfg: Config, plan: Plan, first: seq<(int, int)>, rest: seq<(int, int)>)
    requires cfg.numChannels > 0
    ensures PlaceAll(cfg, plan, first + rest)
            == match PlaceAll(cfg, plan, first)
               case None => None
               case Some(p) => PlaceAll(cfg, p, rest)
    decreases |first|
  {
    if first == [] {
      assert first + rest == rest;
    } else {
      assert (first + rest)[1..] == first[1..] + rest;
      var next := PlaceOne(cfg, plan, first[0].0, first[0].1);
      if next.Some? {
        PlaceAllAppend(cfg, next.value, first[1..], rest);
      }
    }
  }

  // ----- choosing a channel

  lemma {:induction false} PickChannelFindsAny(cfg: Config, plan: Plan, a: int, b: int, tried: nat)
    requires tried <= cfg.numChannels
    ensures PickChannel(cfg, plan, a, b, tried).None?
            <==> forall k :: tried <= k < cfg.numChannels ==> !Fits(cfg, plan.links, a, b, Slot(cfg, plan, k))
    decreases cfg.numChannels - tried
  {
    if tried < cfg.numChannels {
      PickChannelFindsAny(cfg, plan, a, b, tried + 1);
    }
  }

  lemma SlotCovers(cfg: Config, plan: Plan, c: nat)
    requires plan.next < cfg.numChannels && c < cfg.numChannels
    ensures exists k :: 0 <= k < cfg.numChannels && Slot(cfg, plan, k) == c
  {
    var k := if c >= plan.next then c - plan.next else c + cfg.numChannels - plan.next;
    assert Slot(cfg, plan, k) == c;
  }

  // For one flyway the round-robin search is complete.
  lemma PickChannelComplete(cfg: Config, plan: Plan, a: int, b: int)
    requires plan.next < cfg.numChannels
    ensures PickChannel(cfg, plan, a, b, 0).None?
            <==> forall c :: 0 <= c < cfg.numChannels ==> !Fits(cfg, plan.links, a, b, c)
  {
    PickChannelFindsAny(cfg, plan, a, b, 0);
    forall c | 0 <= c < cfg.numChannels && PickChannel(cfg, plan, a, b, 0).None?
      ensures !Fits(cfg, plan.links, a, b, c)
    {
      SlotCovers(cfg, plan, c);
    }
  }

  // How many channels come before `c` when the search starts at `start`.
  function Behind(cfg: Config, start: nat, c: nat): int {
    if c >= start then c - start else c + cfg.numChannels - start
  }

  lemma SlotIsBehind(cfg: Config, plan: Plan, k: nat)
    requires plan.next < cfg.numChannels && k < cfg.numChannels
    ensures Behind(cfg, plan.next, Slot(cfg, plan, k)) == k
  {
    Wraps(k + plan.next, cfg.numChannels);
  }

  lemma Wraps(x: int, n: int)
    requires 0 <= x < 2 * n
    ensures x % n == if x < n then x else x - n
  {
    var q := x / n;
    assert x == q * n + x % n;
    if q >= 2 {
      TimesGrows(2, q, n);
      assert false;
    } else if q <= -1 {
      TimesGrows(q, -1, n);
      assert false;
    }
  }

  lemma TimesGrows(p: int, q: int, n: int)
    requires p <= q && n >= 0
    ensures p * n <= q * n
  {
  }

  lemma {:induction false} PickChannelSkips(cfg: Config, plan: Plan, a: int, b: int, tried: nat) returns (k: nat)
    requires tried <= cfg.numChannels && PickChannel(cfg, plan, a, b, tried).Some?
    ensures tried <= k < cfg.numChannels && PickChannel(cfg, plan, a, b, tried) == Some(Slot(cfg, plan, k))
    ensures forall j :: tried <= j < k ==> !Fits(cfg, plan.links, a, b, Slot(cfg, plan, j))
    decreases cfg.numChannels - tried
  {
    hide Slot, Fits;
    if Fits(cfg, plan.links, a, b, Slot(cfg, plan, tried)) {
      k := tried;
    } else {
      k := PickChannelSkips(cfg, plan, a, b, tried + 1);
    }
  }

  // The channel taken is the first that fits, from the one whose turn it is and around.
  lemma PickChannelIsFirst(cfg: Config, plan: Plan, a: int, b: int)
    requires plan.next < cfg.numChannels && PickChannel(cfg, plan, a, b, 0).Some?
    ensures var c := PickChannel(cfg, plan, a, b, 0).value;
            && c < cfg.numChannels && Fits(cfg, plan.links, a, b, c)
            && forall d :: 0 <= d < cfg.numChannels && Behind(cfg, plan.next, d) < Behind(cfg, plan.next, c) ==>
                 !Fits(cfg, plan.links, a, b, d)
  {
    hide Fits, Slot;
    var c := PickChannel(cfg, plan, a, b, 0).value;
    var k := PickChannelSkips(cfg, plan, a, b, 0);
    SlotIsBehind(cfg, plan, k);
    forall d | 0 <= d < cfg.numChannels && Behind(cfg, plan.next, d) < Behind(cfg, plan.next, c)
      ensures !Fits(cfg, plan.links, a, b, d)
    {
      SlotCovers(cfg, plan, d);
      var j :| 0 <= j < cfg.numChannels && Slot(cfg, plan, j) == d;
      SlotIsBehind(cfg, plan, j);
    }
  }

  // Each flyway placed passes the turn on by one channel.
  lemma {:induction false} TurnsPassOn(cfg: Config, plan: Plan, todo: seq<(int, int)>)
    requires 1 <= cfg.numChannels <= 3 && plan.next < cfg.numChannels && PlaceAll(cfg, plan, todo).Some?
    ensures PlaceAll(cfg, plan, todo).value.next == (plan.next + |todo|) % cfg.numChannels
    decreases |todo|
  {
    hide PickChannel;
    if todo == [] {
      assert plan.next % cfg.numChannels == plan.next;
    } else {
      var p := PlaceOne(cfg, plan, todo[0].0, todo[0].1).value;
      TurnsPassOn(cfg, p, todo[1..]);
      OneTurn(plan.next, |todo| - 1, cfg.numChannels);
    }
  }

  lemma OneTurn(next: nat, more: nat, n: nat)
    requires 1 <= n <= 3 && next < n
    ensures ((next + 1) % n + more) % n == (next + 1 + more) % n
  {
    if n == 1 {
    } else if n == 2 {
    } else {
    }
  }

  // ----- degrees

  ghost function ChannelsOf(ls: seq<Link>, n: int, numChannels: nat): set<int> {
    set c: int | 0 <= c < numChannels && BusyOn(ls, n, c)
  }

  predicate BusyOn(ls: seq<Link>, n: int, c: int) {
    n in Endpoints(ls, c)
  }

  lemma BusyOnSnoc(ls: seq<Link>, l: Link, n: int, c: int)
    ensures BusyOn(ls + [l], n, c) <==> BusyOn(ls, n, c) || (c == l.channel && Ends(l, n) > 0)
  {
    SnocEndpoints(ls, l, c);
  }

  lemma ChannelsOfSnoc(ls: seq<Link>, l: Link, n: int, numChannels: nat)
    requires l.from != l.to && 0 <= l.channel < numChannels
    requires Ends(l, n) > 0 ==> !BusyOn(ls, n, l.channel)
    ensures |ChannelsOf(ls + [l], n, numChannels)| == |ChannelsOf(ls, n, numChannels)| + Ends(l, n)
  {
    var before, after := ChannelsOf(ls, n, numChannels), ChannelsOf(ls + [l], n, numChannels);
    var gained := if Ends(l, n) > 0 then {l.channel} else {};
    forall c ensures c in after <==> c in before + gained {
      BusyOnSnoc(ls, l, n, c);
    }
    assert after == before + gained;
    assert before !! gained;
  }

  // A node has one flyway on each channel it is busy on.
  lemma {:induction false} DegreeCountsChannels(cfg: Config, ls: seq<Link>, n: int)
    requires (forall i :: 0 <= i < |ls| ==> ProperLink(cfg, ls[i])) && Matching(ls)
    ensures Degree(ls, n) == |ChannelsOf(ls, n, cfg.numChannels)|
  {
    if ls == [] {
      assert ChannelsOf(ls, n, cfg.numChannels) == {};
    } else {
      var k := |ls| - 1;
      var init, l := ls[..k], ls[k];
      assert forall i :: 0 <= i < k ==> init[i] == ls[i];
      assert init + [l] == ls;
      DegreeCountsChannels(cfg, init, n);
      EndpointsAreEnds(init, l.channel, n);
      assert ProperLink(cfg, l);
      ChannelsOfSnoc(init, l, n, cfg.numChannels);
    }
  }

  lemma {:induction false} CardinalityBelow(s: set<int>, n: nat)
    requires forall x :: x in s ==> 0 <= x < n
    ensures |s| <= n
  {
    if n == 0 {
      assert forall x :: x !in s;
      assert |s| == 0;
    } else {
      CardinalityBelow(s - {n - 1}, n - 1);
    }
  }

  function Min(a: nat, b: nat): (m: nat)
    ensures m <= a && m <= b && (m == a || m == b)
  {
    if a < b then a else b
  }

  // No node has more flyways than it has dongles, nor more than there are channels.
  lemma DegreeBound(cfg: Config, ls: seq<Link>, n: int)
    requires Good(cfg, ls)
    ensures Degree(ls, n) <= Min(cfg.numDongles, cfg.numChannels)
  {
    DegreeCountsChannels(cfg, ls, n);
    CardinalityBelow(ChannelsOf(ls, n, cfg.numChannels), cfg.numChannels);
  }

  function TotalDegree(ls: seq<Link>, nodes: seq<int>): nat {
    if nodes == [] then 0
    else Degree(ls, nodes[0]) + TotalDegree(ls, nodes[1..])
  }

  function TotalEnds(l: Link, nodes: seq<int>): nat {
    if nodes == [] then 0 else Ends(l, nodes[0]) + TotalEnds(l, nodes[1..])
  }

  lemma {:induction false} TotalDegreeSnoc(ls: seq<Link>, l: Link, nodes: seq<int>)
    ensures TotalDegree(ls + [l], nodes) == TotalDegree(ls, nodes) + TotalEnds(l, nodes)
  {
    if nodes != [] {
      SnocDegree(ls, l, nodes[0]);
      TotalDegreeSnoc(ls, l, nodes[1..]);
    }
  }

  function Occurs(nodes: seq<int>, n: int): nat {
    if nodes == [] then 0 else (if nodes[0] == n then 1 else 0) + Occurs(nodes[1..], n)
  }

  lemma {:induction false} OccursOnce(nodes: seq<int>, n: int)
    requires NoRepeats(nodes)
    ensures Occurs(nodes, n) == if n in nodes then 1 else 0
  {
    if nodes != [] {
      assert nodes == [nodes[0]] + nodes[1..];
      OccursOnce(nodes[1..], n);
    }
  }

  lemma {:induction false} TotalEndsCounts(l: Link, nodes: seq<int>)
    ensures TotalEnds(l, nodes) == Occurs(nodes, l.from) + Occurs(nodes, l.to)
  {
    if nodes != [] {
      TotalEndsCounts(l, nodes[1..]);
    }
  }

  lemma {:induction false} Handshake(ls: seq<Link>, nodes: seq<int>)
    requires NoRepeats(nodes)
    requires forall i :: 0 <= i < |ls| ==> ls[i].from in nodes && ls[i].to in nodes
    ensures TotalDegree(ls, nodes) == 2 * |ls|
  {
    if ls == [] {
      NoDegree(nodes);
    } else {
      var k := |ls| - 1;
      assert ls == ls[..k] + [ls[k]];
      Handshake(ls[..k], nodes);
      TotalDegreeSnoc(ls[..k], ls[k], nodes);
      TotalEndsCounts(ls[k], nodes);
      OccursOnce(nodes, ls[k].from);
      OccursOnce(nodes, ls[k].to);
    }
  }

  lemma {:induction false} NoDegree(nodes: seq<int>)
    ensures TotalDegree([], nodes) == 0
  {
    if nodes != [] {
      NoDegree(nodes[1..]);
    }
  }

  lemma {:induction false} TotalDegreeBound(cfg: Config, ls: seq<Link>, nodes: seq<int>)
    requires Good(cfg, ls)
    ensures TotalDegree(ls, nodes) <= |nodes| * Min(cfg.numDongles, cfg.numChannels)
  {
    if nodes != [] {
      DegreeBound(cfg, ls, nodes[0]);
      TotalDegreeBound(cfg, ls, nodes[1..]);
      var m := Min(cfg.numDongles, cfg.numChannels);
      assert |nodes| * m == (|nodes| - 1) * m + m;
    }
  }

  // However the flyways were chosen, their number is at most half of
  // nodes * min(dongles, channels).
  lemma FlywayCountBound(cfg: Config, ls: seq<Link>, nodes: seq<int>)
    requires Good(cfg, ls) && NoRepeats(nodes)
    requires forall i :: 0 <= i < |ls| ==> ls[i].from in nodes && ls[i].to in nodes
    ensures 2 * |ls| <= |nodes| * Min(cfg.numDongles, cfg.numChannels)
  {
    Handshake(ls, nodes);
    TotalDegreeBound(cfg, ls, nodes);
  }
}
