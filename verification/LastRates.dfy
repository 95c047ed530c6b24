// The global list of rates of isFeasibleNew.cc. Every feasibility check overwrites it, also one
// that fails half way, so a verdict that needs no check is printed with what is left there.
module LastRates {
  import opened Interference
  import opened Placement
  import opened FlywayTables

  // The rates of the links from index `i` on, up to the first that does not work.
  function WorkingRates(cfg: Config, rs: seq<Ray>, i: nat): seq<real>
    requires i <= |rs| && |cfg.limits| == |cfg.rates|
    decreases |rs| - i
  {
    if i < |rs| && LinkOk(cfg, rs, i) then [LinkRate(cfg, rs, i)] + WorkingRates(cfg, rs, i + 1) else []
  }

  // One channel for a flyway: the check is made if both nodes are free there and the signal is
  // strong enough.
  function AfterTry(cfg: Config, ls: seq<Link>, a: int, b: int, c: int, rates: seq<real>): seq<real>
    requires |cfg.limits| == |cfg.rates|
  {
    var l := Link(a, b, c);
    if !FreeOn(ls, a, b, c) || Strength(cfg.medium, Facing(l)) < cfg.threshold + MARGIN_DB then rates
    else WorkingRates(cfg, RaysOf(ls + [l]), 0)
  }

  // The channels in turn, up to the first that takes the flyway.
  function AfterPick(cfg: Config, plan: Plan, a: int, b: int, tried: nat, rates: seq<real>): seq<real>
    requires tried <= cfg.numChannels && |cfg.limits| == |cfg.rates|
    decreases cfg.numChannels - tried
  {
    if tried == cfg.numChannels then rates
    else
      var c := Slot(cfg, plan, tried);
      var left := AfterTry(cfg, plan.links, a, b, c, rates);
      if Fits(cfg, plan.links, a, b, c) then left else AfterPick(cfg, plan, a, b, tried + 1, left)
  }

  function AfterOne(cfg: Config, plan: Plan, a: int, b: int, rates: seq<real>): seq<real>
    requires |cfg.limits| == |cfg.rates|
  {
    if a == b || !DonglesLeft(cfg, plan.links, a, b) then rates else AfterPick(cfg, plan, a, b, 0, rates)
  }

  // A whole list, up to the first pair that is not placed.
  function AfterAll(cfg: Config, plan: Plan, todo: seq<(int, int)>, rates: seq<real>): seq<real>
    requires cfg.numChannels > 0 && |cfg.limits| == |cfg.rates|
    decreases |todo|
  {
    if todo == [] then rates
    else
      var left := AfterOne(cfg, plan, todo[0].0, todo[0].1, rates);
      match PlaceOne(cfg, plan, todo[0].0, todo[0].1)
      case None => left
      case Some(p) => AfterAll(cfg, p, todo[1..], left)
  }

  // Candidates one after the other, each from the plan `base`, whose own rates come first.
  function AfterCandidates(cfg: Config, base: Plan, candidates: seq<seq<(int, int)>>): seq<real>
    requires cfg.numChannels > 0 && |cfg.limits| == |cfg.rates|
  {
    if candidates == [] then Rates(cfg, RaysOf(base.links))
    else
      var k := |candidates| - 1;
      AfterAll(cfg, base, candidates[k], AfterCandidates(cfg, base, candidates[..k]))
  }

  lemma {:induction false} CheckedRates(cfg: Config, rs: seq<Ray>, rates: seq<real>, i: nat)
    requires |cfg.limits| == |cfg.rates| && Checked(cfg, rs, rates) && i <= |rates|
    ensures WorkingRates(cfg, rs, i) == rates[i..]
    decreases |rates| - i
  {
    hide LinkOk, LinkRate;
    if i < |rates| {
      CheckedRates(cfg, rs, rates, i + 1);
      assert rates[i..] == [rates[i]] + rates[i + 1..];
    }
  }

  lemma {:induction false} AllWorking(cfg: Config, rs: seq<Ray>, i: nat)
    requires |cfg.limits| == |cfg.rates| && SetOk(cfg, rs) && i <= |rs|
    ensures WorkingRates(cfg, rs, i) == Rates(cfg, rs)[i..]
    decreases |rs| - i
  {
    hide LinkOk, LinkRate;
    if i < |rs| {
      AllWorking(cfg, rs, i + 1);
      assert Rates(cfg, rs)[i..] == [Rates(cfg, rs)[i]] + Rates(cfg, rs)[i + 1..];
    }
  }

  lemma {:induction false} PickedRates(cfg: Config, plan: Plan, a: int, b: int, tried: nat, rates: seq<real>)
    requires cfg.Valid() && tried <= cfg.numChannels && PickChannel(cfg, plan, a, b, tried).Some?
    ensures AfterPick(cfg, plan, a, b, tried, rates)
         == Rates(cfg, RaysOf(plan.links + [Link(a, b, PickChannel(cfg, plan, a, b, tried).value)]))
    decreases cfg.numChannels - tried
  {
    hide LinkOk, Rates, WorkingRates, RaysOf, SetOk, Slot;
    var c := Slot(cfg, plan, tried);
    if Fits(cfg, plan.links, a, b, c) {
      FittingRates(cfg, plan.links, a, b, c, rates);
    } else {
      PickedRates(cfg, plan, a, b, tried + 1, AfterTry(cfg, plan.links, a, b, c, rates));
    }
  }

  lemma FittingRates(cfg: Config, ls: seq<Link>, a: int, b: int, c: int, rates: seq<real>)
    requires cfg.Valid() && Fits(cfg, ls, a, b, c)
    ensures AfterTry(cfg, ls, a, b, c, rates) == Rates(cfg, RaysOf(ls + [Link(a, b, c)]))
  {
    hide LinkOk, WorkingRates;
    var rs := RaysOf(ls + [Link(a, b, c)]);
    assert rs[|ls|] == Facing(Link(a, b, c));
    if Strength(cfg.medium, rs[|ls|]) < cfg.threshold + MARGIN_DB {
      WeakRayNeverWorks(cfg, rs, |ls|);
    }
    AllWorking(cfg, rs, 0);
    assert Rates(cfg, rs)[0..] == Rates(cfg, rs);
  }

  // A list of at least one pair that is placed leaves the rates of the plan it ends in, whatever
  // was there before.
  lemma {:induction false} PlacedRates(cfg: Config, plan: Plan, todo: seq<(int, int)>, rates: seq<real>)
    requires cfg.Valid() && todo != [] && PlaceAll(cfg, plan, todo).Some?
    ensures AfterAll(cfg, plan, todo, rates) == Rates(cfg, RaysOf(PlaceAll(cfg, plan, todo).value.links))
    decreases |todo|
  {
    hide PickChannel, AfterPick, Rates, RaysOf, DonglesLeft;
    var (a, b) := todo[0];
    var p := PlaceOne(cfg, plan, a, b).value;
    PickedRates(cfg, plan, a, b, 0, rates);
    if |todo| > 1 {
      PlacedRates(cfg, p, todo[1..], AfterOne(cfg, plan, a, b, rates));
    }
  }

  // A check leaves the rates of the links in front of the first that does not work, and no other.
  lemma {:induction false} WorkingRatesExactly(cfg: Config, rs: seq<Ray>, i: nat)
    requires |cfg.limits| == |cfg.rates| && i <= |rs|
    ensures var rates := WorkingRates(cfg, rs, i);
            && i + |rates| <= |rs|
            && (forall k :: i <= k < i + |rates| ==> LinkOk(cfg, rs, k) && rates[k - i] == LinkRate(cfg, rs, k))
            && (i + |rates| < |rs| ==> !LinkOk(cfg, rs, i + |rates|))
    decreases |rs| - i
  {
    hide LinkOk, LinkRate;
    if i < |rs| && LinkOk(cfg, rs, i) {
      WorkingRatesExactly(cfg, rs, i + 1);
    }
  }

  predicate Tested(cfg: Config, ls: seq<Link>, a: int, b: int, c: int) {
    FreeOn(ls, a, b, c) && cfg.medium.signal(a, Toward(b), b, Toward(a)) >= cfg.threshold + 3.0
  }

  // Channels that are not tested leave the rates alone; each one that is overwrites them.
  lemma {:induction false} PickRates(cfg: Config, plan: Plan, a: int, b: int, tried: nat, rates: seq<real>)
    returns (k: nat)
    requires cfg.Valid() && plan.next < cfg.numChannels && tried <= cfg.numChannels
    requires PickChannel(cfg, plan, a, b, tried).None?
    ensures tried <= k <= cfg.numChannels
    ensures forall j :: k <= j < cfg.numChannels ==> !Tested(cfg, plan.links, a, b, Slot(cfg, plan, j))
    ensures if k == tried then AfterPick(cfg, plan, a, b, tried, rates) == rates
            else && Tested(cfg, plan.links, a, b, Slot(cfg, plan, k - 1))
                 && AfterPick(cfg, plan, a, b, tried, rates)
                    == WorkingRates(cfg, RaysOf(plan.links + [Link(a, b, Slot(cfg, plan, k - 1))]), 0)
    decreases cfg.numChannels - tried
  {
    hide Slot, WorkingRates, RaysOf, SetOk, FreeOn;
    if tried == cfg.numChannels {
      k := tried;
    } else {
      var c := Slot(cfg, plan, tried);
      var left := AfterTry(cfg, plan.links, a, b, c, rates);
      k := PickRates(cfg, plan, a, b, tried + 1, left);
      if k == tried + 1 && !Tested(cfg, plan.links, a, b, c) {
        k := tried;
      }
    }
  }

  // A flyway that finds no channel leaves the rates of its last test, on the last channel in turn
  // that was free for it, and the old ones if no channel was or its signal is too weak.
  lemma MissedRates(cfg: Config, plan: Plan, a: int, b: int, rates: seq<real>)
    requires cfg.Valid() && plan.next < cfg.numChannels && PlaceOne(cfg, plan, a, b).None?
    ensures var left := AfterOne(cfg, plan, a, b, rates);
            if a == b || !DonglesLeft(cfg, plan.links, a, b)
               || forall c :: 0 <= c < cfg.numChannels ==> !Tested(cfg, plan.links, a, b, c) then left == rates
            else exists c ::
                   && 0 <= c < cfg.numChannels && Tested(cfg, plan.links, a, b, c)
                   && left == WorkingRates(cfg, RaysOf(plan.links + [Link(a, b, c)]), 0)
                   && forall d :: 0 <= d < cfg.numChannels && Behind(cfg, plan.next, d) > Behind(cfg, plan.next, c) ==>
                        !Tested(cfg, plan.links, a, b, d)
  {
    hide Slot, WorkingRates, RaysOf, SetOk, FreeOn, AfterPick, Tested, DonglesLeft, PickChannel;
    if a != b && DonglesLeft(cfg, plan.links, a, b) {
      var k := PickRates(cfg, plan, a, b, 0, rates);
      forall d | 0 <= d < cfg.numChannels && (k == 0 || Behind(cfg, plan.next, d) >= k)
        ensures !Tested(cfg, plan.links, a, b, d)
      {
        SlotCovers(cfg, plan, d);
        var j :| 0 <= j < cfg.numChannels && Slot(cfg, plan, j) == d;
        SlotIsBehind(cfg, plan, j);
      }
      if k > 0 {
        SlotIsBehind(cfg, plan, k - 1);
      }
    }
  }
}
