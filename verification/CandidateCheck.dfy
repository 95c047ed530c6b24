// isFeasibleNew.cc: place a list of given flyways, then test candidate lists one
// after the other against them, undoing every test.
module CandidateCheck {
  import opened Wrappers
  import opened Interference
  import opened Placement
  import opened FlywayTables
  import opened LastRates

  datatype Verdict = Rejected | Accepted(rates: seq<real>)

  // Requested flyways before a channel has been found.
  function Requested(pairs: seq<(int, int)>): seq<Link> {
    seq(|pairs|, i requires 0 <= i < |pairs| => Link(pairs[i].0, pairs[i].1, -1))
  }

  predicate KnownPairs(pairs: seq<(int, int)>) {
    forall i :: 0 <= i < |pairs| ==> 0 <= pairs[i].0 < MAX_NODES && 0 <= pairs[i].1 < MAX_NODES
  }

  ghost predicate WithinDongles(cfg: Config, ls: seq<Link>) {
    forall n :: Degree(ls, n) <= cfg.numDongles
  }

  // The dongles of `list` were handed out in order, on top of the flyways in `base`.
  ghost predicate Reserved(cfg: Config, base: seq<Link>, list: seq<Flyway>) {
    && WithinDongles(cfg, base + Links(list))
    && forall i :: 0 <= i < |list| && list[i].from != list[i].to ==> NextDongles(base + Links(list[..i]), list[i])
  }

  // Antennas of dongles that `ls` counts as used point where they did.
  ghost predicate UsedAimsKept(ls: seq<Link>, aim: Aim, aim': Aim) {
    forall n, d :: 0 <= d < Degree(ls, n) ==> Look(aim', n, d) == Look(aim, n, d)
  }

  // The entries of nodesWithFlyways that are not in use.
  function OtherChannels(cfg: Config, nodes: seq<set<int>>): seq<set<int>> {
    if cfg.numChannels <= |nodes| then nodes[cfg.numChannels..] else []
  }

  lemma NothingPointed(aim: Aim, fs: seq<Flyway>)
    ensures UsedAimsKept(Links(fs), aim, aim)
  {
  }

  // The new flyway's antennas point at each other, and none in use was moved.
  lemma NextPointed(aim: Aim, aim': Aim, fs: seq<Flyway>, f: Flyway, g: Flyway)
    requires Aimed(aim, fs) && Numbered(fs) && NextDongles(Links(fs), f) && f.from != f.to
    requires g == f.(channel := g.channel)
    requires aim' == aim[(g.from, g.dongleFrom) := Toward(g.to)][(g.to, g.dongleTo) := Toward(g.from)]
    ensures UsedAimsKept(Links(fs), aim, aim') && Aimed(aim', fs) && Aimed(aim', fs + [g])
    ensures Links(fs + [g]) == Links(fs) + [LinkOf(g)]
    ensures ResolveAll(aim', fs + [g]) == RaysOf(Links(fs) + [LinkOf(g)])
    ensures |Links(fs)| == |fs| && |RaysOf(Links(fs) + [LinkOf(g)])| == |fs| + 1
    ensures RaysOf(Links(fs) + [LinkOf(g)])[|fs|] == Resolve(aim', g) == Facing(LinkOf(g))
  {
    AimKept(aim, aim', fs);
    LinksSnoc(fs, g);
    AimedRays(aim', fs + [g]);
  }

  // One round of the channel loop: try `f` on channel `d`.
  method TryChannel(t: FlywayTable, f: Flyway, d: nat) returns (placed: bool, g: Flyway)
    requires t.Shaped() && Aimed(t.aim, t.flyways) && Numbered(t.flyways)
    requires d < t.cfg.numChannels && t.nodesWithFlyways[d] == Endpoints(Links(t.flyways), d)
    requires f.from != f.to && f.channel == -1 && NextDongles(Links(t.flyways), f)
    modifies t`flyways, t`flywayRates, t`nodesWithFlyways, t`aim
    ensures UsedAimsKept(Links(old(t.flyways)), old(t.aim), t.aim)
    ensures placed == Fits(t.cfg, Links(old(t.flyways)), f.from, f.to, d)
    ensures t.flywayRates == AfterTry(t.cfg, Links(old(t.flyways)), f.from, f.to, d, old(t.flywayRates))
    ensures placed ==>
              && g == f.(channel := d)
              && t.flyways == old(t.flyways) + [g]
              && t.nodesWithFlyways == old(t.nodesWithFlyways[d := t.nodesWithFlyways[d] + {g.to} + {g.from}])
              && Aimed(t.aim, t.flyways)
              && t.flywayRates == Rates(t.cfg, RaysOf(Links(t.flyways)))
    ensures !placed ==>
              g == f && t.flyways == old(t.flyways) && t.nodesWithFlyways == old(t.nodesWithFlyways)
              && Aimed(t.aim, t.flyways)
  {
    hide UsedAimsKept, Aimed, Numbered, NextDongles, RaysOf, ResolveAll, SetOk, Endpoints, Links, Checked, WorkingRates;
    NothingPointed(t.aim, t.flyways);
    if f.from in t.nodesWithFlyways[d] {
      return false, f;
    }
    if f.to in t.nodesWithFlyways[d] {
      return false, f;
    }
    g := f.(channel := d);
    t.PointAtEachOther(g.from, g.dongleFrom, g.to, g.dongleTo);
    ghost var rays := RaysOf(Links(t.flyways) + [LinkOf(g)]);
    NextPointed(old(t.aim), t.aim, t.flyways, f, g);
    var rssi := t.CalcSignalStrength(g.from, g.dongleFrom, g.to, g.dongleTo);
    if rssi < t.cfg.threshold + MARGIN_DB {
      WeakRayNeverWorks(t.cfg, rays, |t.flyways|);
      return false, f;
    }
    t.flyways := t.flyways + [g];
    var feasible := t.IsFlywaySetFeasible();
    CheckedRates(t.cfg, rays, t.flywayRates, 0);
    assert t.flywayRates[0..] == t.flywayRates;
    if !feasible {
      t.flyways := t.flyways[..|t.flyways| - 1];
      assert t.flyways == old(t.flyways);
      return false, f;
    }
    t.nodesWithFlyways := t.nodesWithFlyways[d := t.nodesWithFlyways[d] + {g.to}];
    t.nodesWithFlyways := t.nodesWithFlyways[d := t.nodesWithFlyways[d] + {g.from}];
    return true, g;
  }

  // The channel loop of CheckAddFlyways for one flyway whose dongles are set.
  method TryChannels(t: FlywayTable, f: Flyway, ghost rest: seq<Link>) returns (placed: bool, g: Flyway)
    requires t.Agrees([LinkOf(f)] + rest)
    requires f.from != f.to && KnownNodes(f) && f.channel == -1
    requires NextDongles(Links(t.flyways), f) && DonglesLeft(t.cfg, Links(t.flyways), f.from, f.to)
    modifies t`flyways, t`flywayRates, t`nodesWithFlyways, t`aim
    ensures UsedAimsKept(Links(old(t.flyways)), old(t.aim), t.aim)
    ensures OtherChannels(t.cfg, t.nodesWithFlyways) == OtherChannels(t.cfg, old(t.nodesWithFlyways))
    ensures placed == PickChannel(t.cfg, old(t.CurrentPlan()), f.from, f.to, 0).Some?
    ensures t.flywayRates == AfterPick(t.cfg, old(t.CurrentPlan()), f.from, f.to, 0, old(t.flywayRates))
    ensures placed ==>
              && g == f.(channel := PickChannel(t.cfg, old(t.CurrentPlan()), f.from, f.to, 0).value)
              && t.flyways == old(t.flyways) + [g]
              && t.Agrees(rest)
              && t.flywayRates == Rates(t.cfg, RaysOf(Links(t.flyways)))
    ensures !placed ==>
              g == f && t.flyways == old(t.flyways) && t.nodesWithFlyways == old(t.nodesWithFlyways)
              && t.Agrees([LinkOf(f)] + rest)
  {
    hide UsedAimsKept, Aimed, Numbered, RaysOf, Degree, Good, SetOk, Endpoints, Links, Fits, DonglesLeft, AfterTry;
    ghost var plan := t.CurrentPlan();
    NothingPointed(t.aim, t.flyways);
    var c := 0;
    while c < t.cfg.numChannels
      invariant c <= t.cfg.numChannels
      invariant t.flyways == old(t.flyways) && t.nodesWithFlyways == old(t.nodesWithFlyways)
      invariant Aimed(t.aim, t.flyways)
      invariant UsedAimsKept(plan.links, old(t.aim), t.aim)
      invariant PickChannel(t.cfg, plan, f.from, f.to, 0) == PickChannel(t.cfg, plan, f.from, f.to, c)
      invariant AfterPick(t.cfg, plan, f.from, f.to, 0, old(t.flywayRates))
             == AfterPick(t.cfg, plan, f.from, f.to, c, t.flywayRates)
    {
      var d := (c + t.curChan) % t.cfg.numChannels;
      assert d == Slot(t.cfg, plan, c);
      ghost var aim := t.aim;
      placed, g := TryChannel(t, f, d);
      UsedAimsKeptStep(old(t.flyways), old(t.flyways), old(t.aim), aim, t.aim);
      if placed {
        TablesUpdated(t, old(t.flyways), f, g, rest);
        return;
      }
      c := c + 1;
    }
    return false, f;
  }

  // Find out whether both nodes have a dongle left and, for a candidate, number them.
  method PrepareDongles(t: FlywayTable, f0: Flyway, popAfter: bool, ghost rest: seq<Link>) returns (ok: bool, f: Flyway)
    requires if popAfter then t.Agrees([]) && rest == [] else t.Agrees([LinkOf(f0)] + rest)
    requires KnownNodes(f0) && f0.from != f0.to
    requires popAfter ==> f0.dongleFrom == -1 && f0.dongleTo == -1
    requires !popAfter ==>
               NextDongles(Links(t.flyways), f0) && DonglesLeft(t.cfg, Links(t.flyways), f0.from, f0.to)
    modifies t.dongleCounts
    ensures ok == DonglesLeft(t.cfg, Links(t.flyways), f0.from, f0.to)
    ensures (f.from, f.to, f.channel) == (f0.from, f0.to, -1)
    ensures ok ==> t.Agrees([LinkOf(f)] + rest) && NextDongles(Links(t.flyways), f)
    ensures !ok ==> popAfter && t.Agrees([])
  {
    f := f0.(channel := -1);
    if popAfter {
      assert Links(t.flyways) + [] == Links(t.flyways);
      if t.dongleCounts[f.to] >= t.cfg.numDongles || t.dongleCounts[f.from] >= t.cfg.numDongles {
        return false, f;
      }
      var dongleFrom, dongleTo := ReserveDongles(t, f.from, f.to);
      f := f.(dongleFrom := dongleFrom, dongleTo := dongleTo);
      assert [LinkOf(f)] + rest == [Link(f0.from, f0.to, -1)];
    } else {
      AgreesByPairs(t, [LinkOf(f0)] + rest, [LinkOf(f)] + rest);
    }
    return true, f;
  }

  // One round of the loop of CheckAddFlyways. `rest` are the flyways behind `f0`
  // that have their dongles reserved already.
  method PlaceNext(t: FlywayTable, f0: Flyway, popAfter: bool, ghost rest: seq<Link>) returns (placed: bool)
    requires if popAfter then t.Agrees([]) && rest == [] else t.Agrees([LinkOf(f0)] + rest)
    requires KnownNodes(f0)
    requires popAfter ==> f0.dongleFrom == -1 && f0.dongleTo == -1
    requires !popAfter && f0.from != f0.to ==>
               NextDongles(Links(t.flyways), f0) && DonglesLeft(t.cfg, Links(t.flyways), f0.from, f0.to)
    modifies t, t.dongleCounts
    ensures UsedAimsKept(Links(old(t.flyways)), old(t.aim), t.aim)
    ensures OtherChannels(t.cfg, t.nodesWithFlyways) == OtherChannels(t.cfg, old(t.nodesWithFlyways))
    ensures placed == PlaceOne(t.cfg, old(t.CurrentPlan()), f0.from, f0.to).Some?
    ensures t.flywayRates == AfterOne(t.cfg, old(t.CurrentPlan()), f0.from, f0.to, old(t.flywayRates))
    ensures placed ==>
              && Some(t.CurrentPlan()) == PlaceOne(t.cfg, old(t.CurrentPlan()), f0.from, f0.to)
              && old(t.flyways) < t.flyways && |t.flyways| == |old(t.flyways)| + 1
              && t.Agrees(rest)
              && t.flywayRates == Rates(t.cfg, RaysOf(Links(t.flyways)))
    ensures !placed ==> t.flyways == old(t.flyways) && t.curChan == old(t.curChan) && (popAfter ==> t.Agrees([]))
  {
    hide FlywayTable.Agrees, AfterPick;
    placed := false;
    if f0.from != f0.to {
      var ok, f := PrepareDongles(t, f0, popAfter, rest);
      if ok {
        placed, f := TryChannels(t, f, rest);
        if placed {
          LinksSnoc(old(t.flyways), f);
          AdvanceChannel(t, rest);
        } else {
          ReleaseDongles(t, f, rest);
        }
      }
    }
  }

  ghost predicate PlacedSoFar(base: seq<Link>, placed: seq<Link>, list: seq<Flyway>, i: nat)
    requires i <= |list|
  {
    Pairs(placed) == Pairs(base) + Pairs(Links(list[..i]))
  }

  // The dongles reserved for list[i] are the next ones once list[..i] is in place.
  lemma ReservedNext(cfg: Config, base: seq<Link>, placed: seq<Link>, list: seq<Flyway>, i: nat)
    requires Reserved(cfg, base, list) && i < |list| && list[i].from != list[i].to
    requires PlacedSoFar(base, placed, list, i)
    ensures NextDongles(placed, list[i]) && DonglesLeft(cfg, placed, list[i].from, list[i].to)
  {
    assert Pairs(placed) == Pairs(base + Links(list[..i]));
    SameDegrees(placed, base + Links(list[..i]));
    var all := base + Links(list);
    assert all[..|base| + i] == base + Links(list[..i]) && all[|base| + i] == LinkOf(list[i]);
    DegreeOfPrefix(all, |base| + i, list[i].from);
    DegreeOfPrefix(all, |base| + i, list[i].to);
  }

  function Pending(list: seq<Flyway>, i: nat, popAfter: bool): seq<Link>
    requires i <= |list|
  {
    if popAfter then [] else Links(list[i..])
  }

  lemma PendingStep(list: seq<Flyway>, i: nat, popAfter: bool)
    requires i < |list|
    ensures !popAfter ==> Pending(list, i, popAfter) == [LinkOf(list[i])] + Pending(list, i + 1, popAfter)
  {
  }

  lemma PlaceAllStep(cfg: Config, plan: Plan, todo: seq<(int, int)>, i: nat, rates: seq<real>)
    requires cfg.Valid() && i < |todo|
    ensures PlaceAll(cfg, plan, todo[i..])
            == match PlaceOne(cfg, plan, todo[i].0, todo[i].1)
               case None => None
               case Some(p) => PlaceAll(cfg, p, todo[i + 1..])
    ensures var left := AfterOne(cfg, plan, todo[i].0, todo[i].1, rates);
            AfterAll(cfg, plan, todo[i..], rates)
            == match PlaceOne(cfg, plan, todo[i].0, todo[i].1)
               case None => left
               case Some(p) => AfterAll(cfg, p, todo[i + 1..], left)
  {
    hide PlaceOne, AfterOne;
    assert todo[i..][1..] == todo[i + 1..];
  }

  lemma NothingPlaced(t: FlywayTable, list: seq<Flyway>, popAfter: bool)
    requires t.Agrees(Pending(list, 0, popAfter))
    ensures t.cfg.Valid() && t.curChan < t.cfg.numChannels && PlacedSoFar(Links(t.flyways), Links(t.flyways), list, 0)
    ensures |Pairs(Links(list))| == |list|
    ensures forall i :: 0 <= i < |list| ==> Pairs(Links(list))[i] == (list[i].from, list[i].to)
    ensures popAfter ==> t.Agrees([])
    ensures UsedAimsKept(Links(t.flyways), t.aim, t.aim)
  {
  }

  lemma NothingPending(list: seq<Flyway>, popAfter: bool)
    ensures Pending(list, |list|, popAfter) == []
  {
  }

  lemma AllPlaced(cfg: Config, plan: Plan, todo: seq<(int, int)>, rates: seq<real>)
    requires cfg.Valid()
    ensures PlaceAll(cfg, plan, todo[|todo|..]) == Some(plan)
    ensures AfterAll(cfg, plan, todo[|todo|..], rates) == rates
  {
  }

  lemma PlacedOneMore(cfg: Config, plan: Plan, base: seq<Link>, list: seq<Flyway>, i: nat)
    requires cfg.numChannels > 0 && i < |list|
    requires PlacedSoFar(base, plan.links, list, i)
    ensures var p := PlaceOne(cfg, plan, list[i].from, list[i].to);
            p.Some? ==> PlacedSoFar(base, p.value.links, list, i + 1)
  {
    assert Links(list[..i + 1]) == Links(list[..i]) + [LinkOf(list[i])];
    var p := PlaceOne(cfg, plan, list[i].from, list[i].to);
    if p.Some? {
      assert Pairs(p.value.links) == Pairs(plan.links) + [(list[i].from, list[i].to)];
    }
  }

  lemma UsedAimsKeptStep(fs: seq<Flyway>, fs': seq<Flyway>, aim: Aim, aim': Aim, aim'': Aim)
    requires fs <= fs'
    requires UsedAimsKept(Links(fs), aim, aim') && UsedAimsKept(Links(fs'), aim', aim'')
    ensures UsedAimsKept(Links(fs), aim, aim'')
  {
    var ls, ls' := Links(fs), Links(fs');
    assert ls <= ls';
    forall n, d | 0 <= d < Degree(ls, n) ensures Look(aim'', n, d) == Look(aim, n, d) {
      DegreeGrows(ls, ls', n);
    }
  }

  lemma {:induction false} DegreeGrows(ls: seq<Link>, ls': seq<Link>, n: int)
    requires ls <= ls'
    ensures Degree(ls, n) <= Degree(ls', n)
    decreases |ls'|
  {
    if |ls| < |ls'| {
      DegreeGrows(ls, ls'[..|ls'| - 1], n);
    } else {
      assert ls == ls';
    }
  }

  // The placing loop of CheckAddFlyways: runs through `list` until one flyway fails.
  method PlaceList(t: FlywayTable, list: seq<Flyway>, popAfter: bool) returns (ret: bool)
    requires t.Agrees(Pending(list, 0, popAfter))
    requires forall i :: 0 <= i < |list| ==> KnownNodes(list[i])
    requires popAfter ==> forall i :: 0 <= i < |list| ==> list[i].dongleFrom == -1 && list[i].dongleTo == -1
    requires !popAfter ==> Reserved(t.cfg, Links(t.flyways), list)
    modifies t, t.dongleCounts
    ensures var result := PlaceAll(t.cfg, old(t.CurrentPlan()), Pairs(Links(list)));
            ret == result.Some? && (ret ==> t.CurrentPlan() == result.value)
    ensures ret || popAfter ==> t.Agrees([])
    ensures t.flywayRates == AfterAll(t.cfg, old(t.CurrentPlan()), Pairs(Links(list)), old(t.flywayRates))
    ensures old(t.flyways) <= t.flyways
    ensures UsedAimsKept(Links(old(t.flyways)), old(t.aim), t.aim)
    ensures OtherChannels(t.cfg, t.nodesWithFlyways) == OtherChannels(t.cfg, old(t.nodesWithFlyways))
  {
    hide FlywayTable.Agrees, PlaceAll, PlaceOne, PlacedSoFar, Rates, UsedAimsKept, Reserved, OtherChannels, Links,
      Pairs, AfterAll, AfterOne;
    ghost var plan0, todo := t.CurrentPlan(), Pairs(Links(list));
    NothingPlaced(t, list, popAfter);
    var i := 0;
    ret := true;
    while i < |list| && ret
      invariant i <= |list|
      invariant old(t.flyways) <= t.flyways
      invariant ret ==> t.Agrees(Pending(list, i, popAfter))
      invariant popAfter ==> t.Agrees([])
      invariant PlaceAll(t.cfg, plan0, todo) == if ret then PlaceAll(t.cfg, t.CurrentPlan(), todo[i..]) else None
      invariant ret ==> PlacedSoFar(plan0.links, Links(t.flyways), list, i)
      invariant AfterAll(t.cfg, plan0, todo, old(t.flywayRates))
             == if ret then AfterAll(t.cfg, t.CurrentPlan(), todo[i..], t.flywayRates) else t.flywayRates
      invariant UsedAimsKept(plan0.links, old(t.aim), t.aim)
      invariant OtherChannels(t.cfg, t.nodesWithFlyways) == OtherChannels(t.cfg, old(t.nodesWithFlyways))
    {
      ghost var rest := Pending(list, i + 1, popAfter);
      ghost var fs, aim := t.flyways, t.aim;
      PendingStep(list, i, popAfter);
      PlaceAllStep(t.cfg, t.CurrentPlan(), todo, i, t.flywayRates);
      PlacedOneMore(t.cfg, t.CurrentPlan(), plan0.links, list, i);
      if !popAfter && list[i].from != list[i].to {
        ReservedNext(t.cfg, plan0.links, Links(fs), list, i);
      }
      ret := PlaceNext(t, list[i], popAfter, rest);
      UsedAimsKeptStep(old(t.flyways), fs, old(t.aim), aim, t.aim);
      i := i + 1;
    }
    AllPlaced(t.cfg, t.CurrentPlan(), todo, t.flywayRates);
    NothingPending(list, popAfter);
  }

  // What is left without the last flyway ...
  lemma ShorterIsGood(t: FlywayTable, k: nat)
    requires t.Agrees([]) && |t.flyways| == k + 1
    ensures Good(t.cfg, Links(t.flyways[..k])) && Numbered(t.flyways[..k]) && Aimed(t.aim, t.flyways[..k])
    ensures KnownNodes(t.flyways[k]) && t.flyways[k].from != t.flyways[k].to
    ensures 0 <= t.flyways[k].channel < t.cfg.numChannels
    ensures Matching(Links(t.flyways)) && Links(t.flyways) == Links(t.flyways[..k]) + [LinkOf(t.flyways[k])]
    ensures Links(t.flyways) + [] == Links(t.flyways) && Links(t.flyways[..k]) + [] == Links(t.flyways[..k])
  {
    hide Good, SetOk, Degree, Endpoints;
    var fs := t.flyways;
    var before, l := Links(fs[..k]), LinkOf(fs[k]);
    assert Links(fs) == before + [l];
    GoodWithoutLast(t.cfg, before, l);
    assert forall i :: 0 <= i < k ==> fs[..k][..i] == fs[..i];
  }

  lemma GoodWithoutLast(cfg: Config, ls: seq<Link>, l: Link)
    requires cfg.Valid() && Good(cfg, ls + [l])
    ensures Good(cfg, ls) && ProperLink(cfg, l) && Matching(ls + [l])
  {
    hide SetOk, Degree;
    var all := ls + [l];
    assert all[|ls|] == l && forall i :: 0 <= i < |ls| ==> all[i] == ls[i];
    PrefixOk(cfg, RaysOf(all), |ls|);
    assert RaysOf(all)[..|ls|] == RaysOf(ls);
    forall n ensures Degree(ls, n) <= Degree(all, n) {
      SnocDegree(ls, l, n);
    }
  }

  // ... and how degrees and busy nodes differ.
  lemma LastLinkOff(ls: seq<Link>, l: Link)
    requires Matching(ls + [l])
    ensures forall n :: Degree(ls + [l], n) == Degree(ls, n) + Ends(l, n)
    ensures FreeOn(ls, l.from, l.to, l.channel)
    ensures forall c :: Endpoints(ls + [l], c) == Endpoints(ls, c) + if c == l.channel then {l.from, l.to} else {}
  {
    var all := ls + [l];
    forall n ensures Degree(all, n) == Degree(ls, n) + Ends(l, n) {
      SnocDegree(ls, l, n);
    }
    forall c ensures Endpoints(all, c) == Endpoints(ls, c) + if c == l.channel then {l.from, l.to} else {} {
      SnocEndpoints(ls, l, c);
    }
    forall i | 0 <= i < |ls| && ls[i].channel == l.channel ensures Ends(ls[i], l.from) == 0 && Ends(ls[i], l.to) == 0 {
      assert Apart(all[i], all[|ls|]);
    }
    EndpointsAreEnds(ls, l.channel, l.from);
    EndpointsAreEnds(ls, l.channel, l.to);
  }

  // Take off the last flyway again.
  method PopFlyway(t: FlywayTable)
    requires t.Agrees([]) && t.flyways != []
    modifies t`flyways, t`nodesWithFlyways, t.dongleCounts
    ensures t.Agrees([]) && t.flyways == old(t.flyways[..|t.flyways| - 1])
    ensures OtherChannels(t.cfg, t.nodesWithFlyways) == OtherChannels(t.cfg, old(t.nodesWithFlyways))
  {
    hide Good, Numbered, Aimed, Endpoints, Degree, Links, Matching;
    var k := |t.flyways| - 1;
    var f := t.flyways[k];
    ShorterIsGood(t, k);
    LastLinkOff(Links(t.flyways[..k]), LinkOf(f));
    if f.channel != -1 {
      t.nodesWithFlyways := t.nodesWithFlyways[f.channel := t.nodesWithFlyways[f.channel] - {f.to}];
      t.nodesWithFlyways := t.nodesWithFlyways[f.channel := t.nodesWithFlyways[f.channel] - {f.from}];
    }
    t.dongleCounts[f.from] := t.dongleCounts[f.from] - 1;
    t.dongleCounts[f.to] := t.dongleCounts[f.to] - 1;
    t.flyways := t.flyways[..k];
  }

  ghost predicate TablesOf(cfg: Config, fs: seq<Flyway>, nodes: seq<set<int>>, counts: seq<nat>) {
    && cfg.numChannels <= |nodes| == MAX_CHANNELS && |counts| == MAX_NODES
    && (forall c :: 0 <= c < cfg.numChannels ==> nodes[c] == Endpoints(Links(fs), c))
    && (forall n :: 0 <= n < MAX_NODES ==> counts[n] == Degree(Links(fs), n))
  }

  lemma AgreeingTables(t: FlywayTable)
    requires t.Agrees([])
    ensures TablesOf(t.cfg, t.flyways, t.nodesWithFlyways, t.dongleCounts[..])
  {
    assert Links(t.flyways) + [] == Links(t.flyways);
  }

  // Places `list` on top of the flyways that are there; a candidate (popAfter) is taken
  // off again, whatever the verdict. Apart from the antennas of unused dongles and the
  // list of rates, a candidate leaves no trace.
  method CheckAddFlyways(t: FlywayTable, list: seq<Flyway>, popAfter: bool) returns (ret: bool)
    requires t.Agrees(Pending(list, 0, popAfter))
    requires forall i :: 0 <= i < |list| ==> KnownNodes(list[i])
    requires popAfter ==> forall i :: 0 <= i < |list| ==> list[i].dongleFrom == -1 && list[i].dongleTo == -1
    requires !popAfter ==> Reserved(t.cfg, Links(t.flyways), list)
    modifies t, t.dongleCounts
    ensures ret == PlaceAll(t.cfg, old(t.CurrentPlan()), Pairs(Links(list))).Some?
    ensures popAfter ==>
              && t.flyways == old(t.flyways)
              && t.nodesWithFlyways == old(t.nodesWithFlyways)
              && t.dongleCounts[..] == old(t.dongleCounts[..])
              && t.curChan == old(t.curChan)
              && UsedAimsKept(Links(t.flyways), old(t.aim), t.aim)
              && t.Agrees([])
    ensures !popAfter && ret ==>
              && Some(t.CurrentPlan()) == PlaceAll(t.cfg, old(t.CurrentPlan()), Pairs(Links(list)))
              && t.Agrees([])
    ensures t.flywayRates == AfterAll(t.cfg, old(t.CurrentPlan()), Pairs(Links(list)), old(t.flywayRates))
  {
    hide FlywayTable.Agrees, PlaceAll, Rates, UsedAimsKept, Reserved, OtherChannels, Links, Pairs, TablesOf, AfterAll;
    NothingPlaced(t, list, popAfter);
    if popAfter {
      AgreeingTables(t);
    }
    var oldCurChan, origLen := t.curChan, |t.flyways|;
    ret := PlaceList(t, list, popAfter);
    if popAfter {
      RestoreChannel(t, oldCurChan);
      UndoTo(t, origLen);
      assert t.flyways == old(t.flyways);
      SameTables(t, old(t.nodesWithFlyways), old(t.dongleCounts[..]));
    }
  }

  method RestoreChannel(t: FlywayTable, c: nat)
    requires t.Agrees([]) && c < t.cfg.numChannels
    modifies t`curChan
    ensures t.Agrees([]) && t.curChan == c
  {
    t.curChan := c;
  }

  method UndoTo(t: FlywayTable, origLen: nat)
    requires t.Agrees([]) && origLen <= |t.flyways|
    modifies t`flyways, t`nodesWithFlyways, t.dongleCounts
    ensures t.Agrees([]) && t.flyways == old(t.flyways[..origLen])
    ensures OtherChannels(t.cfg, t.nodesWithFlyways) == OtherChannels(t.cfg, old(t.nodesWithFlyways))
  {
    hide FlywayTable.Agrees;
    while |t.flyways| > origLen
      invariant origLen <= |t.flyways| && t.flyways <= old(t.flyways)
      invariant t.Agrees([])
      invariant OtherChannels(t.cfg, t.nodesWithFlyways) == OtherChannels(t.cfg, old(t.nodesWithFlyways))
      decreases |t.flyways|
    {
      PopFlyway(t);
    }
  }

  // The tables are determined by the flyways.
  lemma SameTables(t: FlywayTable, nodes: seq<set<int>>, counts: seq<nat>)
    requires t.Agrees([]) && TablesOf(t.cfg, t.flyways, nodes, counts)
    requires OtherChannels(t.cfg, nodes) == OtherChannels(t.cfg, t.nodesWithFlyways)
    ensures nodes == t.nodesWithFlyways && counts == t.dongleCounts[..]
  {
    hide Endpoints, Degree, Numbered, Good, Aimed;
    AgreeingTables(t);
    forall c | 0 <= c < MAX_CHANNELS ensures nodes[c] == t.nodesWithFlyways[c] {
      var k := t.cfg.numChannels;
      if c >= k {
        assert nodes[c] == nodes[k..][c - k] && t.nodesWithFlyways[c] == t.nodesWithFlyways[k..][c - k];
      }
    }
  }

  // ----- the whole program

  function Candidate(pairs: seq<(int, int)>): seq<Flyway> {
    seq(|pairs|, i requires 0 <= i < |pairs| => Flyway(pairs[i].0, -1, pairs[i].1, -1, -1))
  }

  lemma CandidatePairs(pairs: seq<(int, int)>)
    ensures Pairs(Links(Candidate(pairs))) == pairs
  {
  }

  lemma OverbookedStays(cfg: Config, pairs: seq<(int, int)>, i: nat, n: int)
    requires i < |pairs| && Degree(Requested(pairs[..i + 1]), n) > cfg.numDongles
    ensures !WithinDongles(cfg, Requested(pairs))
  {
    assert Requested(pairs[..i + 1]) <= Requested(pairs);
    DegreeGrows(Requested(pairs[..i + 1]), Requested(pairs), n);
  }

  lemma RequestOneMore(pairs: seq<(int, int)>, i: nat)
    requires i < |pairs|
    ensures Requested(pairs[..i + 1]) == Requested(pairs[..i]) + [Link(pairs[i].0, pairs[i].1, -1)]
    ensures forall n :: Degree(Requested(pairs[..i + 1]), n)
                        == Degree(Requested(pairs[..i]), n) + Ends(Link(pairs[i].0, pairs[i].1, -1), n)
  {
    var ls, l := Requested(pairs[..i]), Link(pairs[i].0, pairs[i].1, -1);
    assert Requested(pairs[..i + 1]) == ls + [l];
    forall n ensures Degree(ls + [l], n) == Degree(ls, n) + Ends(l, n) {
      SnocDegree(ls, l, n);
    }
  }

  ghost predicate NumberedRequests(fs: seq<Flyway>) {
    forall i :: 0 <= i < |fs| && fs[i].from != fs[i].to ==> NextDongles(Links(fs[..i]), fs[i])
  }

  // The first part of ReadFlyways: hand out dongles to the given flyways.
  method NumberFlyways(cfg: Config, counts: array<nat>, pairs: seq<(int, int)>) returns (ok: bool, init: seq<Flyway>)
    requires counts.Length == MAX_NODES && KnownPairs(pairs)
    requires forall n :: 0 <= n < MAX_NODES ==> counts[n] == 0
    modifies counts
    ensures ok <==> WithinDongles(cfg, Requested(pairs))
    ensures ok ==> Links(init) == Requested(pairs) && NumberedRequests(init)
    ensures ok ==> forall n :: 0 <= n < MAX_NODES ==> counts[n] == Degree(Requested(pairs), n)
  {
    init := [];
    var i := 0;
    while i < |pairs|
      invariant i <= |pairs|
      invariant Links(init) == Requested(pairs[..i]) && NumberedRequests(init)
      invariant WithinDongles(cfg, Requested(pairs[..i]))
      invariant forall n :: 0 <= n < MAX_NODES ==> counts[n] == Degree(Requested(pairs[..i]), n)
    {
      var (from, to) := pairs[i];
      RequestOneMore(pairs, i);
      var dongleFrom := counts[from];
      counts[from] := counts[from] + 1;
      var dongleTo := counts[to];
      counts[to] := counts[to] + 1;
      var f := Flyway(from, dongleFrom, to, dongleTo, -1);
      if counts[from] > cfg.numDongles || counts[to] > cfg.numDongles {
        OverbookedStays(cfg, pairs, i, if counts[from] > cfg.numDongles then from else to);
        return false, init;
      }
      LinksSnoc(init, f);
      assert forall j :: 0 <= j < |init| ==> (init + [f])[..j] == init[..j];
      assert (init + [f])[..|init|] == init;
      init := init + [f];
      i := i + 1;
    }
    assert pairs[..i] == pairs;
    return true, init;
  }

  function FreshRun(cfg: Config, pairs: seq<(int, int)>): Option<Plan>
    requires cfg.numChannels > 0
  {
    PlaceAll(cfg, Plan([], 0), pairs)
  }

  // The dongle test made while reading repeats the one made while placing.
  lemma PlacedWithinDongles(cfg: Config, pairs: seq<(int, int)>)
    requires cfg.Valid() && FreshRun(cfg, pairs).Some?
    ensures WithinDongles(cfg, Requested(pairs))
  {
    PlacementIsGood(cfg, Plan([], 0), pairs);
    PlacementJoins(cfg, Plan([], 0), pairs);
    var ls := FreshRun(cfg, pairs).value.links;
    assert Pairs(ls) == Pairs(Requested(pairs));
    SameDegrees(ls, Requested(pairs));
  }

  lemma ReadyToPlace(t: FlywayTable, pairs: seq<(int, int)>, init: seq<Flyway>)
    requires t.Shaped() && t.flyways == [] && t.curChan == 0 && t.nodesWithFlyways == [{}, {}, {}]
    requires KnownPairs(pairs) && WithinDongles(t.cfg, Requested(pairs))
    requires Links(init) == Requested(pairs) && NumberedRequests(init)
    requires forall n :: 0 <= n < MAX_NODES ==> t.dongleCounts[n] == Degree(Requested(pairs), n)
    ensures t.Agrees(Pending(init, 0, false)) && Reserved(t.cfg, Links(t.flyways), init)
    ensures forall i :: 0 <= i < |init| ==> KnownNodes(init[i])
    ensures Pairs(Links(init)) == pairs && t.CurrentPlan() == Plan([], 0)
  {
    assert Links(t.flyways) == [] && init[0..] == init;
    assert forall ls: seq<Link> :: [] + ls == ls;
    forall i | 0 <= i < |init| ensures KnownNodes(init[i]) {
      assert LinkOf(init[i]) == Links(init)[i] == Requested(pairs)[i];
    }
  }

  lemma NothingRated(cfg: Config)
    requires cfg.Valid()
    ensures Rates(cfg, RaysOf([])) == [] && FreshRun(cfg, []) == Some(Plan([], 0))
    ensures AfterAll(cfg, Plan([], 0), [], []) == []
  {
  }

  // Set up a table with the given flyways in place.
  method Start(cfg: Config, pairs: seq<(int, int)>) returns (ok: bool, t: FlywayTable)
    requires cfg.Valid() && KnownPairs(pairs)
    ensures fresh(t) && fresh(t.dongleCounts) && t.cfg == cfg
    ensures ok == FreshRun(cfg, pairs).Some?
    ensures ok ==> t.Agrees([]) && t.CurrentPlan() == FreshRun(cfg, pairs).value
    ensures ok ==> t.flywayRates == Rates(cfg, RaysOf(t.CurrentPlan().links))
  {
    hide FlywayTable.Agrees, Rates, RaysOf, PlaceAll, Reserved, Good, WithinDongles, Links, Requested, KnownPairs,
      AfterAll;
    t := new FlywayTable(cfg);
    var numbered, init := NumberFlyways(cfg, t.dongleCounts, pairs);
    if FreshRun(cfg, pairs).Some? {
      PlacedWithinDongles(cfg, pairs);
    }
    if !numbered {
      return false, t;
    }
    ReadyToPlace(t, pairs, init);
    NothingRated(cfg);
    ok := CheckAddFlyways(t, init, false);
    if ok && pairs != [] {
      PlacedRates(cfg, Plan([], 0), pairs, []);
    }
  }

  // Every verdict is the one a fresh run on the given flyways followed by the candidate
  // would reach: it does not depend on the candidates tested before. The rates printed
  // with it are those of that run too, except for an accepted empty candidate: it repeats what
  // the candidates before it have left, also those that were rejected half way, or the rates of
  // the given flyways.
  method CheckFeasibility(cfg: Config, pairs: seq<(int, int)>, candidates: seq<seq<(int, int)>>)
    returns (ok: bool, verdicts: seq<Verdict>)
    requires cfg.Valid() && KnownPairs(pairs)
    requires forall i :: 0 <= i < |candidates| ==> KnownPairs(candidates[i])
    ensures ok == FreshRun(cfg, pairs).Some?
    ensures |verdicts| == if ok then |candidates| else 0
    ensures forall i :: 0 <= i < |verdicts| ==>
              (verdicts[i].Accepted? <==> FreshRun(cfg, pairs + candidates[i]).Some?)
    ensures forall i :: 0 <= i < |verdicts| && verdicts[i].Accepted? ==>
              verdicts[i].rates
              == if candidates[i] == [] then AfterCandidates(cfg, FreshRun(cfg, pairs).value, candidates[..i])
                 else Rates(cfg, RaysOf(FreshRun(cfg, pairs + candidates[i]).value.links))
  {
    hide FlywayTable.Agrees, Rates, RaysOf, PlaceAll, AfterAll;
    verdicts := [];
    var t: FlywayTable;
    ok, t := Start(cfg, pairs);
    if !ok {
      return;
    }
    ghost var base := t.CurrentPlan();
    var i := 0;
    while i < |candidates|
      invariant i == |verdicts| <= |candidates|
      invariant t.Agrees([]) && t.CurrentPlan() == base
      invariant t.flywayRates == AfterCandidates(cfg, base, candidates[..i])
      invariant forall j :: 0 <= j < i ==>
                  (verdicts[j].Accepted? <==> FreshRun(cfg, pairs + candidates[j]).Some?)
      invariant forall j :: 0 <= j < i && verdicts[j].Accepted? ==>
                  verdicts[j].rates
                  == if candidates[j] == [] then AfterCandidates(cfg, base, candidates[..j])
                     else Rates(cfg, RaysOf(FreshRun(cfg, pairs + candidates[j]).value.links))
    {
      var candidate := Candidate(candidates[i]);
      CandidatePairs(candidates[i]);
      PlaceAllAppend(cfg, Plan([], 0), pairs, candidates[i]);
      CandidateRates(cfg, base, candidates, i);
      var accepted := CheckAddFlyways(t, candidate, true);
      verdicts := verdicts + [if accepted then Accepted(t.flywayRates) else Rejected];
      i := i + 1;
    }
  }

  lemma CandidateRates(cfg: Config, base: Plan, candidates: seq<seq<(int, int)>>, i: nat)
    requires cfg.Valid() && i < |candidates|
    ensures AfterCandidates(cfg, base, candidates[..i + 1])
         == AfterAll(cfg, base, candidates[i], AfterCandidates(cfg, base, candidates[..i]))
    ensures PlaceAll(cfg, base, candidates[i]).Some? ==>
              AfterCandidates(cfg, base, candidates[..i + 1])
              == if candidates[i] == [] then AfterCandidates(cfg, base, candidates[..i])
                 else Rates(cfg, RaysOf(PlaceAll(cfg, base, candidates[i]).value.links))
    ensures AfterCandidates(cfg, base, []) == Rates(cfg, RaysOf(base.links))
  {
    hide PlaceOne, AfterOne;
    assert candidates[..i + 1][..i] == candidates[..i];
    if candidates[i] != [] && PlaceAll(cfg, base, candidates[i]).Some? {
      PlacedRates(cfg, base, candidates[i], AfterCandidates(cfg, base, candidates[..i]));
    }
  }
}
