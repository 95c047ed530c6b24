// isFeasible.cc: one channel and one dongle per node. Read a list of flyways, checking
// after each, and then report for every ordered pair of nodes whether it could be added.
module SingleChannel {
  import opened Interference
  import opened Placement
  import opened FlywayTables

  function Single(pairs: seq<(int, int)>): seq<Link> {
    seq(|pairs|, i requires 0 <= i < |pairs| => Link(pairs[i].0, pairs[i].1, 0))
  }

  // What the list as a whole has to satisfy.
  ghost predicate Compatible(cfg: Config, ls: seq<Link>) {
    && (forall i :: 0 <= i < |ls| ==> ls[i].channel == 0 && ls[i].from != ls[i].to)
    && Matching(ls)
    && SetOk(cfg, RaysOf(ls))
  }

  // The tables of the program: everything on dongle 0 and channel 0.
  ghost predicate Tidy(t: FlywayTable)
    reads t
  {
    && t.cfg.Valid() && |t.nodesWithFlyways| == MAX_CHANNELS
    && (forall i :: 0 <= i < |t.flyways| ==> t.flyways[i].dongleFrom == t.flyways[i].dongleTo == 0)
    && Compatible(t.cfg, Links(t.flyways))
    && Aimed(t.aim, t.flyways)
    && t.nodesWithFlyways[0] == Endpoints(Links(t.flyways), 0)
  }

  lemma CompatiblePrefix(cfg: Config, ls: seq<Link>, n: nat)
    requires cfg.Valid() && Compatible(cfg, ls) && n <= |ls|
    ensures Compatible(cfg, ls[..n])
  {
    assert RaysOf(ls)[..n] == RaysOf(ls[..n]);
    PrefixOk(cfg, RaysOf(ls), n);
  }

  // Adding one link keeps a list compatible exactly when it fits.
  lemma CompatibleSnoc(cfg: Config, ls: seq<Link>, a: int, b: int)
    requires cfg.Valid() && Compatible(cfg, ls)
    ensures Compatible(cfg, ls + [Link(a, b, 0)]) <==> a != b && Fits(cfg, ls, a, b, 0)
  {
    var l := Link(a, b, 0);
    var all := ls + [l];
    assert all[|ls|] == l;
    EndpointsAreEnds(ls, 0, a);
    EndpointsAreEnds(ls, 0, b);
    if a != b && Fits(cfg, ls, a, b, 0) {
      forall i | 0 <= i < |ls| ensures Apart(ls[i], l) {
        assert Ends(ls[i], a) == 0 && Ends(ls[i], b) == 0;
      }
    }
    if Compatible(cfg, all) {
      forall i | 0 <= i < |ls| ensures Ends(ls[i], a) == 0 && Ends(ls[i], b) == 0 {
        assert Apart(all[i], all[|ls|]);
      }
    }
  }

  // Re-pointing two unused nodes leaves the placed flyways aimed.
  lemma FreeNodesRepointed(aim: Aim, aim': Aim, fs: seq<Flyway>, a: int, b: int)
    requires Aimed(aim, fs) && FreeOn(Links(fs), a, b, 0)
    requires forall i :: 0 <= i < |fs| ==> fs[i].channel == 0
    requires forall n, d :: n != a && n != b ==> Look(aim', n, d) == Look(aim, n, d)
    ensures Aimed(aim', fs)
  {
    EndpointsAreEnds(Links(fs), 0, a);
    EndpointsAreEnds(Links(fs), 0, b);
    forall i | 0 <= i < |fs| ensures AimedAt(aim', fs[i]) {
      assert AimedAt(aim, fs[i]);
      assert Ends(Links(fs)[i], a) == 0 && Ends(Links(fs)[i], b) == 0;
    }
  }

  // Point the two nodes at each other, measure, and check the set with the new flyway,
  // which is left at the end of the list.
  method Extend(t: FlywayTable, a: int, b: int) returns (tooFar: bool, feasible: bool)
    requires Tidy(t) && a != b && FreeOn(Links(t.flyways), a, b, 0)
    modifies t`flyways, t`flywayRates, t`aim
    ensures Aimed(t.aim, old(t.flyways))
    ensures tooFar == (Strength(t.cfg.medium, Facing(Link(a, b, 0))) < t.cfg.threshold + MARGIN_DB)
    ensures tooFar ==> t.flyways == old(t.flyways) && !feasible
    ensures !tooFar ==> t.flyways == old(t.flyways) + [Flyway(a, 0, b, 0, 0)] && AimedAt(t.aim, Flyway(a, 0, b, 0, 0))
    ensures feasible == SetOk(t.cfg, RaysOf(Links(old(t.flyways)) + [Link(a, b, 0)]))
    ensures feasible ==> t.flywayRates == Rates(t.cfg, RaysOf(Links(old(t.flyways)) + [Link(a, b, 0)]))
  {
    var f := Flyway(a, 0, b, 0, 0);
    assert forall i :: 0 <= i < |t.flyways| ==> t.flyways[i].channel == Links(t.flyways)[i].channel;
    t.PointAtEachOther(a, 0, b, 0);
    FreeNodesRepointed(old(t.aim), t.aim, t.flyways, a, b);
    ghost var rays := RaysOf(Links(t.flyways) + [Link(a, b, 0)]);
    LinksSnoc(t.flyways, f);
    AimedRays(t.aim, t.flyways + [f]);
    var rssi := t.CalcSignalStrength(a, 0, b, 0);
    if rssi < t.cfg.threshold + MARGIN_DB {
      WeakRayNeverWorks(t.cfg, rays, |t.flyways|);
      return true, false;
    }
    t.flyways := t.flyways + [f];
    feasible := t.IsFlywaySetFeasible();
    return false, feasible;
  }

  lemma Added(t: FlywayTable, before: seq<Flyway>, a: int, b: int)
    requires t.cfg.Valid() && |t.nodesWithFlyways| == MAX_CHANNELS && Compatible(t.cfg, Links(before))
    requires t.flyways == before + [Flyway(a, 0, b, 0, 0)] && Aimed(t.aim, t.flyways)
    requires forall i :: 0 <= i < |before| ==> before[i].dongleFrom == before[i].dongleTo == 0
    requires a != b && Fits(t.cfg, Links(before), a, b, 0)
    requires t.nodesWithFlyways[0] == Endpoints(Links(before), 0) + {a} + {b}
    ensures Tidy(t)
  {
    LinksSnoc(before, Flyway(a, 0, b, 0, 0));
    CompatibleSnoc(t.cfg, Links(before), a, b);
    SnocEndpoints(Links(before), Link(a, b, 0), 0);
  }

  lemma SingleOneMore(cfg: Config, pairs: seq<(int, int)>, i: nat)
    requires cfg.Valid() && i < |pairs| && Compatible(cfg, Single(pairs[..i]))
    ensures Single(pairs[..i + 1]) == Single(pairs[..i]) + [Link(pairs[i].0, pairs[i].1, 0)]
    ensures Compatible(cfg, Single(pairs)) ==>
              pairs[i].0 != pairs[i].1 && Fits(cfg, Single(pairs[..i]), pairs[i].0, pairs[i].1, 0)
  {
    assert Single(pairs[..i + 1]) == Single(pairs[..i]) + [Link(pairs[i].0, pairs[i].1, 0)];
    CompatibleSnoc(cfg, Single(pairs[..i]), pairs[i].0, pairs[i].1);
    if Compatible(cfg, Single(pairs)) {
      CompatiblePrefix(cfg, Single(pairs), i + 1);
      assert Single(pairs)[..i + 1] == Single(pairs[..i + 1]);
    }
  }

  // The flyway-by-flyway checks accept a list exactly when it is not empty and passes
  // one check at the end.
  method ReadFlyways(t: FlywayTable, pairs: seq<(int, int)>) returns (ok: bool)
    requires Tidy(t) && t.flyways == []
    modifies t`flyways, t`flywayRates, t`nodesWithFlyways, t`aim
    ensures ok <==> pairs != [] && Compatible(t.cfg, Single(pairs))
    ensures ok ==> Tidy(t) && Links(t.flyways) == Single(pairs)
    ensures ok ==> t.flywayRates == Rates(t.cfg, RaysOf(Single(pairs)))
  {
    hide SetOk, Rates, LinkOk;
    var i := 0;
    while i < |pairs|
      invariant i <= |pairs|
      invariant Tidy(t) && Links(t.flyways) == Single(pairs[..i])
      invariant i > 0 ==> t.flywayRates == Rates(t.cfg, RaysOf(Single(pairs[..i])))
    {
      var (a, b) := pairs[i];
      SingleOneMore(t.cfg, pairs, i);
      if a == b {
        return false;
      }
      if a in t.nodesWithFlyways[0] {
        return false;
      }
      if b in t.nodesWithFlyways[0] {
        return false;
      }
      ghost var before := t.flyways;
      var tooFar, feasible := Extend(t, a, b);
      if tooFar || !feasible {
        return false;
      }
      t.nodesWithFlyways := t.nodesWithFlyways[0 := t.nodesWithFlyways[0] + {a}];
      t.nodesWithFlyways := t.nodesWithFlyways[0 := t.nodesWithFlyways[0] + {b}];
      Added(t, before, a, b);
      LinksSnoc(before, Flyway(a, 0, b, 0, 0));
      i := i + 1;
    }
    assert pairs[..i] == pairs;
    return |t.flyways| != 0;
  }

  // ----- the report

  datatype Answer = AlreadyAdded | SameEndPoint | NodeInUse | TooFar | SetInfeasible | CanAdd(rates: seq<real>)

  // The line printed for a pair, given the flyways that were read.
  function AnswerFor(cfg: Config, ls: seq<Link>, a: int, b: int): Answer
    requires |cfg.limits| == |cfg.rates|
  {
    if (a, b) in Pairs(ls) then AlreadyAdded
    else if a == b then SameEndPoint
    else if !FreeOn(ls, a, b, 0) then NodeInUse
    else if Strength(cfg.medium, Facing(Link(a, b, 0))) < cfg.threshold + MARGIN_DB then TooFar
    else if !SetOk(cfg, RaysOf(ls + [Link(a, b, 0)])) then SetInfeasible
    else CanAdd(Rates(cfg, RaysOf(ls + [Link(a, b, 0)])))
  }

  // "Yes" is printed for exactly the pairs whose addition to the file would be accepted.
  lemma YesMeansAcceptable(cfg: Config, ls: seq<Link>, a: int, b: int)
    requires cfg.Valid() && Compatible(cfg, ls)
    ensures AnswerFor(cfg, ls, a, b).CanAdd? <==> Compatible(cfg, ls + [Link(a, b, 0)])
  {
    CompatibleSnoc(cfg, ls, a, b);
    if (a, b) in Pairs(ls) {
      var i :| 0 <= i < |ls| && Pairs(ls)[i] == (a, b);
      EndpointsAreEnds(ls, 0, a);
      assert ls[i].channel == 0 && Ends(ls[i], a) > 0;
    }
    if Strength(cfg.medium, Facing(Link(a, b, 0))) < cfg.threshold + MARGIN_DB {
      WeakRayNeverWorks(cfg, RaysOf(ls + [Link(a, b, 0)]), |ls|);
    }
  }

  // Which answer a pair gets. The tests are made in this order; a flyway is looked for in the direction asked.
  lemma AnswerExactly(cfg: Config, ls: seq<Link>, a: int, b: int)
    requires cfg.Valid() && Compatible(cfg, ls)
    ensures var answer := AnswerFor(cfg, ls, a, b);
            var listed := exists i :: 0 <= i < |ls| && ls[i].from == a && ls[i].to == b;
            var inUse := Busy(ls, a, 0) || Busy(ls, b, 0);
            var signal := cfg.medium.signal(a, Toward(b), b, Toward(a));
            && (answer == AlreadyAdded <==> listed)
            && (answer == SameEndPoint <==> !listed && a == b)
            && (answer == NodeInUse <==> !listed && a != b && inUse)
            && (answer == TooFar <==> !listed && a != b && !inUse && signal < cfg.threshold + 3.0)
            && (answer == SetInfeasible
                <==> && !listed && a != b && !inUse && signal >= cfg.threshold + 3.0
                     && !Compatible(cfg, ls + [Link(a, b, 0)]))
  {
    hide SetOk, Rates;
    YesMeansAcceptable(cfg, ls, a, b);
    BusyExactly(ls, a, 0);
    BusyExactly(ls, b, 0);
    forall i | 0 <= i < |ls| ensures Pairs(ls)[i] == (a, b) <==> ls[i].from == a && ls[i].to == b {
    }
  }

  method AlreadyListed(t: FlywayTable, a: int, b: int) returns (found: bool)
    ensures found == ((a, b) in Pairs(Links(t.flyways)))
  {
    ghost var ps := Pairs(Links(t.flyways));
    var i := 0;
    while i < |t.flyways|
      invariant i <= |t.flyways|
      invariant forall j :: 0 <= j < i ==> ps[j] != (a, b)
    {
      if t.flyways[i].from == a && t.flyways[i].to == b {
        assert ps[i] == (a, b);
        return true;
      }
      i := i + 1;
    }
    return false;
  }

  // Try, report, and take back.
  method AskOne(t: FlywayTable, a: int, b: int) returns (answer: Answer)
    requires Tidy(t)
    modifies t`flyways, t`flywayRates, t`aim
    ensures Tidy(t) && t.flyways == old(t.flyways)
    ensures answer == AnswerFor(t.cfg, Links(t.flyways), a, b)
  {
    var listed := AlreadyListed(t, a, b);
    if listed {
      return AlreadyAdded;
    }
    if a == b {
      return SameEndPoint;
    }
    if a in t.nodesWithFlyways[0] {
      return NodeInUse;
    }
    if b in t.nodesWithFlyways[0] {
      return NodeInUse;
    }
    var tooFar, feasible := Extend(t, a, b);
    if tooFar {
      return TooFar;
    }
    answer := if !feasible then SetInfeasible else CanAdd(t.flywayRates);
    t.flyways := t.flyways[..|t.flyways| - 1];
  }

  // Every line of the report depends on the flyways read and on its own pair only.
  method AskAll(t: FlywayTable, numToRs: nat) returns (report: seq<seq<Answer>>)
    requires Tidy(t)
    modifies t`flyways, t`flywayRates, t`aim
    ensures t.flyways == old(t.flyways) && Tidy(t)
    ensures |report| == numToRs
    ensures forall s, d :: 0 <= s < numToRs && 0 <= d < numToRs ==>
              |report[s]| == numToRs && report[s][d] == AnswerFor(t.cfg, Links(t.flyways), s, d)
  {
    assert t.cfg.Valid();
    report := [];
    for s := 0 to numToRs
      invariant Tidy(t) && t.flyways == old(t.flyways) && |report| == s
      invariant forall i :: 0 <= i < s ==> |report[i]| == numToRs
      invariant forall i, d :: 0 <= i < s && 0 <= d < numToRs ==>
                  report[i][d] == AnswerFor(t.cfg, Links(t.flyways), i, d)
    {
      var row := [];
      for d := 0 to numToRs
        invariant Tidy(t) && t.flyways == old(t.flyways) && |row| == d
        invariant forall j :: 0 <= j < d ==> row[j] == AnswerFor(t.cfg, Links(t.flyways), s, j)
      {
        var answer := AskOne(t, s, d);
        row := row + [answer];
      }
      report := report + [row];
    }
  }
}
