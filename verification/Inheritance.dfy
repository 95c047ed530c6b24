// PyBindGen's view of a class graph: the resolution order and the subclass test.
module Inheritance {
  type Class = int

  // ----- the resolution order

  ghost predicate Closed(bases: Class -> seq<Class>, classes: set<Class>) {
    forall c, b :: c in classes && b in bases(c) ==> b in classes
  }

  predicate Queued(toVisit: seq<Class>, visited: set<Class>, c: Class) {
    c in visited || c in toVisit
  }

  // The bases of every visited class are visited or waiting.
  ghost predicate NothingLost(bases: Class -> seq<Class>, toVisit: seq<Class>, visited: set<Class>) {
    forall c, b :: c in visited && b in bases(c) ==> Queued(toVisit, visited, b)
  }

  ghost predicate WalkState(bases: Class -> seq<Class>, classes: set<Class>, toVisit: seq<Class>, visited: set<Class>) {
    && Closed(bases, classes)
    && (forall c :: c in toVisit ==> c in classes)
    && visited <= classes
    && NothingLost(bases, toVisit, visited)
  }

  // The bases that are appended to the queue.
  function Unvisited(bs: seq<Class>, visited: set<Class>): seq<Class> {
    if bs == [] then []
    else Unvisited(bs[..|bs| - 1], visited) + if bs[|bs| - 1] in visited then [] else [bs[|bs| - 1]]
  }

  // The number of visited classes at the front of the queue.
  function Stale(toVisit: seq<Class>, visited: set<Class>): nat {
    if toVisit == [] || toVisit[0] !in visited then 0 else 1 + Stale(toVisit[1..], visited)
  }

  lemma {:induction false} UnvisitedMembers(bs: seq<Class>, visited: set<Class>)
    ensures forall b :: b in Unvisited(bs, visited) <==> b in bs && b !in visited
  {
    if bs != [] {
      UnvisitedMembers(bs[..|bs| - 1], visited);
      assert bs == bs[..|bs| - 1] + [bs[|bs| - 1]];
    }
  }

  // A class that is taken again adds nothing new: behind it the queue starts with one
  // stale entry less.
  lemma {:induction false} StaleAppend(toVisit: seq<Class>, more: seq<Class>, visited: set<Class>)
    requires forall i :: 0 <= i < |more| ==> more[i] !in visited && more[i] in toVisit
    ensures Stale(toVisit + more, visited) == Stale(toVisit, visited)
  {
    if toVisit == [] {
      assert toVisit + more == more;
    } else {
      assert (toVisit + more)[1..] == toVisit[1..] + more;
      if toVisit[0] in visited {
        StaleAppend(toVisit[1..], more, visited);
      }
    }
  }

  // What the loop body does to the queue.
  function Rest(bases: Class -> seq<Class>, toVisit: seq<Class>, visited: set<Class>): seq<Class>
    requires toVisit != []
  {
    toVisit[1..] + Unvisited(bases(toVisit[0]), visited + {toVisit[0]})
  }

  lemma RestMembers(bases: Class -> seq<Class>, toVisit: seq<Class>, visited: set<Class>, c: Class)
    requires toVisit != []
    ensures c in Rest(bases, toVisit, visited)
            <==> c in toVisit[1..] || (c in bases(toVisit[0]) && c !in visited && c != toVisit[0])
  {
    UnvisitedMembers(bases(toVisit[0]), visited + {toVisit[0]});
  }

  lemma TakeLosesNothing(bases: Class -> seq<Class>, toVisit: seq<Class>, visited: set<Class>)
    requires NothingLost(bases, toVisit, visited) && toVisit != []
    ensures NothingLost(bases, Rest(bases, toVisit, visited), visited + {toVisit[0]})
  {
    hide Rest;
    var c, visited' := toVisit[0], visited + {toVisit[0]};
    assert toVisit == [c] + toVisit[1..];
    forall x, b | x in visited' && b in bases(x)
      ensures Queued(Rest(bases, toVisit, visited), visited', b)
    {
      RestMembers(bases, toVisit, visited, b);
      assert x in visited ==> Queued(toVisit, visited, b);
    }
  }

  lemma TakeKeepsState(bases: Class -> seq<Class>, classes: set<Class>, toVisit: seq<Class>, visited: set<Class>)
    requires WalkState(bases, classes, toVisit, visited) && toVisit != []
    ensures WalkState(bases, classes, Rest(bases, toVisit, visited), visited + {toVisit[0]})
  {
    hide Rest, NothingLost;
    TakeLosesNothing(bases, toVisit, visited);
    var first := toVisit[0];
    assert first in toVisit;
    forall c | c in Rest(bases, toVisit, visited) ensures c in classes {
      RestMembers(bases, toVisit, visited, c);
      assert c in toVisit[1..] ==> c in toVisit;
    }
  }

  // A new class leaves fewer to visit. A class taken again shortens the stale front of
  // the queue, because its bases are visited or waiting already.
  lemma TakeMakesProgress(bases: Class -> seq<Class>, classes: set<Class>, toVisit: seq<Class>, visited: set<Class>)
    requires WalkState(bases, classes, toVisit, visited) && toVisit != []
    ensures var visited' := visited + {toVisit[0]};
            || |classes - visited'| < |classes - visited|
            || (|classes - visited'| == |classes - visited|
                && Stale(Rest(bases, toVisit, visited), visited') < Stale(toVisit, visited))
  {
    var c, visited' := toVisit[0], visited + {toVisit[0]};
    if c in visited {
      assert visited' == visited;
      var more := Unvisited(bases(c), visited');
      UnvisitedMembers(bases(c), visited');
      assert toVisit == [c] + toVisit[1..];
      forall i | 0 <= i < |more| ensures more[i] !in visited && more[i] in toVisit[1..] {
        var b := more[i];
        assert b in more;
        assert Queued(toVisit, visited, b);
      }
      StaleAppend(toVisit[1..], more, visited);
    } else {
      assert c in toVisit;
      assert classes - visited == (classes - visited') + {c};
    }
  }

  // The order in which get_mro yields classes from this state on. Defined on cyclic
  // graphs too; a class may be yielded more than once.
  ghost function Walk(bases: Class -> seq<Class>, classes: set<Class>, toVisit: seq<Class>,
                      visited: set<Class>): seq<Class>
    requires WalkState(bases, classes, toVisit, visited)
    decreases |classes - visited|, Stale(toVisit, visited)
  {
    if toVisit == [] then []
    else
      TakeKeepsState(bases, classes, toVisit, visited);
      TakeMakesProgress(bases, classes, toVisit, visited);
      [toVisit[0]] + Walk(bases, classes, Rest(bases, toVisit, visited), visited + {toVisit[0]})
  }

  ghost function Mro(bases: Class -> seq<Class>, classes: set<Class>, self: Class): seq<Class>
    requires Closed(bases, classes) && self in classes
  {
    Walk(bases, classes, [self], {})
  }

  method GetMro(bases: Class -> seq<Class>, ghost classes: set<Class>, self: Class) returns (mro: seq<Class>)
    requires Closed(bases, classes) && self in classes
    ensures mro == Mro(bases, classes, self)
  {
    var toVisit := [self];
    var visited: set<Class> := {};
    mro := [];
    while toVisit != []
      invariant WalkState(bases, classes, toVisit, visited)
      invariant Mro(bases, classes, self) == mro + Walk(bases, classes, toVisit, visited)
      decreases |classes - visited|, Stale(toVisit, visited)
    {
      TakeKeepsState(bases, classes, toVisit, visited);
      TakeMakesProgress(bases, classes, toVisit, visited);
      var cls := toVisit[0];
      ghost var rest := Rest(bases, toVisit, visited);
      toVisit := toVisit[1..];
      visited := visited + {cls};
      mro := mro + [cls];
      toVisit := AppendUnvisited(bases(cls), visited, toVisit);
      assert toVisit == rest;
    }
  }

  // The loop over cls.bases.
  method AppendUnvisited(bs: seq<Class>, visited: set<Class>, queue: seq<Class>) returns (toVisit: seq<Class>)
    ensures toVisit == queue + Unvisited(bs, visited)
  {
    toVisit := queue;
    for i := 0 to |bs|
      invariant toVisit == queue + Unvisited(bs[..i], visited)
    {
      assert bs[..i + 1][..i] == bs[..i];
      if bs[i] !in visited {
        toVisit := toVisit + [bs[i]];
      }
    }
    assert bs[..|bs|] == bs;
  }

  // ----- ancestors

  // `c` is reached from `a` by following bases `n` times.
  ghost predicate ReachIn(bases: Class -> seq<Class>, a: Class, c: Class, n: nat)
    decreases n
  {
    if n == 0 then a == c else exists b :: ReachIn(bases, a, b, n - 1) && c in bases(b)
  }

  ghost predicate Ancestor(bases: Class -> seq<Class>, a: Class, c: Class) {
    exists n: nat :: ReachIn(bases, a, c, n)
  }

  lemma {:induction false} ReachJoin(bases: Class -> seq<Class>, a: Class, b: Class, c: Class, m: nat, n: nat)
    requires ReachIn(bases, a, b, m) && ReachIn(bases, b, c, n)
    ensures ReachIn(bases, a, c, m + n)
    decreases n
  {
    if n > 0 {
      var d :| ReachIn(bases, b, d, n - 1) && c in bases(d);
      ReachJoin(bases, a, b, d, m, n - 1);
    }
  }

  // `d` is the length of the shortest way.
  ghost predicate Distance(bases: Class -> seq<Class>, a: Class, c: Class, d: nat) {
    ReachIn(bases, a, c, d) && forall k: nat :: k < d ==> !ReachIn(bases, a, c, k)
  }

  // ----- the walk goes through the levels one by one

  // Bookkeeping for the walk from `self`: the level at which each waiting class was
  // queued, and the distance of each visited class.
  ghost predicate Levelled(bases: Class -> seq<Class>, self: Class, toVisit: seq<Class>, visited: set<Class>,
                           levels: seq<nat>, dist: map<Class, nat>)
  {
    && |levels| == |toVisit|
    && dist.Keys == visited
    && (forall i, j :: 0 <= i < j < |levels| ==> levels[i] <= levels[j] <= levels[0] + 1)
    && (forall i :: 0 <= i < |toVisit| ==> ReachIn(bases, self, toVisit[i], levels[i]))
    && (forall i, k: nat :: 0 <= i < |toVisit| && k + 1 < levels[i] ==> !ReachIn(bases, self, toVisit[i], k))
    && (forall c :: c in visited ==> Distance(bases, self, c, dist[c]))
    && (forall c, b :: c in visited && b in bases(c) ==> QueuedBy(toVisit, visited, levels, b, dist[c] + 1))
    && QueuedBy(toVisit, visited, levels, self, 0)
  }

  // `c` is visited, or waits at a level up to `l`.
  ghost predicate QueuedBy(toVisit: seq<Class>, visited: set<Class>, levels: seq<nat>, c: Class, l: nat) {
    c in visited || exists i :: 0 <= i < |toVisit| && i < |levels| && toVisit[i] == c && levels[i] <= l
  }

  // What is reached in `k` steps, at most as many as the front of the queue is away, has
  // been queued by then.
  lemma {:induction false} ReachedIsQueued(bases: Class -> seq<Class>, self: Class, toVisit: seq<Class>,
                                           visited: set<Class>,
                                          levels: seq<nat>, dist: map<Class, nat>, c: Class, k: nat)
    requires Levelled(bases, self, toVisit, visited, levels, dist)
    requires toVisit != [] ==> k <= levels[0]
    requires ReachIn(bases, self, c, k)
    ensures QueuedBy(toVisit, visited, levels, c, k)
    decreases k
  {
    if k > 0 {
      var b :| ReachIn(bases, self, b, k - 1) && c in bases(b);
      ReachedIsQueued(bases, self, toVisit, visited, levels, dist, b, k - 1);
      assert b in visited;
      assert dist[b] <= k - 1;
      assert QueuedBy(toVisit, visited, levels, c, dist[b] + 1);
    }
  }

  // ----- one step of the bookkeeping

  function NextLevels(bases: Class -> seq<Class>, toVisit: seq<Class>, visited: set<Class>, levels: seq<nat>): seq<nat>
    requires toVisit != [] && |levels| == |toVisit|
  {
    levels[1..] + seq(|Unvisited(bases(toVisit[0]), visited + {toVisit[0]})|, _ => levels[0] + 1)
  }

  function NextDist(toVisit: seq<Class>, visited: set<Class>, levels: seq<nat>, dist: map<Class, nat>): map<Class, nat>
    requires toVisit != [] && |levels| == |toVisit|
  {
    if toVisit[0] in visited then dist else dist[toVisit[0] := levels[0]]
  }

  // The class at the front is at its level when it is new, and otherwise at most one
  // level nearer.
  lemma FrontDistance(bases: Class -> seq<Class>, self: Class, toVisit: seq<Class>, visited: set<Class>,
                      levels: seq<nat>, dist: map<Class, nat>)
    requires Levelled(bases, self, toVisit, visited, levels, dist) && toVisit != []
    ensures toVisit[0] !in visited ==> Distance(bases, self, toVisit[0], levels[0])
    ensures toVisit[0] in visited ==> dist[toVisit[0]] <= levels[0] <= dist[toVisit[0]] + 1
  {
    var c, l := toVisit[0], levels[0];
    assert ReachIn(bases, self, c, l);
    if c in visited {
      assert Distance(bases, self, c, dist[c]);
    } else {
      forall k: nat | k < l ensures !ReachIn(bases, self, c, k) {
        if ReachIn(bases, self, c, k) {
          ReachedIsQueued(bases, self, toVisit, visited, levels, dist, c, k);
        }
      }
    }
  }

  lemma QueuedByStep(bases: Class -> seq<Class>, toVisit: seq<Class>, visited: set<Class>, levels: seq<nat>, b: Class,
                     l: nat)
    requires toVisit != [] && |levels| == |toVisit|
    requires QueuedBy(toVisit, visited, levels, b, l) || (b in bases(toVisit[0]) && l == levels[0] + 1)
    ensures QueuedBy(Rest(bases, toVisit, visited), visited + {toVisit[0]},
                     NextLevels(bases, toVisit, visited, levels), b, l)
  {
    var visited' := visited + {toVisit[0]};
    var more := Unvisited(bases(toVisit[0]), visited');
    var rest, levels' := Rest(bases, toVisit, visited), NextLevels(bases, toVisit, visited, levels);
    UnvisitedMembers(bases(toVisit[0]), visited');
    if b !in visited' {
      if QueuedBy(toVisit, visited, levels, b, l) {
        var i :| 0 <= i < |toVisit| && toVisit[i] == b && levels[i] <= l;
        assert i > 0 && rest[i - 1] == b && levels'[i - 1] == levels[i];
      } else {
        assert b in more;
        var j :| 0 <= j < |more| && more[j] == b;
        var i := |toVisit| - 1 + j;
        assert rest[i] == b && levels'[i] == levels[0] + 1;
      }
    }
  }

  lemma AppendedAreNext(bases: Class -> seq<Class>, self: Class, toVisit: seq<Class>, visited: set<Class>,
                        levels: seq<nat>, dist: map<Class, nat>, b: Class)
    requires Levelled(bases, self, toVisit, visited, levels, dist) && toVisit != []
    requires b in bases(toVisit[0]) && b !in visited
    ensures ReachIn(bases, self, b, levels[0] + 1)
    ensures forall k: nat :: k < levels[0] ==> !ReachIn(bases, self, b, k)
  {
    assert ReachIn(bases, self, toVisit[0], levels[0]);
    forall k: nat | k < levels[0] ensures !ReachIn(bases, self, b, k) {
      if ReachIn(bases, self, b, k) {
        ReachedIsQueued(bases, self, toVisit, visited, levels, dist, b, k);
      }
    }
  }

  lemma LevelsOfQueue(bases: Class -> seq<Class>, self: Class, toVisit: seq<Class>, visited: set<Class>,
                      levels: seq<nat>, dist: map<Class, nat>, i: nat)
    requires Levelled(bases, self, toVisit, visited, levels, dist) && toVisit != []
    requires i < |Rest(bases, toVisit, visited)|
    ensures |NextLevels(bases, toVisit, visited, levels)| == |Rest(bases, toVisit, visited)|
    ensures var c, l := Rest(bases, toVisit, visited)[i], NextLevels(bases, toVisit, visited, levels)[i];
            && ReachIn(bases, self, c, l) && (forall k: nat :: k + 1 < l ==> !ReachIn(bases, self, c, k))
            && levels[0] <= l <= levels[0] + 1
  {
    var visited' := visited + {toVisit[0]};
    var more := Unvisited(bases(toVisit[0]), visited');
    var rest, levels' := Rest(bases, toVisit, visited), NextLevels(bases, toVisit, visited, levels);
    UnvisitedMembers(bases(toVisit[0]), visited');
    var n := |toVisit| - 1;
    if i < n {
      assert rest[i] == toVisit[i + 1] && levels'[i] == levels[i + 1];
    } else {
      var b := more[i - n];
      assert b in more && rest[i] == b && levels'[i] == levels[0] + 1;
      AppendedAreNext(bases, self, toVisit, visited, levels, dist, b);
    }
  }

  lemma TakeKeepsLevels(bases: Class -> seq<Class>, self: Class, toVisit: seq<Class>, visited: set<Class>,
                        levels: seq<nat>, dist: map<Class, nat>)
    requires Levelled(bases, self, toVisit, visited, levels, dist) && toVisit != []
    ensures Levelled(bases, self, Rest(bases, toVisit, visited), visited + {toVisit[0]},
                     NextLevels(bases, toVisit, visited, levels), NextDist(toVisit, visited, levels, dist))
  {
    hide Rest, QueuedBy, ReachIn;
    var c, visited' := toVisit[0], visited + {toVisit[0]};
    var rest, levels' := Rest(bases, toVisit, visited), NextLevels(bases, toVisit, visited, levels);
    var dist' := NextDist(toVisit, visited, levels, dist);
    FrontDistance(bases, self, toVisit, visited, levels, dist);
    RestLength(bases, toVisit, visited, levels);
    forall i | 0 <= i < |rest|
      ensures ReachIn(bases, self, rest[i], levels'[i])
      ensures forall k: nat :: k + 1 < levels'[i] ==> !ReachIn(bases, self, rest[i], k)
    {
      LevelsOfQueue(bases, self, toVisit, visited, levels, dist, i);
    }
    forall x, b | x in visited' && b in bases(x) ensures QueuedBy(rest, visited', levels', b, dist'[x] + 1) {
      QueuedByStep(bases, toVisit, visited, levels, b, dist'[x] + 1);
    }
    QueuedByStep(bases, toVisit, visited, levels, self, 0);
  }

  lemma RestLength(bases: Class -> seq<Class>, toVisit: seq<Class>, visited: set<Class>, levels: seq<nat>)
    requires toVisit != [] && |levels| == |toVisit|
    ensures |NextLevels(bases, toVisit, visited, levels)| == |Rest(bases, toVisit, visited)|
  {
  }

  // ----- what the walk yields

  // The levels of the classes of a walk, position by position.
  ghost predicate YieldsByLevel(bases: Class -> seq<Class>, self: Class, walk: seq<Class>, visited: set<Class>,
                                out: seq<nat>)
  {
    && |out| == |walk|
    && (forall i, j :: 0 <= i < j < |out| ==> out[i] <= out[j])
    && (forall i :: 0 <= i < |walk| ==> AtLevel(bases, self, walk[i], out[i]))
    && (forall i :: 0 <= i < |walk| && walk[i] !in visited && walk[i] !in walk[..i] ==>
        Distance(bases, self, walk[i], out[i]))
  }

  ghost predicate AtLevel(bases: Class -> seq<Class>, self: Class, c: Class, l: nat) {
    exists d: nat :: Distance(bases, self, c, d) && d <= l <= d + 1
  }

  lemma {:induction false} WalkByLevel(bases: Class -> seq<Class>, classes: set<Class>, self: Class,
                                       toVisit: seq<Class>, visited: set<Class>,
                                      levels: seq<nat>, dist: map<Class, nat>) returns (out: seq<nat>)
    requires WalkState(bases, classes, toVisit, visited)
    requires Levelled(bases, self, toVisit, visited, levels, dist)
    ensures YieldsByLevel(bases, self, Walk(bases, classes, toVisit, visited), visited, out)
    ensures out != [] ==> toVisit != [] && out[0] == levels[0]
    ensures forall c :: Ancestor(bases, self, c) ==> c in visited || c in Walk(bases, classes, toVisit, visited)
    decreases |classes - visited|, Stale(toVisit, visited)
  {
    hide Levelled, WalkState, Rest, Ancestor, Distance, YieldsByLevel, AtLevel;
    if toVisit == [] {
      out := [];
      NothingToVisit(bases, classes, self, visited, levels, dist);
    } else {
      FrontByLevel(bases, classes, self, toVisit, visited, levels, dist);
      TakeKeepsState(bases, classes, toVisit, visited);
      TakeMakesProgress(bases, classes, toVisit, visited);
      TakeKeepsLevels(bases, self, toVisit, visited, levels, dist);
      var rest, visited' := Rest(bases, toVisit, visited), visited + {toVisit[0]};
      var tail := WalkByLevel(bases, classes, self, rest, visited',
                              NextLevels(bases, toVisit, visited, levels), NextDist(toVisit, visited, levels, dist));
      out := [levels[0]] + tail;
      ConsByLevel(bases, self, toVisit[0], Walk(bases, classes, rest, visited'), visited, levels[0], tail);
    }
  }

  lemma NothingToVisit(bases: Class -> seq<Class>, classes: set<Class>, self: Class, visited: set<Class>,
                       levels: seq<nat>, dist: map<Class, nat>)
    requires WalkState(bases, classes, [], visited) && Levelled(bases, self, [], visited, levels, dist)
    ensures YieldsByLevel(bases, self, Walk(bases, classes, [], visited), visited, [])
    ensures forall c :: Ancestor(bases, self, c) ==> c in visited
  {
    forall c | Ancestor(bases, self, c) ensures c in visited {
      var n: nat :| ReachIn(bases, self, c, n);
      ReachedIsQueued(bases, self, [], visited, levels, dist, c, n);
    }
  }

  // The class at the front of the queue, and where its level stands.
  lemma FrontByLevel(bases: Class -> seq<Class>, classes: set<Class>, self: Class, toVisit: seq<Class>,
                     visited: set<Class>, levels: seq<nat>, dist: map<Class, nat>)
    requires WalkState(bases, classes, toVisit, visited) && toVisit != []
    requires Levelled(bases, self, toVisit, visited, levels, dist)
    ensures |levels| == |toVisit| && AtLevel(bases, self, toVisit[0], levels[0])
    ensures toVisit[0] !in visited ==> Distance(bases, self, toVisit[0], levels[0])
    ensures var next := NextLevels(bases, toVisit, visited, levels);
            Rest(bases, toVisit, visited) != [] ==> next != [] && levels[0] <= next[0]
  {
    hide Distance, WalkState;
    FrontDistance(bases, self, toVisit, visited, levels, dist);
    if toVisit[0] in visited {
      assert Distance(bases, self, toVisit[0], dist[toVisit[0]]);
    }
    if Rest(bases, toVisit, visited) != [] {
      LevelsOfQueue(bases, self, toVisit, visited, levels, dist, 0);
    }
  }

  lemma ConsByLevel(bases: Class -> seq<Class>, self: Class, c: Class, walk: seq<Class>, visited: set<Class>, l: nat,
                    tail: seq<nat>)
    requires AtLevel(bases, self, c, l) && (c !in visited ==> Distance(bases, self, c, l))
    requires tail != [] ==> l <= tail[0]
    requires YieldsByLevel(bases, self, walk, visited + {c}, tail)
    ensures YieldsByLevel(bases, self, [c] + walk, visited, [l] + tail)
  {
    hide AtLevel, Distance;
    var all, out := [c] + walk, [l] + tail;
    forall i | 0 <= i < |all| && all[i] !in visited && all[i] !in all[..i]
      ensures Distance(bases, self, all[i], out[i])
    {
      if i > 0 {
        assert all[..i] == [c] + walk[..i - 1];
        assert all[..i][0] == c;
        assert walk[i - 1] !in visited + {c} && walk[i - 1] !in walk[..i - 1];
      }
    }
  }

  lemma StartState(bases: Class -> seq<Class>, classes: set<Class>, self: Class)
    requires Closed(bases, classes) && self in classes
    ensures WalkState(bases, classes, [self], {}) && Levelled(bases, self, [self], {}, [0], map[])
  {
    assert ReachIn(bases, self, self, 0);
    assert [self][0] == self;
  }

  // ----- the resolution order

  lemma DistanceUnique(bases: Class -> seq<Class>, a: Class, c: Class, d: nat, e: nat)
    requires Distance(bases, a, c, d) && Distance(bases, a, c, e)
    ensures d == e
  {
  }

  // get_mro yields exactly the class and its ancestors, on any finite graph. A class
  // comes, the first time, behind no class that is farther away, and any later
  // appearance is out of place by at most one level.
  lemma MroIsByDistance(bases: Class -> seq<Class>, classes: set<Class>, self: Class)
    requires Closed(bases, classes) && self in classes
    ensures forall c :: c in Mro(bases, classes, self) <==> Ancestor(bases, self, c)
    ensures var mro := Mro(bases, classes, self);
            forall i, j, d: nat, e: nat ::
              0 <= i < j < |mro| && Distance(bases, self, mro[i], d) && Distance(bases, self, mro[j], e)
              ==> d <= e + 1 && (mro[j] !in mro[..j] ==> d <= e)
  {
    StartState(bases, classes, self);
    var mro := Mro(bases, classes, self);
    var out := WalkByLevel(bases, classes, self, [self], {}, [0], map[]);
    forall c | c in mro ensures Ancestor(bases, self, c) {
      var i :| 0 <= i < |mro| && mro[i] == c;
      assert AtLevel(bases, self, mro[i], out[i]);
    }
    forall i, j, d: nat, e: nat |
      0 <= i < j < |mro| && Distance(bases, self, mro[i], d) && Distance(bases, self, mro[j], e)
      ensures d <= e + 1 && (mro[j] !in mro[..j] ==> d <= e)
    {
      assert AtLevel(bases, self, mro[i], out[i]) && AtLevel(bases, self, mro[j], out[j]);
      var d' :| Distance(bases, self, mro[i], d') && d' <= out[i] <= d' + 1;
      DistanceUnique(bases, self, mro[i], d, d');
      var e' :| Distance(bases, self, mro[j], e') && e' <= out[j] <= e' + 1;
      DistanceUnique(bases, self, mro[j], e, e');
      if mro[j] !in mro[..j] {
        DistanceUnique(bases, self, mro[j], e, out[j]);
      }
    }
  }

  // ----- the subclass test

  ghost predicate IsSubclass(bases: Class -> seq<Class>, classes: set<Class>, self: Class, other: Class)
    requires Closed(bases, classes) && self in classes
  {
    other in Mro(bases, classes, self)
  }

  lemma SubclassIsPreorder(bases: Class -> seq<Class>, classes: set<Class>, a: Class, b: Class, c: Class)
    requires Closed(bases, classes) && a in classes && b in classes
    ensures IsSubclass(bases, classes, a, a)
    ensures IsSubclass(bases, classes, a, b) && IsSubclass(bases, classes, b, c) ==> IsSubclass(bases, classes, a, c)
  {
    MroIsByDistance(bases, classes, a);
    MroIsByDistance(bases, classes, b);
    assert ReachIn(bases, a, a, 0);
    if IsSubclass(bases, classes, a, b) && IsSubclass(bases, classes, b, c) {
      assert Ancestor(bases, a, b) && Ancestor(bases, b, c);
      var m: nat :| ReachIn(bases, a, b, m);
      var n: nat :| ReachIn(bases, b, c, n);
      ReachJoin(bases, a, b, c, m, n);
    }
  }

  // ----- a class may come back late

  // D(P, Y) with P(X, Y): Y is yielded, then X, then Y again.
  function LateBases(): Class -> seq<Class> {
    (c: Class) => if c == 0 then [1, 2] else if c == 1 then [3, 2] else []
  }

  lemma WalkStep(bases: Class -> seq<Class>, classes: set<Class>, toVisit: seq<Class>, visited: set<Class>,
                 rest: seq<Class>, visited': set<Class>)
    requires WalkState(bases, classes, toVisit, visited) && toVisit != []
    requires rest == Rest(bases, toVisit, visited) && visited' == visited + {toVisit[0]}
    ensures WalkState(bases, classes, rest, visited')
    ensures Walk(bases, classes, toVisit, visited) == [toVisit[0]] + Walk(bases, classes, rest, visited')
  {
    TakeKeepsState(bases, classes, toVisit, visited);
  }

  lemma LateBasesAre()
    ensures LateBases()(0) == [1, 2] && LateBases()(1) == [3, 2] && LateBases()(2) == [] && LateBases()(3) == []
  {
  }

  lemma UnvisitedOfTwo(a: Class, b: Class, visited: set<Class>)
    ensures Unvisited([], visited) == []
    ensures Unvisited([a, b], visited) == (if a in visited then [] else [a]) + (if b in visited then [] else [b])
  {
    assert [a, b][..1] == [a] && [a][..0] == [];
    assert Unvisited([a], visited) == if a in visited then [] else [a];
  }

  lemma LateRests()
    ensures var bases := LateBases();
            && Rest(bases, [0], {}) == [1, 2]
            && Rest(bases, [1, 2], {0}) == [2, 3, 2]
            && Rest(bases, [2, 3, 2], {0, 1}) == [3, 2]
            && Rest(bases, [3, 2], {0, 1, 2}) == [2]
            && Rest(bases, [2], {0, 1, 2, 3}) == []
  {
    hide LateBases, Unvisited;
    LateBasesAre();
    UnvisitedOfTwo(1, 2, {} + {0});
    UnvisitedOfTwo(3, 2, {0} + {1});
    UnvisitedOfTwo(0, 0, {0, 1} + {2});
    UnvisitedOfTwo(0, 0, {0, 1, 2} + {3});
    UnvisitedOfTwo(0, 0, {0, 1, 2, 3} + {2});
  }

  lemma LateWalk()
    ensures Closed(LateBases(), {0, 1, 2, 3})
    ensures Mro(LateBases(), {0, 1, 2, 3}, 0) == [0, 1, 2, 3, 2]
  {
    hide WalkState, Rest, Walk;
    var bases, classes := LateBases(), {0, 1, 2, 3};
    LateRests();
    StartState(bases, classes, 0);
    WalkStep(bases, classes, [0], {}, [1, 2], {0});
    WalkStep(bases, classes, [1, 2], {0}, [2, 3, 2], {0, 1});
    WalkStep(bases, classes, [2, 3, 2], {0, 1}, [3, 2], {0, 1, 2});
    WalkStep(bases, classes, [3, 2], {0, 1, 2}, [2], classes);
    WalkStep(bases, classes, [2], classes, [], classes);
    EmptyWalk(bases, classes, classes);
  }

  lemma EmptyWalk(bases: Class -> seq<Class>, classes: set<Class>, visited: set<Class>)
    requires WalkState(bases, classes, [], visited)
    ensures Walk(bases, classes, [], visited) == []
  {
  }

  lemma LateDistances()
    ensures Distance(LateBases(), 0, 3, 2) && Distance(LateBases(), 0, 2, 1)
  {
    hide LateBases;
    LateBasesAre();
    var bases := LateBases();
    assert ReachIn(bases, 0, 0, 0) && 1 in bases(0) && 2 in bases(0) && 3 in bases(1);
    OneStep(bases, 0, 1);
    OneStep(bases, 0, 2);
    OneStep(bases, 0, 3);
    assert ReachIn(bases, 0, 3, 2) by { assert ReachIn(bases, 0, 1, 1); }
  }

  lemma OneStep(bases: Class -> seq<Class>, a: Class, c: Class)
    ensures ReachIn(bases, a, c, 1) <==> c in bases(a)
  {
    assert ReachIn(bases, a, a, 0);
    assert forall b :: ReachIn(bases, a, b, 0) ==> b == a;
  }

  // So the whole sequence is not ordered by distance, and the bound of one level in
  // MroIsByDistance is reached.
  lemma MroCanStepBack()
    ensures var bases, classes := LateBases(), {0, 1, 2, 3};
            && Closed(bases, classes)
            && exists i, j, d: nat, e: nat ::
                 0 <= i < j < |Mro(bases, classes, 0)| && d == e + 1
                 && Distance(bases, 0, Mro(bases, classes, 0)[i], d) && Distance(bases, 0, Mro(bases, classes, 0)[j], e)
  {
    hide Mro, Distance, Closed;
    LateWalk();
    LateDistances();
    var mro := Mro(LateBases(), {0, 1, 2, 3}, 0);
    assert mro[3] == 3 && mro[4] == 2;
  }

  // With at most one base per class the order is the chain of bases.
  lemma {:induction false} SingleInheritanceChain(bases: Class -> seq<Class>, classes: set<Class>, c: Class,
        visited: set<Class>)
    requires WalkState(bases, classes, [c], visited) && c !in visited
    requires forall x :: x in classes ==> |bases(x)| <= 1
    ensures var walk := Walk(bases, classes, [c], visited);
            && walk != [] && walk[0] == c
            && (forall i :: 0 < i < |walk| ==> bases(walk[i - 1]) == [walk[i]])
            && (forall i :: 0 <= i < |walk| ==> walk[i] !in visited && walk[i] !in walk[..i])
    decreases |classes - visited|
  {
    hide WalkState, Rest, Stale;
    var visited' := visited + {c};
    var rest := Rest(bases, [c], visited);
    assert c in [c] && c in classes by {
      QueuedAreClasses(bases, classes, [c], visited);
    }
    TakeKeepsState(bases, classes, [c], visited);
    OneBaseAtMost(bases, c, visited);
    WalkTakes(bases, classes, [c], visited);
    if rest == [] {
      WalkOfNothing(bases, classes, visited');
    } else {
      var b := rest[0];
      assert rest == [b];
      FewerLeft(classes, visited, c);
      SingleInheritanceChain(bases, classes, b, visited');
      ConsChain(bases, c, visited, Walk(bases, classes, rest, visited'));
    }
  }

  lemma QueuedAreClasses(bases: Class -> seq<Class>, classes: set<Class>, toVisit: seq<Class>, visited: set<Class>)
    requires WalkState(bases, classes, toVisit, visited)
    ensures forall c :: c in toVisit ==> c in classes
  {
  }

  lemma FewerLeft(classes: set<Class>, visited: set<Class>, c: Class)
    requires c in classes && c !in visited
    ensures |classes - (visited + {c})| < |classes - visited|
  {
    assert classes - (visited + {c}) == (classes - visited) - {c};
  }

  lemma OneBaseAtMost(bases: Class -> seq<Class>, c: Class, visited: set<Class>)
    requires |bases(c)| <= 1
    ensures var rest := Rest(bases, [c], visited);
            rest == [] || (rest == bases(c) && |rest| == 1 && rest[0] !in visited + {c})
  {
    assert [c][1..] == [];
    if |bases(c)| == 1 {
      assert bases(c)[..0] == [] && bases(c) == [bases(c)[0]];
      assert Unvisited(bases(c), visited + {c}) == if bases(c)[0] in visited + {c} then [] else bases(c);
    }
  }

  lemma WalkTakes(bases: Class -> seq<Class>, classes: set<Class>, toVisit: seq<Class>, visited: set<Class>)
    requires WalkState(bases, classes, toVisit, visited) && toVisit != []
    requires WalkState(bases, classes, Rest(bases, toVisit, visited), visited + {toVisit[0]})
    ensures Walk(bases, classes, toVisit, visited)
         == [toVisit[0]] + Walk(bases, classes, Rest(bases, toVisit, visited), visited + {toVisit[0]})
  {
  }

  lemma WalkOfNothing(bases: Class -> seq<Class>, classes: set<Class>, visited: set<Class>)
    requires WalkState(bases, classes, [], visited)
    ensures Walk(bases, classes, [], visited) == []
  {
  }

  // One class in front of a chain.
  lemma ConsChain(bases: Class -> seq<Class>, c: Class, visited: set<Class>, tail: seq<Class>)
    requires tail != [] && bases(c) == [tail[0]] && c !in visited
    requires forall i :: 0 < i < |tail| ==> bases(tail[i - 1]) == [tail[i]]
    requires forall i :: 0 <= i < |tail| ==> tail[i] !in visited + {c} && tail[i] !in tail[..i]
    ensures var walk := [c] + tail;
            && (forall i :: 0 < i < |walk| ==> bases(walk[i - 1]) == [walk[i]])
            && (forall i :: 0 <= i < |walk| ==> walk[i] !in visited && walk[i] !in walk[..i])
  {
    var walk := [c] + tail;
    forall i | 0 <= i < |walk|
      ensures walk[i] !in visited && walk[i] !in walk[..i]
    {
      if i > 0 {
        assert walk[i] == tail[i - 1] && walk[..i] == [c] + tail[..i - 1];
      }
    }
    forall i | 0 < i < |walk|
      ensures bases(walk[i - 1]) == [walk[i]]
    {
      assert i > 1 ==> bases(tail[i - 2]) == [tail[i - 1]];
    }
  }
}
