// When the order of get_mro is free of repeats, and when it goes by distance.
module ResolutionOrder {
  import opened Sequences
  import opened Inheritance

  // ----- the walk is its own queue

  // What the take at position `t` appends.
  function New(bases: Class -> seq<Class>, mro: seq<Class>, t: nat): seq<Class>
    requires t < |mro|
  {
    Unvisited(bases(mro[t]), Elements(mro[..t + 1]))
  }

  // What the first `n` takes append.
  function Appended(bases: Class -> seq<Class>, mro: seq<Class>, n: nat): seq<Class>
    requires n <= |mro|
  {
    if n == 0 then [] else Appended(bases, mro, n - 1) + New(bases, mro, n - 1)
  }

  // The queue with everything that was ever in it: the order yielded is the start and what the
  // takes append, and no take comes before the append that it takes.
  ghost predicate IsQueue(bases: Class -> seq<Class>, self: Class, mro: seq<Class>) {
    && mro == [self] + Appended(bases, mro, |mro|)
    && forall t: nat :: t < |mro| ==> t < 1 + |Appended(bases, mro, t)|
  }

  lemma {:induction false} QueueFrom(bases: Class -> seq<Class>, classes: set<Class>, self: Class, mro: seq<Class>,
                                     prefix: seq<Class>, toVisit: seq<Class>, visited: set<Class>)
    requires WalkState(bases, classes, toVisit, visited) && visited == Elements(prefix)
    requires mro == prefix + Walk(bases, classes, toVisit, visited)
    requires prefix + toVisit == [self] + Appended(bases, mro, |prefix|)
    ensures mro == [self] + Appended(bases, mro, |mro|)
    ensures forall t: nat :: |prefix| <= t < |mro| ==> t < 1 + |Appended(bases, mro, t)|
    decreases |classes - visited|, Stale(toVisit, visited)
  {
    hide WalkState, Appended, Rest, Stale, Elements;
    if toVisit == [] {
      WalkOfNothing(bases, classes, visited);
      assert mro == prefix;
    } else {
      var c := toVisit[0];
      TakeKeepsState(bases, classes, toVisit, visited);
      TakeMakesProgress(bases, classes, toVisit, visited);
      WalkTakes(bases, classes, toVisit, visited);
      var tail := Walk(bases, classes, Rest(bases, toVisit, visited), visited + {c});
      assert mro == prefix + [c] + tail;
      QueueStep(bases, self, mro, prefix, toVisit, visited);
      QueueFrom(bases, classes, self, mro, prefix + [c], Rest(bases, toVisit, visited), visited + {c});
      assert |prefix + toVisit| == 1 + |Appended(bases, mro, |prefix|)|;
    }
  }

  lemma QueueStep(bases: Class -> seq<Class>, self: Class, mro: seq<Class>, prefix: seq<Class>, toVisit: seq<Class>,
                  visited: set<Class>)
    requires toVisit != [] && prefix + [toVisit[0]] <= mro && visited == Elements(prefix)
    requires prefix + toVisit == [self] + Appended(bases, mro, |prefix|)
    ensures visited + {toVisit[0]} == Elements(prefix + [toVisit[0]])
    ensures prefix + [toVisit[0]] + Rest(bases, toVisit, visited) == [self] + Appended(bases, mro, |prefix| + 1)
  {
    hide Appended, Unvisited;
    var c, n := toVisit[0], |prefix|;
    assert mro[..n + 1] == prefix + [c] && mro[n] == c;
    assert Elements(prefix + [c]) == visited + {c};
    AppendedStep(bases, mro, n);
    assert prefix + [c] + Rest(bases, toVisit, visited) == prefix + toVisit + New(bases, mro, n);
  }

  lemma AppendedStep(bases: Class -> seq<Class>, mro: seq<Class>, n: nat)
    requires n < |mro|
    ensures Appended(bases, mro, n + 1) == Appended(bases, mro, n) + New(bases, mro, n)
  {
  }

  lemma MroIsQueue(bases: Class -> seq<Class>, classes: set<Class>, self: Class)
    requires Closed(bases, classes) && self in classes
    ensures IsQueue(bases, self, Mro(bases, classes, self))
  {
    StartState(bases, classes, self);
    var mro := Mro(bases, classes, self);
    assert [] + mro == mro && [] + [self] == [self] + [];
    QueueFrom(bases, classes, self, mro, [], [self], {});
  }

  // Behind the class itself come its bases, in the order in which they are listed.
  lemma BasesComeFirst(bases: Class -> seq<Class>, classes: set<Class>, self: Class)
    requires Closed(bases, classes) && self in classes && self !in bases(self)
    ensures [self] + bases(self) <= Mro(bases, classes, self)
  {
    hide Mro, Appended, Unvisited, Closed;
    var mro := Mro(bases, classes, self);
    MroIsQueue(bases, classes, self);
    assert mro[0] == self && mro[..1] == [self];
    FirstAppended(bases, mro);
    AppendedIsPrefix(bases, mro, 1, |mro|);
  }

  lemma FirstAppended(bases: Class -> seq<Class>, mro: seq<Class>)
    requires mro != [] && mro[0] !in bases(mro[0])
    ensures Appended(bases, mro, 1) == bases(mro[0])
  {
    hide Unvisited;
    var self := mro[0];
    assert forall i :: 0 <= i < |bases(self)| ==> bases(self)[i] in bases(self);
    AllUnvisited(bases(self), {self});
    assert mro[..1] == [self] && Elements([self]) == {self};
    AppendedStep(bases, mro, 0);
  }

  lemma {:induction false} AllUnvisited(bs: seq<Class>, visited: set<Class>)
    requires forall i :: 0 <= i < |bs| ==> bs[i] !in visited
    ensures Unvisited(bs, visited) == bs
  {
    if bs != [] {
      var k := |bs| - 1;
      AllUnvisited(bs[..k], visited);
      assert bs == bs[..k] + [bs[k]];
    }
  }

  lemma {:induction false} AppendedIsPrefix(bases: Class -> seq<Class>, mro: seq<Class>, m: nat, n: nat)
    requires m <= n <= |mro|
    ensures Appended(bases, mro, m) <= Appended(bases, mro, n)
  {
    hide New;
    if m < n {
      AppendedIsPrefix(bases, mro, m, n - 1);
    }
  }

  // Where the k-th class that take `t` appends ends up.
  lemma {:induction false} AppendedAt(bases: Class -> seq<Class>, mro: seq<Class>, t: nat, n: nat, k: nat)
    requires t < n <= |mro| && k < |New(bases, mro, t)|
    ensures |Appended(bases, mro, t)| + k < |Appended(bases, mro, n)|
    ensures Appended(bases, mro, n)[|Appended(bases, mro, t)| + k] == New(bases, mro, t)[k]
  {
    hide New;
    if t < n - 1 {
      AppendedAt(bases, mro, t, n - 1, k);
    }
  }

  lemma {:induction false} AppendedGrows(bases: Class -> seq<Class>, mro: seq<Class>, s: nat, t: nat)
    requires s < t <= |mro|
    ensures |Appended(bases, mro, s)| + |New(bases, mro, s)| <= |Appended(bases, mro, t)|
  {
    hide New;
    if s < t - 1 {
      AppendedGrows(bases, mro, s, t - 1);
    }
  }

  // The take that appended position `m` of the queue.
  lemma {:induction false} AppendedBy(bases: Class -> seq<Class>, mro: seq<Class>, n: nat, m: nat)
    returns (t: nat, k: nat)
    requires n <= |mro| && m < |Appended(bases, mro, n)|
    ensures t < n && k < |New(bases, mro, t)| && m == |Appended(bases, mro, t)| + k
    ensures Appended(bases, mro, n)[m] == New(bases, mro, t)[k]
  {
    hide New;
    if m < |Appended(bases, mro, n - 1)| {
      t, k := AppendedBy(bases, mro, n - 1, m);
    } else {
      t, k := n - 1, m - |Appended(bases, mro, n - 1)|;
    }
  }

  // ----- the order in which a take appends

  // Where the b-th base comes among those appended.
  function Place(bs: seq<Class>, visited: set<Class>, b: nat): nat
    requires b <= |bs|
  {
    |Unvisited(bs[..b], visited)|
  }

  lemma PlaceStep(bs: seq<Class>, visited: set<Class>, b: nat)
    requires b < |bs|
    ensures Unvisited(bs[..b + 1], visited) == Unvisited(bs[..b], visited) + if bs[b] in visited then [] else [bs[b]]
  {
    assert bs[..b + 1][..b] == bs[..b];
  }

  lemma {:induction false} PlaceGrows(bs: seq<Class>, visited: set<Class>, a: nat, b: nat)
    requires a < b <= |bs|
    ensures Place(bs, visited, a) + (if bs[a] in visited then 0 else 1) <= Place(bs, visited, b)
    ensures bs[a] !in visited ==> Unvisited(bs[..b], visited)[Place(bs, visited, a)] == bs[a]
  {
    PlaceStep(bs, visited, b - 1);
    if a < b - 1 {
      PlaceGrows(bs, visited, a, b - 1);
    }
  }

  lemma {:induction false} BaseAt(bs: seq<Class>, visited: set<Class>, n: nat, k: nat) returns (b: nat)
    requires n <= |bs| && k < |Unvisited(bs[..n], visited)|
    ensures b < n && bs[b] !in visited && Place(bs, visited, b) == k && bs[b] == Unvisited(bs[..n], visited)[k]
  {
    PlaceStep(bs, visited, n - 1);
    if k < |Unvisited(bs[..n - 1], visited)| {
      b := BaseAt(bs, visited, n - 1, k);
    } else {
      b := n - 1;
    }
  }

  // The b-th base of take `t`, not yet visited, is yielded at this position.
  function PositionOf(bases: Class -> seq<Class>, mro: seq<Class>, t: nat, b: nat): nat
    requires t < |mro| && b < |bases(mro[t])|
  {
    1 + |Appended(bases, mro, t)| + Place(bases(mro[t]), Elements(mro[..t + 1]), b)
  }

  lemma ListedIsYielded(bases: Class -> seq<Class>, self: Class, mro: seq<Class>, t: nat, b: nat)
    requires IsQueue(bases, self, mro) && t < |mro| && b < |bases(mro[t])| && bases(mro[t])[b] !in mro[..t + 1]
    ensures PositionOf(bases, mro, t, b) < |mro| && mro[PositionOf(bases, mro, t, b)] == bases(mro[t])[b]
    ensures t < PositionOf(bases, mro, t, b)
  {
    hide Appended, Unvisited;
    var bs, visited := bases(mro[t]), Elements(mro[..t + 1]);
    PlaceGrows(bs, visited, b, |bs|);
    assert bs[..|bs|] == bs;
    AppendedAt(bases, mro, t, |mro|, Place(bs, visited, b));
  }

  // What is listed earlier is yielded earlier.
  lemma ListedInOrder(bases: Class -> seq<Class>, mro: seq<Class>, s: nat, a: nat, t: nat, b: nat)
    requires s < |mro| && t < |mro| && a < |bases(mro[s])| && b < |bases(mro[t])|
    requires bases(mro[s])[a] !in mro[..s + 1]
    requires s < t || (s == t && a < b)
    ensures PositionOf(bases, mro, s, a) < PositionOf(bases, mro, t, b)
  {
    hide Appended, Unvisited;
    var bs, visited := bases(mro[s]), Elements(mro[..s + 1]);
    if s < t {
      PlaceGrows(bs, visited, a, |bs|);
      assert bs[..|bs|] == bs;
      AppendedGrows(bases, mro, s, t);
    } else {
      PlaceGrows(bs, visited, a, b);
    }
  }

  // Every position but the first was listed by an earlier take.
  lemma YieldedIsListed(bases: Class -> seq<Class>, self: Class, mro: seq<Class>, j: nat) returns (t: nat, b: nat)
    requires IsQueue(bases, self, mro) && 0 < j < |mro|
    ensures t < j && b < |bases(mro[t])| && bases(mro[t])[b] == mro[j] && mro[j] !in mro[..t + 1]
    ensures PositionOf(bases, mro, t, b) == j
  {
    hide Appended, Unvisited;
    var k;
    t, k := AppendedBy(bases, mro, |mro|, j - 1);
    var bs, visited := bases(mro[t]), Elements(mro[..t + 1]);
    assert bs[..|bs|] == bs;
    b := BaseAt(bs, visited, |bs|, k);
    assert t < 1 + |Appended(bases, mro, t)|;
  }

  // ----- repeats

  // How often `c` is listed among the bases of these classes.
  function Listings(bases: Class -> seq<Class>, cs: seq<Class>, c: Class): nat {
    if cs == [] then 0 else multiset(bases(cs[0]))[c] + Listings(bases, cs[1..], c)
  }

  // The position of the first appearance, or the length.
  function First(cs: seq<Class>, c: Class): (i: nat)
    ensures i <= |cs| && (i < |cs| ==> cs[i] == c)
  {
    if cs == [] || cs[0] == c then 0 else 1 + First(cs[1..], c)
  }

  lemma {:induction false} UnvisitedCount(bs: seq<Class>, visited: set<Class>, c: Class)
    ensures multiset(Unvisited(bs, visited))[c] == if c in visited then 0 else multiset(bs)[c]
  {
    if bs != [] {
      var k := |bs| - 1;
      UnvisitedCount(bs[..k], visited, c);
      assert bs == bs[..k] + [bs[k]];
    }
  }

  lemma RestCount(bases: Class -> seq<Class>, toVisit: seq<Class>, visited: set<Class>, c: Class)
    requires toVisit != []
    ensures multiset(Rest(bases, toVisit, visited))[c]
            == multiset(toVisit)[c] - (if c == toVisit[0] then 1 else 0)
               + if c in visited || c == toVisit[0] then 0 else multiset(bases(toVisit[0]))[c]
  {
    hide Unvisited;
    UnvisitedCount(bases(toVisit[0]), visited + {toVisit[0]}, c);
    assert toVisit == [toVisit[0]] + toVisit[1..];
  }

  // What one more class in front changes.
  lemma TakeCount(bases: Class -> seq<Class>, x: Class, tail: seq<Class>, c: Class)
    ensures var walk := [x] + tail;
            && multiset(walk)[c] == multiset(tail)[c] + (if x == c then 1 else 0)
            && Listings(bases, walk[..First(walk, c)], c)
               == if x == c then 0 else multiset(bases(x))[c] + Listings(bases, tail[..First(tail, c)], c)
  {
    var walk := [x] + tail;
    assert walk[1..] == tail;
    if x != c {
      assert walk[..First(walk, c)] == [x] + tail[..First(tail, c)];
      assert (walk[..First(walk, c)])[1..] == tail[..First(tail, c)];
    }
  }

  lemma {:induction false} WalkCount(bases: Class -> seq<Class>, classes: set<Class>, toVisit: seq<Class>,
                                     visited: set<Class>, c: Class)
    requires WalkState(bases, classes, toVisit, visited)
    ensures var walk := Walk(bases, classes, toVisit, visited);
            multiset(walk)[c]
            == multiset(toVisit)[c] + if c in visited then 0 else Listings(bases, walk[..First(walk, c)], c)
    decreases |classes - visited|, Stale(toVisit, visited)
  {
    hide WalkState, Rest, Listings, First;
    if toVisit == [] {
      WalkOfNothing(bases, classes, visited);
      NoListings(bases, c);
    } else {
      var x := toVisit[0];
      TakeKeepsState(bases, classes, toVisit, visited);
      TakeMakesProgress(bases, classes, toVisit, visited);
      WalkTakes(bases, classes, toVisit, visited);
      WalkCount(bases, classes, Rest(bases, toVisit, visited), visited + {x}, c);
      RestCount(bases, toVisit, visited, c);
      var tail := Walk(bases, classes, Rest(bases, toVisit, visited), visited + {x});
      TakeCount(bases, x, tail, c);
    }
  }

  lemma NoListings(bases: Class -> seq<Class>, c: Class)
    ensures Listings(bases, [], c) == 0
  {
  }

  // A class is yielded as often as it is listed among the bases of what is taken before it is
  // first taken; the class itself is yielded once.
  lemma YieldedAsListed(bases: Class -> seq<Class>, classes: set<Class>, self: Class, c: Class)
    requires Closed(bases, classes) && self in classes
    ensures var mro := Mro(bases, classes, self);
            multiset(mro)[c] == if c == self then 1 else Listings(bases, mro[..First(mro, c)], c)
  {
    StartState(bases, classes, self);
    WalkTakes0(bases, classes, self);
    WalkCount(bases, classes, [self], {}, c);
  }

  lemma WalkTakes0(bases: Class -> seq<Class>, classes: set<Class>, self: Class)
    requires Closed(bases, classes) && self in classes
    ensures First(Mro(bases, classes, self), self) == 0
  {
    StartState(bases, classes, self);
    TakeKeepsState(bases, classes, [self], {});
    WalkTakes(bases, classes, [self], {});
  }

  lemma OnceIsNoRepeat(cs: seq<Class>)
    ensures NoRepeats(cs) <==> forall c :: c in cs ==> multiset(cs)[c] == 1
  {
    hide NoRepeats;
    if NoRepeats(cs) {
      forall c | c in cs ensures multiset(cs)[c] == 1 {
        CountedOnce(cs, c);
      }
    } else {
      var i, j := Repeat(cs);
      CountedTwice(cs, i, j);
      assert cs[i] in cs;
    }
  }

  lemma Repeat(cs: seq<Class>) returns (i: nat, j: nat)
    requires !NoRepeats(cs)
    ensures i < j < |cs| && cs[i] == cs[j]
  {
    i, j :| 0 <= i < j < |cs| && cs[i] == cs[j];
  }

  lemma CountedOnce(cs: seq<Class>, c: Class)
    requires NoRepeats(cs) && c in cs
    ensures multiset(cs)[c] == 1
  {
    var i :| 0 <= i < |cs| && cs[i] == c;
    assert cs == cs[..i] + [c] + cs[i + 1..];
    assert c !in cs[..i] && c !in cs[i + 1..];
  }

  lemma CountedTwice(cs: seq<Class>, i: nat, j: nat)
    requires i < j < |cs| && cs[i] == cs[j]
    ensures multiset(cs)[cs[i]] > 1
  {
    assert cs == cs[..i] + [cs[i]] + cs[i + 1..j] + [cs[j]] + cs[j + 1..];
  }

  // No class is yielded twice exactly when each one is listed once among the bases of what is
  // taken before it.
  lemma NoRepeatsExactly(bases: Class -> seq<Class>, classes: set<Class>, self: Class)
    requires Closed(bases, classes) && self in classes
    ensures var mro := Mro(bases, classes, self);
            NoRepeats(mro)
            <==> forall c :: c in mro && c != self ==> Listings(bases, mro[..First(mro, c)], c) == 1
  {
    hide Mro, Listings, First, NoRepeats;
    var mro := Mro(bases, classes, self);
    OnceIsNoRepeat(mro);
    forall c
      ensures multiset(mro)[c] == if c == self then 1 else Listings(bases, mro[..First(mro, c)], c)
    {
      YieldedAsListed(bases, classes, self, c);
    }
  }

  // ----- order

  ghost predicate AsFar(bases: Class -> seq<Class>, self: Class, c: Class, x: Class) {
    exists d: nat :: Distance(bases, self, c, d) && Distance(bases, self, x, d)
  }

  ghost predicate OneFarther(bases: Class -> seq<Class>, self: Class, y: Class, x: Class) {
    exists d: nat :: Distance(bases, self, x, d) && Distance(bases, self, y, d + 1)
  }

  // The a-th base of take `s` is one level farther than take `t`.
  ghost predicate ListsFarther(bases: Class -> seq<Class>, self: Class, mro: seq<Class>, t: nat, s: nat, a: nat) {
    t < |mro| && s < |mro| && a < |bases(mro[s])| && OneFarther(bases, self, bases(mro[s])[a], mro[t])
  }

  // Take `t` appends its b-th base, which is as far away as the class taken, after a class one
  // level farther has been listed.
  ghost predicate AppendsLate(bases: Class -> seq<Class>, self: Class, mro: seq<Class>, t: nat, b: nat) {
    && t < |mro| && b < |bases(mro[t])|
    && bases(mro[t])[b] !in mro[..t + 1]
    && AsFar(bases, self, bases(mro[t])[b], mro[t])
    && exists s: nat, a: nat :: (s < t || (s == t && a < b)) && ListsFarther(bases, self, mro, t, s, a)
  }

  ghost predicate ByDistance(bases: Class -> seq<Class>, self: Class, mro: seq<Class>) {
    forall i, j, d: nat, e: nat ::
      0 <= i < j < |mro| && Distance(bases, self, mro[i], d) && Distance(bases, self, mro[j], e) ==> d <= e
  }

  // What is known of any resolution order.
  ghost predicate IsOrder(bases: Class -> seq<Class>, self: Class, mro: seq<Class>) {
    && IsQueue(bases, self, mro)
    && (forall i :: 0 <= i < |mro| ==> HasDistance(bases, self, mro[i]))
    && (forall i, j, d: nat, e: nat ::
          0 <= i < j < |mro| && Distance(bases, self, mro[i], d) && Distance(bases, self, mro[j], e)
          ==> d <= e + 1 && (mro[j] !in mro[..j] ==> d <= e))
  }

  ghost predicate HasDistance(bases: Class -> seq<Class>, self: Class, c: Class) {
    exists d: nat :: Distance(bases, self, c, d)
  }

  lemma {:induction false} ReachedHasDistance(bases: Class -> seq<Class>, self: Class, c: Class, n: nat)
    requires ReachIn(bases, self, c, n)
    ensures HasDistance(bases, self, c)
  {
    hide ReachIn;
    if k: nat :| k < n && ReachIn(bases, self, c, k) {
      ReachedHasDistance(bases, self, c, k);
    } else {
      assert Distance(bases, self, c, n);
    }
  }

  lemma MroIsOrder(bases: Class -> seq<Class>, classes: set<Class>, self: Class)
    requires Closed(bases, classes) && self in classes
    ensures IsOrder(bases, self, Mro(bases, classes, self))
  {
    hide Mro, Distance, ReachIn, HasDistance, IsQueue;
    var mro := Mro(bases, classes, self);
    MroIsQueue(bases, classes, self);
    MroIsByDistance(bases, classes, self);
    forall i | 0 <= i < |mro| ensures HasDistance(bases, self, mro[i]) {
      var c := mro[i];
      assert c in mro && Ancestor(bases, self, c);
      var n: nat :| ReachIn(bases, self, c, n);
      ReachedHasDistance(bases, self, c, n);
    }
  }

  // A base is at most one level farther.
  lemma BaseDistance(bases: Class -> seq<Class>, self: Class, x: Class, b: Class, d: nat, e: nat)
    requires Distance(bases, self, x, d) && Distance(bases, self, b, e) && b in bases(x)
    ensures e <= d + 1
  {
    assert ReachIn(bases, self, b, d + 1);
  }

  lemma OutOfOrder(bases: Class -> seq<Class>, self: Class, mro: seq<Class>, i: nat, j: nat, d: nat)
    requires i < j < |mro| && Distance(bases, self, mro[i], d + 1) && Distance(bases, self, mro[j], d)
    ensures !ByDistance(bases, self, mro)
  {
    hide Distance;
  }

  lemma LateAppend(bases: Class -> seq<Class>, self: Class, mro: seq<Class>, t: nat, b: nat)
    returns (s: nat, a: nat, d: nat)
    requires AppendsLate(bases, self, mro, t, b)
    ensures t < |mro| && b < |bases(mro[t])| && bases(mro[t])[b] !in mro[..t + 1]
    ensures s < |mro| && a < |bases(mro[s])| && (s < t || (s == t && a < b))
    ensures Distance(bases, self, bases(mro[t])[b], d) && Distance(bases, self, bases(mro[s])[a], d + 1)
  {
    hide Distance;
    s, a :| (s < t || (s == t && a < b)) && ListsFarther(bases, self, mro, t, s, a);
    d :| Distance(bases, self, bases(mro[t])[b], d) && Distance(bases, self, mro[t], d);
    var d': nat :| Distance(bases, self, mro[t], d') && Distance(bases, self, bases(mro[s])[a], d' + 1);
    DistanceUnique(bases, self, mro[t], d, d');
  }

  // A class appended late is yielded behind the class one level farther.
  lemma LateBreaksOrder(bases: Class -> seq<Class>, self: Class, mro: seq<Class>, t: nat, b: nat)
    requires IsOrder(bases, self, mro) && AppendsLate(bases, self, mro, t, b)
    ensures !ByDistance(bases, self, mro)
  {
    hide IsQueue, Distance, ByDistance, PositionOf, AppendsLate;
    var s, a, d := LateAppend(bases, self, mro, t, b);
    ListedIsYielded(bases, self, mro, t, b);
    var j := PositionOf(bases, mro, t, b);
    var y := bases(mro[s])[a];
    if y in mro[..s + 1] {
      var i :| 0 <= i < s + 1 && mro[i] == y;
      OutOfOrder(bases, self, mro, i, j, d);
    } else {
      ListedIsYielded(bases, self, mro, s, a);
      ListedInOrder(bases, mro, s, a, t, b);
      OutOfOrder(bases, self, mro, PositionOf(bases, mro, s, a), j, d);
    }
  }

  // From a pair out of order, back to a take that appends late.
  lemma {:induction false} BrokenOrderIsLate(bases: Class -> seq<Class>, self: Class, mro: seq<Class>, i: nat, j: nat,
                                             d: nat)
    returns (t: nat, b: nat)
    requires IsOrder(bases, self, mro) && i < j < |mro|
    requires Distance(bases, self, mro[i], d + 1) && Distance(bases, self, mro[j], d)
    ensures AppendsLate(bases, self, mro, t, b)
    decreases j
  {
    hide IsOrder, IsQueue, Distance, AppendsLate, PositionOf;
    StartDistance(bases, self, mro, i, d);
    var s, a := YieldedIsListed(bases, self, mro, i);
    t, b := YieldedIsListed(bases, self, mro, j);
    TakesInOrder(bases, mro, s, a, t, b);
    var ds := DistanceAt(bases, self, mro, s);
    var dt := DistanceAt(bases, self, mro, t);
    FirstBehind(bases, self, mro, s, j, ds, d);
    FirstBehind(bases, self, mro, t, j, dt, d);
    BaseDistance(bases, self, mro[s], mro[i], ds, d + 1);
    BaseDistance(bases, self, mro[t], mro[j], dt, d);
    if dt == d {
      IsLate(bases, self, mro, t, b, s, a, d);
    } else {
      if s == t {
        DistanceUnique(bases, self, mro[s], ds, dt);
      }
      t, b := BrokenOrderIsLate(bases, self, mro, s, t, dt);
    }
  }

  lemma IsLate(bases: Class -> seq<Class>, self: Class, mro: seq<Class>, t: nat, b: nat, s: nat, a: nat, d: nat)
    requires t < |mro| && b < |bases(mro[t])| && bases(mro[t])[b] !in mro[..t + 1]
    requires s < |mro| && a < |bases(mro[s])| && (s < t || (s == t && a < b))
    requires Distance(bases, self, mro[t], d) && Distance(bases, self, bases(mro[t])[b], d)
    requires Distance(bases, self, bases(mro[s])[a], d + 1)
    ensures AppendsLate(bases, self, mro, t, b)
  {
    hide Distance;
    assert ListsFarther(bases, self, mro, t, s, a);
  }

  lemma DistanceAt(bases: Class -> seq<Class>, self: Class, mro: seq<Class>, i: nat) returns (d: nat)
    requires IsOrder(bases, self, mro) && i < |mro|
    ensures Distance(bases, self, mro[i], d)
  {
    hide IsQueue, Distance;
    assert HasDistance(bases, self, mro[i]);
    d :| Distance(bases, self, mro[i], d);
  }

  // The class itself stands first and is at distance 0.
  lemma StartDistance(bases: Class -> seq<Class>, self: Class, mro: seq<Class>, i: nat, d: nat)
    requires IsOrder(bases, self, mro) && i < |mro| && Distance(bases, self, mro[i], d + 1)
    ensures IsQueue(bases, self, mro) && i > 0
  {
    assert ReachIn(bases, self, self, 0);
    assert mro[0] == self;
  }

  lemma TakesInOrder(bases: Class -> seq<Class>, mro: seq<Class>, s: nat, a: nat, t: nat, b: nat)
    requires s < |mro| && t < |mro| && a < |bases(mro[s])| && b < |bases(mro[t])|
    requires bases(mro[t])[b] !in mro[..t + 1]
    requires PositionOf(bases, mro, s, a) < PositionOf(bases, mro, t, b)
    ensures s < t || (s == t && a < b)
  {
    hide PositionOf;
    if t < s || (t == s && b < a) {
      ListedInOrder(bases, mro, t, b, s, a);
    }
  }

  // What is taken before a class is first taken is no farther away.
  lemma FirstBehind(bases: Class -> seq<Class>, self: Class, mro: seq<Class>, t: nat, j: nat, e: nat, d: nat)
    requires IsOrder(bases, self, mro) && t < j < |mro| && mro[j] !in mro[..t + 1]
    requires Distance(bases, self, mro[t], e) && Distance(bases, self, mro[j], d)
    ensures e <= d
  {
    hide IsQueue, Distance;
    var f := First(mro, mro[j]);
    FirstIsFirst(mro, mro[j]);
    assert f <= j && t < f && mro[f] == mro[j];
  }

  lemma {:induction false} FirstIsFirst(cs: seq<Class>, c: Class)
    ensures c !in cs[..First(cs, c)]
    ensures forall i :: 0 <= i < |cs| && cs[i] == c ==> First(cs, c) <= i
  {
    if cs != [] && cs[0] != c {
      FirstIsFirst(cs[1..], c);
      var k := First(cs[1..], c);
      assert cs[..k + 1] == [cs[0]] + cs[1..][..k];
      forall i | 0 <= i < |cs| && cs[i] == c ensures k + 1 <= i {
        assert i > 0 && cs[1..][i - 1] == c;
      }
    }
  }

  // The whole order goes by distance exactly when no take appends a base as far away as itself
  // after a class one level farther has been listed.
  lemma ByDistanceExactly(bases: Class -> seq<Class>, classes: set<Class>, self: Class)
    requires Closed(bases, classes) && self in classes
    ensures var mro := Mro(bases, classes, self);
            ByDistance(bases, self, mro) <==> forall t: nat, b: nat :: !AppendsLate(bases, self, mro, t, b)
  {
    hide Mro, AppendsLate, IsOrder;
    var mro := Mro(bases, classes, self);
    MroIsOrder(bases, classes, self);
    if t: nat, b: nat :| AppendsLate(bases, self, mro, t, b) {
      LateBreaksOrder(bases, self, mro, t, b);
    }
    if !ByDistance(bases, self, mro) {
      var i, j, d: nat, e: nat :|
        0 <= i < j < |mro| && Distance(bases, self, mro[i], d) && Distance(bases, self, mro[j], e) && d > e;
      OneLevelOff(bases, self, mro, i, j, d, e);
      var t, b := BrokenOrderIsLate(bases, self, mro, i, j, e);
    }
  }

  lemma OneLevelOff(bases: Class -> seq<Class>, self: Class, mro: seq<Class>, i: nat, j: nat, d: nat, e: nat)
    requires IsOrder(bases, self, mro) && i < j < |mro|
    requires Distance(bases, self, mro[i], d) && Distance(bases, self, mro[j], e)
    ensures d <= e + 1
  {
    hide IsQueue, Distance;
  }

  // In particular it does when no ancestor has a base that is as far away as itself.
  lemma ByDistanceWithoutLevelBases(bases: Class -> seq<Class>, classes: set<Class>, self: Class)
    requires Closed(bases, classes) && self in classes
    requires forall x, c :: Ancestor(bases, self, x) && c in bases(x) ==> !AsFar(bases, self, c, x)
    ensures ByDistance(bases, self, Mro(bases, classes, self))
  {
    hide Mro, AsFar, Ancestor, ByDistance;
    var mro := Mro(bases, classes, self);
    ByDistanceExactly(bases, classes, self);
    MroIsByDistance(bases, classes, self);
    forall t: nat, b: nat
      ensures !AppendsLate(bases, self, mro, t, b)
    {
      if t < |mro| && b < |bases(mro[t])| {
        var x := mro[t];
        assert x in mro && bases(x)[b] in bases(x);
      }
    }
  }

  // ----- repeats, on the graph

  // Two places where `c` is listed as a base: the a-th of `x` and the b-th of `y`.
  predicate TwoPlaces(bases: Class -> seq<Class>, c: Class, x: Class, a: nat, y: Class, b: nat) {
    && (x != y || a != b)
    && a < |bases(x)| && bases(x)[a] == c
    && b < |bases(y)| && bases(y)[b] == c
  }

  // Classes at distance `n` at most list `c` twice.
  ghost predicate ListedTwiceWithin(bases: Class -> seq<Class>, self: Class, c: Class, n: nat) {
    exists x, e: nat, a: nat, y, e': nat, b: nat ::
      Distance(bases, self, x, e) && Distance(bases, self, y, e') && e <= n && e' <= n
      && TwoPlaces(bases, c, x, a, y, b)
  }

  // Classes at distance `n` do.
  ghost predicate ListedTwiceAt(bases: Class -> seq<Class>, self: Class, c: Class, n: nat) {
    exists x, a: nat, y, b: nat ::
      Distance(bases, self, x, n) && Distance(bases, self, y, n) && TwoPlaces(bases, c, x, a, y, b)
  }

  // A class that comes twice is listed twice, or what lists it comes twice, earlier.
  lemma {:induction false} RepeatIsListed(bases: Class -> seq<Class>, self: Class, mro: seq<Class>, i: nat, j: nat)
    returns (c: Class, d: nat)
    requires IsOrder(bases, self, mro) && i < j < |mro| && mro[i] == mro[j]
    ensures c != self && Distance(bases, self, c, d) && ListedTwiceWithin(bases, self, c, d)
    decreases j
  {
    hide IsOrder, IsQueue, Distance, PositionOf, ListedTwiceWithin;
    OrderIsQueue(bases, self, mro);
    var t, b := YieldedIsListed(bases, self, mro, j);
    NotAtStart(mro, i, j, t);
    var s, a := YieldedIsListed(bases, self, mro, i);
    if mro[s] == mro[t] && s != t {
      c, d := RepeatIsListed(bases, self, mro, if s < t then s else t, if s < t then t else s);
    } else {
      c := mro[j];
      assert mro[0] in mro[..t + 1] by { assert mro[..t + 1][0] == mro[0]; }
      d := DistanceAt(bases, self, mro, j);
      var e := DistanceAt(bases, self, mro, s);
      var e' := DistanceAt(bases, self, mro, t);
      FirstBehind(bases, self, mro, s, i, e, d);
      FirstBehind(bases, self, mro, t, j, e', d);
      TwiceWithin(bases, self, c, d, mro[s], e, a, mro[t], e', b);
    }
  }

  lemma OrderIsQueue(bases: Class -> seq<Class>, self: Class, mro: seq<Class>)
    requires IsOrder(bases, self, mro)
    ensures IsQueue(bases, self, mro) && mro != [] && mro[0] == self
  {
    hide Appended;
  }

  lemma NotAtStart(mro: seq<Class>, i: nat, j: nat, t: nat)
    requires i < j < |mro| && t < j && mro[i] == mro[j] && mro[j] !in mro[..t + 1]
    ensures i > 0
  {
    assert mro[..t + 1][0] == mro[0];
  }

  lemma TwiceWithin(bases: Class -> seq<Class>, self: Class, c: Class, n: nat, x: Class, e: nat, a: nat, y: Class,
                    e': nat, b: nat)
    requires Distance(bases, self, x, e) && Distance(bases, self, y, e') && e <= n && e' <= n
    requires TwoPlaces(bases, c, x, a, y, b)
    ensures ListedTwiceWithin(bases, self, c, n)
  {
    hide Distance, TwoPlaces;
  }

  // When a class is first taken, none of the classes one level farther has been.
  lemma NotYet(bases: Class -> seq<Class>, self: Class, mro: seq<Class>, x: Class, c: Class, n: nat)
    requires IsOrder(bases, self, mro) && x in mro
    requires Distance(bases, self, x, n) && Distance(bases, self, c, n + 1)
    ensures First(mro, x) < |mro| && mro[First(mro, x)] == x && c !in mro[..First(mro, x) + 1]
  {
    hide IsOrder, Distance;
    FirstIsFirst(mro, x);
    var f := First(mro, x);
    if i :| 0 <= i < f + 1 && mro[i] == c {
      if i == f {
        DistanceUnique(bases, self, c, n, n + 1);
      } else {
        NotBefore(mro, f, i);
        FirstBehind(bases, self, mro, i, f, n + 1, n);
      }
    }
  }

  lemma NotBefore(mro: seq<Class>, f: nat, i: nat)
    requires i < f < |mro| && mro[f] !in mro[..f]
    ensures mro[f] !in mro[..i + 1]
  {
    assert mro[..i + 1] == mro[..f][..i + 1];
  }

  // Each of the two listings puts the class into the order.
  lemma ListedTwiceRepeats(bases: Class -> seq<Class>, self: Class, mro: seq<Class>, c: Class, n: nat)
    requires IsOrder(bases, self, mro) && (forall x :: x in mro <==> Ancestor(bases, self, x))
    requires Distance(bases, self, c, n + 1) && ListedTwiceAt(bases, self, c, n)
    ensures !NoRepeats(mro)
  {
    hide IsOrder, IsQueue, Distance, PositionOf, Ancestor;
    var x, a: nat, y, b: nat :|
      Distance(bases, self, x, n) && Distance(bases, self, y, n) && TwoPlaces(bases, c, x, a, y, b);
    OrderIsQueue(bases, self, mro);
    DistantIsAncestor(bases, self, x, n);
    DistantIsAncestor(bases, self, y, n);
    NotYet(bases, self, mro, x, c, n);
    NotYet(bases, self, mro, y, c, n);
    var s, t := First(mro, x), First(mro, y);
    ListedIsYielded(bases, self, mro, s, a);
    ListedIsYielded(bases, self, mro, t, b);
    if s < t || (s == t && a < b) {
      ListedInOrder(bases, mro, s, a, t, b);
    } else {
      ListedInOrder(bases, mro, t, b, s, a);
    }
  }

  lemma DistantIsAncestor(bases: Class -> seq<Class>, self: Class, x: Class, n: nat)
    requires Distance(bases, self, x, n)
    ensures Ancestor(bases, self, x)
  {
  }

  // On the graph: nothing is yielded twice if no class is listed twice by classes that are no farther
  // away than it is, and only if none is by classes that are one level nearer. Where no class has a
  // base as far away as itself, the two are the same.
  lemma NoRepeatsOnGraph(bases: Class -> seq<Class>, classes: set<Class>, self: Class)
    requires Closed(bases, classes) && self in classes
    ensures (forall c, d: nat :: c != self && Distance(bases, self, c, d) ==> !ListedTwiceWithin(bases, self, c, d))
            ==> NoRepeats(Mro(bases, classes, self))
    ensures NoRepeats(Mro(bases, classes, self))
            ==> forall c, n: nat :: ListedTwiceAt(bases, self, c, n) ==> !Distance(bases, self, c, n + 1)
    ensures (forall x, c :: Ancestor(bases, self, x) && c in bases(x) ==> !AsFar(bases, self, c, x))
            ==> (NoRepeats(Mro(bases, classes, self))
                 <==> forall c, n: nat :: ListedTwiceAt(bases, self, c, n) ==> !Distance(bases, self, c, n + 1))
  {
    hide Mro, Distance, IsOrder, ListedTwiceWithin, ListedTwiceAt, Ancestor, AsFar, NoRepeats;
    var mro := Mro(bases, classes, self);
    MroIsOrder(bases, classes, self);
    MroIsByDistance(bases, classes, self);
    if !NoRepeats(mro) {
      var i, j := Repeat(mro);
      var c, d := RepeatIsListed(bases, self, mro, i, j);
      if forall x, c :: Ancestor(bases, self, x) && c in bases(x) ==> !AsFar(bases, self, c, x) {
        var n := WithinIsAt(bases, self, c, d);
      }
    } else {
      forall c, n: nat | ListedTwiceAt(bases, self, c, n)
        ensures !Distance(bases, self, c, n + 1)
      {
        if Distance(bases, self, c, n + 1) {
          ListedTwiceRepeats(bases, self, mro, c, n);
        }
      }
    }
  }

  lemma WithinIsAt(bases: Class -> seq<Class>, self: Class, c: Class, d: nat) returns (n: nat)
    requires c != self && Distance(bases, self, c, d) && ListedTwiceWithin(bases, self, c, d)
    requires forall x, c :: Ancestor(bases, self, x) && c in bases(x) ==> !AsFar(bases, self, c, x)
    ensures d == n + 1 && ListedTwiceAt(bases, self, c, n)
  {
    hide Distance, Ancestor, AsFar;
    var x, e: nat, a: nat, y, e': nat, b: nat :|
      Distance(bases, self, x, e) && Distance(bases, self, y, e') && e <= d && e' <= d
      && TwoPlaces(bases, c, x, a, y, b);
    OneNearer(bases, self, c, d, x, e);
    OneNearer(bases, self, c, d, y, e');
    n := e;
  }

  lemma OneNearer(bases: Class -> seq<Class>, self: Class, c: Class, d: nat, x: Class, e: nat)
    requires Distance(bases, self, c, d) && Distance(bases, self, x, e) && e <= d && c in bases(x)
    requires forall x, c :: Ancestor(bases, self, x) && c in bases(x) ==> !AsFar(bases, self, c, x)
    ensures d == e + 1
  {
    hide Distance, Ancestor;
    DistantIsAncestor(bases, self, x, e);
    BaseDistance(bases, self, x, c, e, d);
    assert d == e ==> AsFar(bases, self, c, x);
  }
}
