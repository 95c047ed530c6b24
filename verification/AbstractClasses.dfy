// Whether the search for pure virtual methods answers what C++ asks of a class.
module AbstractClasses {
  import opened Inheritance
  import opened PureVirtuals
  import opened ResolutionOrder

  // ----- the rule of C++

  ghost predicate Derived(bases: Class -> seq<Class>, g: Class, f: Class) {
    g != f && Ancestor(bases, g, f)
  }

  predicate SameInCpp(a: Method, b: Method) {
    a.name == b.name && a.types == b.types && a.isConst == b.isConst
  }

  // A class that is derived from `f`, and is `self` or a base of it, declares the method again;
  // whether it says that it is virtual does not matter.
  ghost predicate Overridden(bases: Class -> seq<Class>, methods: Class -> seq<Method>, self: Class, f: Class,
                             m: Method)
  {
    exists g, j ::
      Ancestor(bases, self, g) && Derived(bases, g, f) && 0 <= j < |methods(g)| && SameInCpp(methods(g)[j], m)
  }

  ghost predicate PureOverrider(bases: Class -> seq<Class>, methods: Class -> seq<Method>, self: Class, f: Class,
                                k: nat)
  {
    && Ancestor(bases, self, f) && k < |methods(f)| && methods(f)[k].isPure
    && !Overridden(bases, methods, self, f, methods(f)[k])
  }

  // Sections 10.3 and 10.4 of ISO/IEC 14882:2003, every base being there once: a class is abstract
  // if some final overrider in it is pure.
  ghost predicate HasPureOverrider(bases: Class -> seq<Class>, methods: Class -> seq<Method>, self: Class) {
    exists f, k: nat :: PureOverrider(bases, methods, self, f, k)
  }

  // ----- what the binding has to say right

  // `k` is a method of `f`, one of the classes looked at.
  ghost predicate MethodOf(bases: Class -> seq<Class>, methods: Class -> seq<Method>, self: Class, f: Class, k: nat) {
    Ancestor(bases, self, f) && k < |methods(f)|
  }

  ghost predicate NamedAlike(bases: Class -> seq<Class>, methods: Class -> seq<Method>, self: Class) {
    forall f, k: nat, g, j: nat :: MethodOf(bases, methods, self, f, k) && MethodOf(bases, methods, self, g, j) ==>
      (MatchesSignature(methods(g)[j], methods(f)[k]) <==> SameInCpp(methods(g)[j], methods(f)[k]))
  }

  ghost predicate OverridersFlagged(bases: Class -> seq<Class>, methods: Class -> seq<Method>, self: Class) {
    forall f, k: nat, g, j: nat :: MethodOf(bases, methods, self, f, k) && MethodOf(bases, methods, self, g, j) ==>
      methods(f)[k].isPure && Derived(bases, g, f) && SameInCpp(methods(g)[j], methods(f)[k]) ==>
        methods(g)[j].isVirtual
  }

  // Methods have the same signature for the binding exactly when they have for C++, and what
  // declares a pure virtual method of a base again is flagged virtual.
  ghost predicate Declared(bases: Class -> seq<Class>, methods: Class -> seq<Method>, self: Class) {
    NamedAlike(bases, methods, self) && OverridersFlagged(bases, methods, self)
  }

  // ----- the search, class by class

  predicate MatchedBefore(methods: Class -> seq<Method>, mro: seq<Class>, i: nat, m: Method)
    requires i <= |mro|
  {
    exists j :: 0 <= j < i && FirstMatch(methods(mro[j]), m).Some?
  }

  predicate PureAt(methods: Class -> seq<Method>, mro: seq<Class>, i: nat, k: nat) {
    && i < |mro| && k < |methods(mro[i])| && methods(mro[i])[k].isPure
    && !MatchedBefore(methods, mro, i, methods(mro[i])[k])
  }

  lemma BeforeIsBelow(methods: Class -> seq<Method>, mro: seq<Class>, i: nat, m: Method)
    requires i < |mro|
    ensures Redeclared(Levels(methods, mro), |mro| - 1 - i, m) <==> MatchedBefore(methods, mro, i, m)
  {
    hide FirstMatch;
    var levels, n := Levels(methods, mro), |mro|;
    if q :| n - 1 - i < q < n && FirstMatch(levels[q], m).Some? {
      assert levels[q] == methods(mro[n - 1 - q]);
    }
    if j :| 0 <= j < i && FirstMatch(methods(mro[j]), m).Some? {
      assert levels[n - 1 - j] == methods(mro[j]);
    }
  }

  lemma LeftPureAt(methods: Class -> seq<Method>, mro: seq<Class>)
    ensures LeftPure(Levels(methods, mro)) <==> exists i: nat, k: nat :: PureAt(methods, mro, i, k)
  {
    hide Redeclared, MatchedBefore, LeftPure;
    var levels, n := Levels(methods, mro), |mro|;
    LeftPureIsAbstract(levels);
    if pos, k :| 0 <= pos < |levels| && 0 <= k < |levels[pos]| && levels[pos][k].isPure
                 && !Redeclared(levels, pos, levels[pos][k]) {
      BeforeIsBelow(methods, mro, n - 1 - pos, levels[pos][k]);
      assert PureAt(methods, mro, n - 1 - pos, k);
    }
    if i: nat, k: nat :| PureAt(methods, mro, i, k) {
      BeforeIsBelow(methods, mro, i, methods(mro[i])[k]);
      assert levels[n - 1 - i][k].isPure && !Redeclared(levels, n - 1 - i, levels[n - 1 - i][k]);
    }
  }

  // ----- when they agree

  ghost predicate OrderedPair(bases: Class -> seq<Class>, mro: seq<Class>, g: Class, f: Class) {
    First(mro, g) < First(mro, f) <==> Derived(bases, g, f)
  }

  // Of any two classes of the order, the one that comes first is derived from the other.
  ghost predicate ByDerivation(bases: Class -> seq<Class>, mro: seq<Class>) {
    forall g, f :: g in mro && f in mro && g != f ==> OrderedPair(bases, mro, g, f)
  }

  ghost predicate AnswersRight(bases: Class -> seq<Class>, classes: set<Class>, self: Class,
                               methods: Class -> seq<Method>)
    requires Closed(bases, classes) && self in classes
  {
    LeftPure(Levels(methods, Mro(bases, classes, self))) <==> HasPureOverrider(bases, methods, self)
  }

  lemma {:induction false} FlaggedIsMatched(methods: seq<Method>, j: nat, m: Method)
    requires j < |methods| && methods[j].isVirtual && MatchesSignature(methods[j], m)
    ensures FirstMatch(methods, m).Some?
  {
    hide MatchesSignature;
    if j > 0 {
      FlaggedIsMatched(methods[1..], j - 1, m);
    }
  }

  // A pure declaration that nothing before it matches is a final overrider.
  lemma PureIsOverrider(bases: Class -> seq<Class>, methods: Class -> seq<Method>, self: Class, mro: seq<Class>, i: nat,
                        k: nat)
    requires ByDerivation(bases, mro) && (forall c :: c in mro <==> Ancestor(bases, self, c))
    requires Declared(bases, methods, self) && PureAt(methods, mro, i, k)
    ensures PureOverrider(bases, methods, self, mro[i], k)
  {
    hide Ancestor, FirstMatch, MatchesSignature, SameInCpp, NamedAlike, OverridersFlagged, ByDerivation;
    var f, m := mro[i], methods(mro[i])[k];
    FirstIsFirst(mro, f);
    assert MethodOf(bases, methods, self, f, k);
    forall g, j: nat | Ancestor(bases, self, g) && Derived(bases, g, f) && j < |methods(g)|
      ensures !SameInCpp(methods(g)[j], m)
    {
      ComesBefore(bases, mro, g, f);
      assert MethodOf(bases, methods, self, g, j);
      if SameInCpp(methods(g)[j], m) {
        DeclaredPair(bases, methods, self, f, k, g, j);
        FlaggedIsMatched(methods(g), j, m);
      }
    }
  }

  lemma ComesBefore(bases: Class -> seq<Class>, mro: seq<Class>, g: Class, f: Class)
    requires ByDerivation(bases, mro) && g in mro && f in mro && g != f
    ensures First(mro, g) < First(mro, f) <==> Derived(bases, g, f)
    ensures First(mro, g) < |mro| && mro[First(mro, g)] == g
  {
    hide Derived;
    assert OrderedPair(bases, mro, g, f);
    FirstIsFirst(mro, g);
    Appears(mro, g);
  }

  lemma {:induction false} Appears(cs: seq<Class>, c: Class)
    requires c in cs
    ensures First(cs, c) < |cs|
  {
    if cs[0] != c {
      Appears(cs[1..], c);
    }
  }

  lemma DeclaredPair(bases: Class -> seq<Class>, methods: Class -> seq<Method>, self: Class, f: Class, k: nat,
                     g: Class, j: nat)
    requires Declared(bases, methods, self)
    requires MethodOf(bases, methods, self, f, k) && MethodOf(bases, methods, self, g, j)
    ensures MatchesSignature(methods(g)[j], methods(f)[k]) <==> SameInCpp(methods(g)[j], methods(f)[k])
    ensures methods(f)[k].isPure && Derived(bases, g, f) && SameInCpp(methods(g)[j], methods(f)[k]) ==>
              methods(g)[j].isVirtual
  {
    hide MatchesSignature, SameInCpp, MethodOf, Derived;
  }

  // The other way: nothing before the first appearance of a pure final overrider matches it.
  lemma OverriderIsPure(bases: Class -> seq<Class>, methods: Class -> seq<Method>, self: Class, mro: seq<Class>,
                        f: Class, k: nat)
    requires ByDerivation(bases, mro) && (forall c :: c in mro <==> Ancestor(bases, self, c))
    requires Declared(bases, methods, self) && PureOverrider(bases, methods, self, f, k)
    ensures PureAt(methods, mro, First(mro, f), k)
  {
    hide Ancestor, FirstMatch, MatchesSignature, SameInCpp, Derived, NamedAlike, OverridersFlagged, ByDerivation;
    var i, m := First(mro, f), methods(f)[k];
    FirstIsFirst(mro, f);
    Appears(mro, f);
    assert MethodOf(bases, methods, self, f, k);
    forall j | 0 <= j < i ensures FirstMatch(methods(mro[j]), m).None? {
      var g := mro[j];
      FirstIsFirst(mro, g);
      assert mro[..i][j] == g;
      ComesBefore(bases, mro, g, f);
      if FirstMatch(methods(g), m).Some? {
        var l := FirstMatchIsThere(methods(g), m);
        assert MethodOf(bases, methods, self, g, l);
        DeclaredPair(bases, methods, self, f, k, g, l);
      }
    }
  }

  lemma DerivationOrderAnswersRight(bases: Class -> seq<Class>, classes: set<Class>, self: Class,
                                    methods: Class -> seq<Method>)
    requires Closed(bases, classes) && self in classes && ByDerivation(bases, Mro(bases, classes, self))
    requires Declared(bases, methods, self)
    ensures AnswersRight(bases, classes, self, methods)
  {
    hide Mro, ByDerivation, LeftPure, PureAt, PureOverrider, Declared;
    var mro := Mro(bases, classes, self);
    MroIsByDistance(bases, classes, self);
    LeftPureAt(methods, mro);
    if i: nat, k: nat :| PureAt(methods, mro, i, k) {
      PureIsOverrider(bases, methods, self, mro, i, k);
    }
    if f, k: nat :| PureOverrider(bases, methods, self, f, k) {
      OverriderIsPure(bases, methods, self, mro, f, k);
    }
  }

  // ----- two methods

  // A pure method in `f` and a method with a body in `g`.
  function Two(f: Class, p: Method, g: Class, b: Method): Class -> seq<Method> {
    (c: Class) => if c == f then [p] else if c == g then [b] else []
  }

  lemma TwoFound(mro: seq<Class>, f: Class, p: Method, g: Class, b: Method)
    requires f != g && f in mro && g in mro && p.isPure && !b.isPure
    ensures (exists i: nat, k: nat :: PureAt(Two(f, p, g, b), mro, i, k))
       <==> !(First(mro, g) < First(mro, f) && b.isVirtual && MatchesSignature(b, p))
  {
    hide MatchesSignature;
    var methods := Two(f, p, g, b);
    FirstIsFirst(mro, f);
    FirstIsFirst(mro, g);
    Appears(mro, f);
    Appears(mro, g);
    TwoMatch(f, p, g, b);
    var i := First(mro, f);
    if !(First(mro, g) < i && b.isVirtual && MatchesSignature(b, p)) {
      forall j | 0 <= j < i ensures FirstMatch(methods(mro[j]), p).None? {
        assert mro[..i][j] == mro[j];
      }
      assert PureAt(methods, mro, i, 0);
    }
  }

  lemma TwoMatch(f: Class, p: Method, g: Class, b: Method)
    requires f != g
    ensures FirstMatch(Two(f, p, g, b)(g), p).Some? <==> b.isVirtual && MatchesSignature(b, p)
    ensures forall c :: c != f && c != g ==> FirstMatch(Two(f, p, g, b)(c), p).None?
  {
    hide MatchesSignature;
    assert FirstMatch([b][1..], p).None?;
  }

  lemma TwoOverridden(bases: Class -> seq<Class>, self: Class, f: Class, p: Method, g: Class, b: Method)
    requires f != g && Ancestor(bases, self, f) && Ancestor(bases, self, g) && p.isPure && !b.isPure
    ensures HasPureOverrider(bases, Two(f, p, g, b), self) <==> !(Derived(bases, g, f) && SameInCpp(b, p))
  {
    hide Ancestor, SameInCpp;
    var methods := Two(f, p, g, b);
    assert methods(f)[0] == p && methods(g)[0] == b;
    if !(Derived(bases, g, f) && SameInCpp(b, p)) {
      assert PureOverrider(bases, methods, self, f, 0);
    }
  }

  // The search counts the body if its class comes first, it is flagged virtual and the binding gives
  // it the same signature; C++ does if the class is derived and it gives it the same signature.
  lemma TwoAnswersExactly(bases: Class -> seq<Class>, classes: set<Class>, self: Class, f: Class, p: Method, g: Class,
                          b: Method)
    requires Closed(bases, classes) && self in classes && f != g && p.isPure && !b.isPure
    requires f in Mro(bases, classes, self) && g in Mro(bases, classes, self)
    ensures AnswersRight(bases, classes, self, Two(f, p, g, b))
       <==> (First(Mro(bases, classes, self), g) < First(Mro(bases, classes, self), f)
             && b.isVirtual && MatchesSignature(b, p)
             <==> Derived(bases, g, f) && SameInCpp(b, p))
  {
    hide Mro, Ancestor, LeftPure, Derived, SameInCpp, MatchesSignature, HasPureOverrider, PureAt, Levels;
    var mro := Mro(bases, classes, self);
    MroIsByDistance(bases, classes, self);
    LeftPureAt(Two(f, p, g, b), mro);
    TwoFound(mro, f, p, g, b);
    TwoOverridden(bases, self, f, p, g, b);
  }

  function Virtual(isPure: bool): Method {
    Method("m", [], false, "m", [], true, isPure)
  }

  lemma VirtualsAreDeclared(bases: Class -> seq<Class>, self: Class, f: Class, g: Class)
    ensures Declared(bases, Two(f, Virtual(true), g, Virtual(false)), self)
  {
    hide Ancestor;
  }

  // Two classes out of order are enough for a wrong answer, the binding being right.
  lemma UnorderedPairAnswersWrong(bases: Class -> seq<Class>, classes: set<Class>, self: Class, f: Class, g: Class)
    requires Closed(bases, classes) && self in classes && f != g
    requires f in Mro(bases, classes, self) && g in Mro(bases, classes, self)
    requires !OrderedPair(bases, Mro(bases, classes, self), g, f)
    ensures Declared(bases, Two(f, Virtual(true), g, Virtual(false)), self)
    ensures !AnswersRight(bases, classes, self, Two(f, Virtual(true), g, Virtual(false)))
  {
    hide Mro, AnswersRight, Two, Declared, Derived;
    VirtualsAreDeclared(bases, self, f, g);
    TwoAnswersExactly(bases, classes, self, f, Virtual(true), g, Virtual(false));
  }

  // The search answers what C++ does, whatever methods the classes declare, as long as the binding
  // says it right, exactly when of any two classes it goes through the one that comes first is
  // derived from the other, and no other is.
  lemma AnswersRightExactly(bases: Class -> seq<Class>, classes: set<Class>, self: Class)
    requires Closed(bases, classes) && self in classes
    ensures (forall methods :: Declared(bases, methods, self) ==> AnswersRight(bases, classes, self, methods))
       <==> ByDerivation(bases, Mro(bases, classes, self))
  {
    hide Mro, AnswersRight, OrderedPair, Declared, Two;
    var mro := Mro(bases, classes, self);
    if ByDerivation(bases, mro) {
      forall methods | Declared(bases, methods, self) ensures AnswersRight(bases, classes, self, methods) {
        DerivationOrderAnswersRight(bases, classes, self, methods);
      }
    } else {
      var g, f :| g in mro && f in mro && g != f && !OrderedPair(bases, mro, g, f);
      UnorderedPairAnswersWrong(bases, classes, self, f, g);
    }
  }

  // ----- single bases

  ghost predicate OneBaseEach(bases: Class -> seq<Class>, classes: set<Class>) {
    forall x :: x in classes ==> |bases(x)| <= 1
  }

  // No class is its own base, however far off.
  ghost predicate Acyclic(bases: Class -> seq<Class>, classes: set<Class>) {
    forall a, b :: a in classes && Derived(bases, a, b) ==> !Derived(bases, b, a)
  }

  lemma {:induction false} ChainDerives(bases: Class -> seq<Class>, mro: seq<Class>, i: nat, j: nat)
    requires i <= j < |mro| && forall k :: 0 < k < |mro| ==> bases(mro[k - 1]) == [mro[k]]
    ensures ReachIn(bases, mro[i], mro[j], j - i)
    decreases j
  {
    if i < j {
      ChainDerives(bases, mro, i, j - 1);
      assert bases(mro[j - 1]) == [mro[j]];
    }
  }

  lemma OneBaseIsByDerivation(bases: Class -> seq<Class>, classes: set<Class>, self: Class)
    requires Closed(bases, classes) && self in classes && OneBaseEach(bases, classes) && Acyclic(bases, classes)
    ensures ByDerivation(bases, Mro(bases, classes, self))
  {
    hide Walk, ReachIn, OneBaseEach, Derived, Ancestor;
    StartState(bases, classes, self);
    SingleBases(bases, classes);
    SingleInheritanceChain(bases, classes, self, {});
    var mro := Mro(bases, classes, self);
    forall g, f | g in mro && f in mro && g != f ensures OrderedPair(bases, mro, g, f) {
      var i, j := First(mro, g), First(mro, f);
      Appears(mro, g);
      Appears(mro, f);
      InClasses(bases, classes, self, g);
      InClasses(bases, classes, self, f);
      if i < j {
        ChainDerived(bases, mro, i, j);
      } else {
        ChainDerived(bases, mro, j, i);
      }
    }
  }

  lemma SingleBases(bases: Class -> seq<Class>, classes: set<Class>)
    requires OneBaseEach(bases, classes)
    ensures forall x :: x in classes ==> |bases(x)| <= 1
  {
  }

  lemma ChainDerived(bases: Class -> seq<Class>, mro: seq<Class>, i: nat, j: nat)
    requires i <= j < |mro| && mro[i] != mro[j] && forall k :: 0 < k < |mro| ==> bases(mro[k - 1]) == [mro[k]]
    ensures i < j && Derived(bases, mro[i], mro[j])
  {
    hide ReachIn;
    ChainDerives(bases, mro, i, j);
  }

  lemma {:induction false} ReachedInClasses(bases: Class -> seq<Class>, classes: set<Class>, self: Class, c: Class,
                                            n: nat)
    requires Closed(bases, classes) && self in classes && ReachIn(bases, self, c, n)
    ensures c in classes
    decreases n
  {
    if n > 0 {
      var b :| ReachIn(bases, self, b, n - 1) && c in bases(b);
      ReachedInClasses(bases, classes, self, b, n - 1);
    }
  }

  lemma InClasses(bases: Class -> seq<Class>, classes: set<Class>, self: Class, c: Class)
    requires Closed(bases, classes) && self in classes && c in Mro(bases, classes, self)
    ensures c in classes
  {
    hide Mro, ReachIn;
    MroIsByDistance(bases, classes, self);
    var n: nat :| ReachIn(bases, self, c, n);
    ReachedInClasses(bases, classes, self, c, n);
  }

  // With one base each the answer is right, the binding being right.
  lemma LeftPureIsAbstractClass(bases: Class -> seq<Class>, classes: set<Class>, self: Class,
                                methods: Class -> seq<Method>)
    requires Closed(bases, classes) && self in classes && OneBaseEach(bases, classes) && Acyclic(bases, classes)
    requires Declared(bases, methods, self)
    ensures AnswersRight(bases, classes, self, methods)
  {
    hide Mro, ByDerivation, OneBaseEach, Acyclic, Declared, AnswersRight;
    OneBaseIsByDerivation(bases, classes, self);
    DerivationOrderAnswersRight(bases, classes, self, methods);
  }

  // ----- examples

  function TwoBases(c: Class): seq<Class> {
    if c == 0 then [1, 2] else []
  }

  lemma TwoBasesQueue()
    ensures Rest(TwoBases, [0], {}) == [1, 2] && Rest(TwoBases, [1, 2], {0}) == [2]
    ensures Rest(TwoBases, [2], {0, 1}) == []
  {
    var start: set<Class> := {};
    assert start + {0} == {0};
    assert [0][1..] == [] && [1, 2][1..] == [2] && [2][1..] == [];
    assert [1][..0] == [] && [1, 2][..1] == [1];
    assert Unvisited([1], {0}) == [] + [1];
    assert Unvisited([1, 2], {0}) == [1] + [2];
  }

  lemma TwoBasesOrder()
    ensures Closed(TwoBases, {0, 1, 2}) && Mro(TwoBases, {0, 1, 2}, 0) == [0, 1, 2]
  {
    hide Walk, WalkState, Rest;
    var classes := {0, 1, 2};
    TwoBasesQueue();
    assert {} + {0} == {0} && {0} + {1} == {0, 1} && {0, 1} + {2} == {0, 1, 2};
    StartState(TwoBases, classes, 0);
    TakeKeepsState(TwoBases, classes, [0], {});
    TakeKeepsState(TwoBases, classes, [1, 2], {0});
    TakeKeepsState(TwoBases, classes, [2], {0, 1});
    WalkTakes(TwoBases, classes, [0], {});
    WalkTakes(TwoBases, classes, [1, 2], {0});
    WalkTakes(TwoBases, classes, [2], {0, 1});
    WalkOfNothing(TwoBases, classes, {0, 1, 2});
  }

  // Two unrelated bases are enough: the method that one leaves pure counts as implemented because
  // the other, which comes first, has a body for a method like it.
  lemma SiblingIsTaken()
    ensures Closed(TwoBases, {0, 1, 2})
    ensures !AnswersRight(TwoBases, {0, 1, 2}, 0, Two(2, Virtual(true), 1, Virtual(false)))
  {
    TwoBasesOrder();
    assert !Ancestor(TwoBases, 1, 2) by {
      forall n: nat ensures !ReachIn(TwoBases, 1, 2, n) {
        NoBases(n);
      }
    }
    assert First([0, 1, 2], 1) < First([0, 1, 2], 2) by {
      FirstIsFirst([0, 1, 2], 1);
      FirstIsFirst([0, 1, 2], 2);
      assert [0, 1, 2][1] == 1;
    }
    UnorderedPairAnswersWrong(TwoBases, {0, 1, 2}, 0, 2, 1);
  }

  lemma {:induction false} NoBases(n: nat)
    ensures forall c :: ReachIn(TwoBases, 1, c, n) ==> c == 1 && n == 0
  {
    if n > 0 {
      NoBases(n - 1);
    }
  }
  function OneBase(c: Class): seq<Class> {
    if c == 0 then [1] else []
  }

  lemma OneBaseOrder()
    ensures Closed(OneBase, {0, 1}) && Mro(OneBase, {0, 1}, 0) == [0, 1] && Derived(OneBase, 0, 1)
  {
    hide Walk, WalkState, Rest;
    OneBaseQueue();
    assert {} + {0} == {0} && {0} + {1} == {0, 1};
    StartState(OneBase, {0, 1}, 0);
    TakeKeepsState(OneBase, {0, 1}, [0], {});
    TakeKeepsState(OneBase, {0, 1}, [1], {0});
    WalkTakes(OneBase, {0, 1}, [0], {});
    WalkTakes(OneBase, {0, 1}, [1], {0});
    WalkOfNothing(OneBase, {0, 1}, {0, 1});
    OneStep(OneBase, 0, 1);
  }

  lemma OneBaseQueue()
    ensures Rest(OneBase, [0], {}) == [1] && Rest(OneBase, [1], {0}) == []
  {
    var start: set<Class> := {};
    assert start + {0} == {0};
    assert [0][1..] == [] && [1][1..] == [] && [1][..0] == [];
    assert Unvisited([1], {0}) == [] + [1];
  }

  // A class with one base that has a pure method: the answer is right exactly when the flag and the
  // signature of the binding together say what C++ does.
  lemma OneOverriderExactly(p: Method, b: Method)
    requires p.isPure && !b.isPure
    ensures Closed(OneBase, {0, 1})
    ensures AnswersRight(OneBase, {0, 1}, 0, Two(1, p, 0, b))
       <==> (b.isVirtual && MatchesSignature(b, p) <==> SameInCpp(b, p))
  {
    hide AnswersRight, MatchesSignature, SameInCpp, Derived, Mro;
    OneBaseOrder();
    FirstIsFirst([0, 1], 1);
    assert First([0, 1], 0) == 0 && First([0, 1], 1) == 1 by { assert [0, 1][1] == 1; }
    TwoAnswersExactly(OneBase, {0, 1}, 0, 1, p, 0, b);
  }

  // So an overrider that is not flagged virtual is missed ...
  lemma UnflaggedIsMissed()
    ensures Closed(OneBase, {0, 1})
    ensures !AnswersRight(OneBase, {0, 1}, 0, Two(1, Virtual(true), 0, Virtual(false).(isVirtual := false)))
  {
    hide AnswersRight;
    OneOverriderExactly(Virtual(true), Virtual(false).(isVirtual := false));
  }

  // ... as is that of a method with a name chosen for it.
  lemma RenamedIsMissed()
    ensures Closed(OneBase, {0, 1})
    ensures !AnswersRight(OneBase, {0, 1}, 0, Two(1, Virtual(true).(mangledName := "n"), 0, Virtual(false)))
  {
    hide AnswersRight;
    OneOverriderExactly(Virtual(true).(mangledName := "n"), Virtual(false));
  }
}
