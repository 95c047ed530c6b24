// The search of PyBindGen for a pure virtual method that is left over, through the methods of classes
// listed from the root to the leaf.
module PureVirtuals {
  import opened Wrappers
  import opened Inheritance

  // C++ knows a method by its name, its parameter types and its constness. The binding has a name
  // for it that can be chosen, spells the types out, and says itself what is virtual.
  datatype Method = Method(
    name: string,
    types: seq<string>,
    isConst: bool,
    mangledName: string,
    parameters: seq<string>,
    isVirtual: bool,
    isPure: bool)

  predicate MatchesSignature(a: Method, b: Method) {
    if a.mangledName != b.mangledName then false
    else if |a.parameters| != |b.parameters| then false
    else if exists i :: 0 <= i < |a.parameters| && a.parameters[i] != b.parameters[i] then false
    else a.isConst == b.isConst
  }

  lemma MatchingIsEquivalence(a: Method, b: Method, c: Method)
    ensures MatchesSignature(a, b)
       <==> a.mangledName == b.mangledName && a.parameters == b.parameters && a.isConst == b.isConst
    ensures MatchesSignature(a, a)
    ensures MatchesSignature(a, b) ==> MatchesSignature(b, a)
    ensures MatchesSignature(a, b) && MatchesSignature(b, c) ==> MatchesSignature(a, c)
  {
  }

  // The first virtual method of a class that matches.
  function FirstMatch(methods: seq<Method>, m: Method): Option<Method> {
    if methods == [] then None
    else if methods[0].isVirtual && MatchesSignature(methods[0], m) then Some(methods[0])
    else FirstMatch(methods[1..], m)
  }

  predicate ImplementedIn(methods: seq<Method>, m: Method) {
    var first := FirstMatch(methods, m);
    first.Some? && !first.value.isPure
  }

  // Classes are listed from the root to the leaf. Is `m` of class `pos` implemented below?
  predicate Implemented(levels: seq<seq<Method>>, pos: nat, m: Method) {
    exists q :: pos < q < |levels| && ImplementedIn(levels[q], m)
  }

  predicate PureAndUnimplemented(levels: seq<seq<Method>>, pos: nat, k: nat) {
    pos < |levels| && k < |levels[pos]| && levels[pos][k].isPure && !Implemented(levels, pos, levels[pos][k])
  }

  predicate LeftPure(levels: seq<seq<Method>>) {
    exists pos, k :: 0 <= pos < |levels| && 0 <= k < |levels[pos]| && PureAndUnimplemented(levels, pos, k)
  }

  // The method lists of the classes, from the root to the leaf.
  function Levels(methods: Class -> seq<Method>, mro: seq<Class>): seq<seq<Method>> {
    seq(|mro|, i requires 0 <= i < |mro| => methods(mro[|mro| - 1 - i]))
  }

  // The loop over the methods of one child class.
  method SearchChild(methods: seq<Method>, m: Method) returns (implemented: bool)
    ensures implemented == ImplementedIn(methods, m)
  {
    implemented := false;
    var i := 0;
    while i < |methods|
      invariant i <= |methods| && !implemented && FirstMatch(methods, m) == FirstMatch(methods[i..], m)
    {
      assert methods[i..][1..] == methods[i + 1..];
      if !methods[i].isVirtual {
        i := i + 1;
        continue;
      }
      if !MatchesSignature(methods[i], m) {
        i := i + 1;
        continue;
      }
      return !methods[i].isPure;
    }
  }

  method SearchChildren(levels: seq<seq<Method>>, pos: nat, m: Method) returns (implemented: bool)
    requires pos < |levels|
    ensures implemented == Implemented(levels, pos, m)
  {
    for q := pos + 1 to |levels|
      invariant forall r :: pos < r < q ==> !ImplementedIn(levels[r], m)
    {
      implemented := SearchChild(levels[q], m);
      if implemented {
        return;
      }
    }
    implemented := false;
  }

  method SearchLevels(levels: seq<seq<Method>>) returns (found: bool)
    ensures found == LeftPure(levels)
  {
    found := false;
    for pos := 0 to |levels|
      invariant found == exists p, k :: 0 <= p < pos && 0 <= k < |levels[p]| && PureAndUnimplemented(levels, p, k)
    {
      for k := 0 to |levels[pos]|
        invariant found == exists p, j :: 0 <= p <= pos && 0 <= j < (if p < pos then |levels[p]| else k)
                                          && PureAndUnimplemented(levels, p, j)
      {
        var m := levels[pos][k];
        if m.isPure {
          var implemented := SearchChildren(levels, pos, m);
          if !implemented {
            assert PureAndUnimplemented(levels, pos, k);
            found := true;
          }
        }
      }
    }
  }

  predicate Redeclared(levels: seq<seq<Method>>, pos: nat, m: Method) {
    exists q :: pos < q < |levels| && FirstMatch(levels[q], m).Some?
  }

  // Some virtual method's last declaration on the way to the leaf is pure.
  predicate IsAbstract(levels: seq<seq<Method>>) {
    exists pos, k :: 0 <= pos < |levels| && 0 <= k < |levels[pos]| && levels[pos][k].isPure
      && !Redeclared(levels, pos, levels[pos][k])
  }

  lemma {:induction false} FirstMatchIsThere(methods: seq<Method>, m: Method) returns (k: nat)
    requires FirstMatch(methods, m).Some?
    ensures k < |methods| && methods[k] == FirstMatch(methods, m).value
    ensures methods[k].isVirtual && MatchesSignature(methods[k], m)
  {
    if methods[0].isVirtual && MatchesSignature(methods[0], m) {
      k := 0;
    } else {
      var j := FirstMatchIsThere(methods[1..], m);
      k := j + 1;
    }
  }

  lemma {:induction false} FirstMatchBySignature(methods: seq<Method>, m: Method, m': Method)
    requires MatchesSignature(m, m')
    ensures FirstMatch(methods, m) == FirstMatch(methods, m')
  {
    if methods != [] {
      MatchingIsEquivalence(methods[0], m, m');
      MatchingIsEquivalence(methods[0], m', m);
      MatchingIsEquivalence(m, m', m);
      FirstMatchBySignature(methods[1..], m, m');
    }
  }

  // From a pure declaration that is not implemented below, go to the last redeclaration.
  lemma {:induction false} LastIsPure(levels: seq<seq<Method>>, pos: nat, k: nat)
    requires PureAndUnimplemented(levels, pos, k)
    ensures IsAbstract(levels)
    decreases |levels| - pos
  {
    var m := levels[pos][k];
    if q :| pos < q < |levels| && FirstMatch(levels[q], m).Some? {
      var j := FirstMatchIsThere(levels[q], m);
      var m' := levels[q][j];
      assert !ImplementedIn(levels[q], m);
      forall r | q < r < |levels| ensures !ImplementedIn(levels[r], m') {
        FirstMatchBySignature(levels[r], m', m);
        assert !ImplementedIn(levels[r], m);
      }
      LastIsPure(levels, q, j);
    }
  }

  // A pure method that no class below implements is left exactly when the last declaration of
  // some method, on the way to the leaf, is pure.
  lemma LeftPureIsAbstract(levels: seq<seq<Method>>)
    ensures LeftPure(levels) <==> IsAbstract(levels)
  {
    if LeftPure(levels) {
      var pos, k :| 0 <= pos < |levels| && 0 <= k < |levels[pos]| && PureAndUnimplemented(levels, pos, k);
      LastIsPure(levels, pos, k);
    }
    if IsAbstract(levels) {
      var pos, k :| 0 <= pos < |levels| && 0 <= k < |levels[pos]| && levels[pos][k].isPure
        && !Redeclared(levels, pos, levels[pos][k]);
      assert PureAndUnimplemented(levels, pos, k);
    }
  }
}
