// PyBindGen's CppClass, as far as it looks for pure virtual methods.
module CppClasses {
  import opened Wrappers
  import opened Inheritance
  import opened PureVirtuals
  import opened AbstractClasses

  class CppClass {
    const self: Class
    const bases: Class -> seq<Class>
    const methods: Class -> seq<Method>
    // A finite part of the class graph that this class is in.
    ghost const classes: set<Class>
    // _have_pure_virtual_methods
    var cached: Option<bool>

    constructor (self: Class, bases: Class -> seq<Class>, methods: Class -> seq<Method>, ghost classes: set<Class>)
      requires Closed(bases, classes) && self in classes
      ensures this.self == self && this.bases == bases && this.methods == methods && this.classes == classes
      ensures Valid() && cached == None
    {
      this.self, this.bases, this.methods, this.classes := self, bases, methods, classes;
      cached := None;
    }

    ghost predicate Valid()
      reads this
    {
      && Closed(bases, classes) && self in classes
      && (cached.Some? ==> cached.value == LeftPure(Levels(methods, Mro(bases, classes, self))))
    }

    // mro_reversed, with the methods of each class.
    method ReversedLevels() returns (levels: seq<seq<Method>>)
      requires Valid()
      ensures levels == Levels(methods, Mro(bases, classes, self))
    {
      var mro := GetMro(bases, classes, self);
      levels := [];
      for i := 0 to |mro|
        invariant |levels| == i && forall k :: 0 <= k < i ==> levels[k] == methods(mro[|mro| - 1 - k])
      {
        levels := levels + [methods(mro[|mro| - 1 - i])];
      }
    }

    method GetHavePureVirtualMethods() returns (result: bool)
      requires Valid()
      modifies this
      ensures Valid() && cached == Some(result)
      ensures result == LeftPure(Levels(methods, Mro(bases, classes, self)))
      ensures Declared(bases, methods, self) && ByDerivation(bases, Mro(bases, classes, self)) ==>
                result == HasPureOverrider(bases, methods, self)
      ensures Declared(bases, methods, self) && OneBaseEach(bases, classes) && Acyclic(bases, classes) ==>
                result == HasPureOverrider(bases, methods, self)
    {
      hide LeftPure, Levels, Mro, OneBaseEach, Acyclic, ByDerivation, Declared, HasPureOverrider;
      if Declared(bases, methods, self) {
        if ByDerivation(bases, Mro(bases, classes, self)) {
          DerivationOrderAnswersRight(bases, classes, self, methods);
        } else if OneBaseEach(bases, classes) && Acyclic(bases, classes) {
          LeftPureIsAbstractClass(bases, classes, self, methods);
        }
      }
      if cached != None {
        return cached.value;
      }
      var levels := ReversedLevels();
      result := SearchLevels(levels);
      cached := Some(result);
    }
  }
}
