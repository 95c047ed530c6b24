// Between any two lines of an emitted conversion, or of a deallocator, no reference is missing.
module RefOrder {
  import opened Wrappers
  import opened WrapperCode
  import opened RefCounts

  // The count covers what C++ code holds and every wrapper that points to the object, and a wrapper
  // does not point to an object that is gone.
  predicate Covered(s: World) {
    && !s.broken
    && (if s.alive then s.count >= s.outside + |Holders(s)| else Holders(s) == {})
  }

  // Before and after every operation of the code, run from `s`.
  predicate Throughout(c: Code, s: World)
    decreases c
  {
    && Covered(s)
    && match c
       case End => true
       case Do(op, rest) => Throughout(rest, Step(op, s))
       case When(cond, yes, no, rest) =>
         var branch := if Holds(cond, s) then yes else no;
         Throughout(branch, s) && Throughout(rest, Exec(branch, s))
  }

  lemma {:induction false} CoveredAtEnd(c: Code, s: World)
    requires Throughout(c, s)
    ensures Covered(Exec(c, s))
    decreases c
  {
    match c
    case End =>
    case Do(op, rest) => CoveredAtEnd(rest, Step(op, s));
    case When(cond, yes, no, rest) =>
      CoveredAtEnd(rest, Exec(if Holds(cond, s) then yes else no, s));
  }

  // A conditional with nothing behind it.
  lemma ConditionalThroughout(cond: Condition, yes: Code, no: Code, s: World)
    requires Covered(s)
    requires Throughout(if Holds(cond, s) then yes else no, s)
    ensures Throughout(When(cond, yes, no, End), s)
  {
    hide Covered;
    CoveredAtEnd(if Holds(cond, s) then yes else no, s);
  }

  // How many references there are beyond those.
  predicate Spare(s: World, extra: int) {
    !s.broken && s.alive && s.count == s.outside + |Holders(s)| + extra
  }

  predicate Quiet(op: Op) {
    op == Register || op == FromSelf || op == PyIncRef || op == Lookup || op == NewWrapper
  }

  // These leave the count and the pointing wrappers alone.
  lemma QuietStep(op: Op, s: World, extra: int)
    requires Quiet(op) && Spare(s, extra)
    requires op == PyIncRef ==> s.py.Some? && s.py.value in s.live
    requires op == Lookup && s.registry.Some? ==> s.registry.value in s.live
    requires op == NewWrapper ==> s.next !in s.live
    ensures Spare(Step(op, s), extra)
  {
    assert Holders(Step(op, s)) == Holders(s);
  }

  lemma CountStep(s: World, extra: int)
    requires Spare(s, extra)
    ensures Spare(Step(IncRef, s), extra + 1)
    ensures s.count > 1 ==> Spare(Step(DecRef, s), extra - 1)
  {
    assert Holders(Step(IncRef, s)) == Holders(s);
    if s.count > 1 {
      assert Holders(Step(DecRef, s)) == Holders(s);
    }
  }

  lemma PointStep(s: World, extra: int)
    requires Spare(s, extra) && s.py.Some? && s.py.value in s.live
    ensures Spare(Step(SetObj, s), if s.live[s.py.value].pointing then extra else extra - 1)
  {
    var w := s.py.value;
    if s.live[w].pointing {
      assert Holders(Step(SetObj, s)) == Holders(s);
    } else {
      assert Holders(Step(SetObj, s)) == Holders(s) + {w};
    }
  }

  lemma NewThroughout(o: Options, s: World, owns: bool)
    requires Spare(s, if owns then 1 else 0) && s.next !in s.live
    ensures Throughout(NewlyWrapped(o, owns), s)
  {
    hide Step, Spare;
    var extra := if owns then 1 else 0;
    QuietStep(NewWrapper, s, extra);
    var s1 := Step(NewWrapper, s);
    Allocated(s, extra);
    var register := if o.registry then Do(Register, End) else End;
    if owns {
      PointStep(s1, 1);
      RegisterThroughout(o, Step(SetObj, s1));
      SpareIsCovered(s1, 1);
    } else {
      CountStep(s1, 0);
      CountedOnly(s1, 0);
      var s2 := Step(IncRef, s1);
      PointStep(s2, 1);
      RegisterThroughout(o, Step(SetObj, s2));
      SpareIsCovered(s1, 0);
      SpareIsCovered(s2, 1);
      assert Throughout(Do(SetObj, register), s2);
    }
    SpareIsCovered(s, extra);
  }

  lemma Allocated(s: World, extra: int)
    requires Spare(s, extra)
    ensures var t := Step(NewWrapper, s);
            !t.broken && t.py == Some(s.next) && s.next in t.live && !t.live[s.next].pointing
  {
  }

  lemma CountedOnly(s: World, extra: int)
    requires Spare(s, extra)
    ensures Step(IncRef, s) == s.(count := s.count + 1)
  {
  }

  lemma SpareIsCovered(s: World, extra: int)
    requires Spare(s, extra) && extra >= 0
    ensures Covered(s)
  {
  }

  lemma RegisterThroughout(o: Options, s: World)
    requires Spare(s, 0)
    ensures Throughout(if o.registry then Do(Register, End) else End, s)
  {
    hide Step, Spare;
    SpareIsCovered(s, 0);
    if o.registry {
      QuietStep(Register, s, 0);
      SpareIsCovered(Step(Register, s), 0);
      assert Throughout(End, Step(Register, s));
    }
  }

  lemma FoundThroughout(o: Options, s: World, owns: bool)
    requires Spare(s, if owns then 1 else 0) && s.registry.Some? && s.registry.value in Holders(s)
    requires o.registry
    ensures Throughout(FoundOrNew(o, owns), s)
  {
    hide Step, NewlyWrapped;
    var extra := if owns then 1 else 0;
    var t := Step(Lookup, s);
    LookupFinds(s);
    QuietStep(Lookup, s, extra);
    SpareIsCovered(s, extra);
    SpareIsCovered(t, extra);
    if owns {
      HoldersCount(s, s.registry.value);
      CountStep(t, 1);
      SpareIsCovered(Step(DecRef, t), 0);
      assert Throughout(Do(DecRef, End), t);
    }
    var branch := FoundOrNew(o, owns).rest;
    ConditionalThroughout(branch.cond, branch.yes, branch.no, t);
  }

  lemma HoldersCount(s: World, w: nat)
    requires w in Holders(s)
    ensures |Holders(s)| > 0
  {
  }

  lemma FoundOrNewThroughout(o: Options, s: World, owns: bool)
    requires Spare(s, if owns then 1 else 0) && s.next !in s.live && s.py.None?
    requires s.registry.Some? ==> o.registry && s.registry.value in Holders(s)
    ensures Throughout(FoundOrNew(o, owns), s)
  {
    if s.registry.Some? {
      FoundThroughout(o, s, owns);
    } else {
      hide NewlyWrapped;
      NewThroughout(o, s, owns);
      if o.registry {
        assert Step(Lookup, s) == s;
        var branch := FoundOrNew(o, owns).rest;
        ConditionalThroughout(branch.cond, branch.yes, branch.no, s);
      }
    }
  }

  lemma InstanceThroughout(s: World, owns: bool)
    requires Spare(s, if owns then 1 else 0) && s.pyself.Some? && s.pyself.value in Holders(s)
    ensures Throughout(OnInstance(owns), s)
  {
    hide Step;
    var extra := if owns then 1 else 0;
    var s1 := Step(FromSelf, s);
    var s2 := Step(SetObj, s1);
    QuietStep(FromSelf, s, extra);
    FromSelfFinds(s);
    PointStep(s1, extra);
    Repointed(s1);
    HoldersCount(s2, s.pyself.value);
    if owns {
      CountStep(s2, 1);
      Dropped(s2);
    }
    var s3 := if owns then Step(DecRef, s2) else s2;
    QuietStep(PyIncRef, s3, 0);
    SpareIsCovered(s, extra);
    SpareIsCovered(s1, extra);
    SpareIsCovered(s2, extra);
    SpareIsCovered(s3, 0);
    SpareIsCovered(Step(PyIncRef, s3), 0);
    assert Throughout(Do(PyIncRef, End), s3);
  }

  lemma FromSelfFinds(s: World)
    requires !s.broken
    ensures Step(FromSelf, s) == s.(py := s.pyself)
  {
  }

  lemma Repointed(s: World)
    requires !s.broken && s.py.Some? && s.py.value in Holders(s)
    ensures Step(SetObj, s) == s
  {
    assert s.live[s.py.value := s.live[s.py.value]] == s.live;
  }

  lemma Dropped(s: World)
    requires !s.broken && s.alive && s.count > 1
    ensures Step(DecRef, s) == s.(count := s.count - 1)
  {
  }

  // The wrapper points to the object only once its reference has been taken, and the caller's
  // reference is given back only when the wrapper has its own.
  lemma ConversionKeepsCover(o: Options, s: World, owns: bool)
    requires Sound(o, s) && s.alive && (owns ==> s.outside > 0)
    ensures Throughout(Conversion(o, owns), Returning(s, owns))
  {
    hide FoundOrNew, OnInstance;
    var t := Returning(s, owns);
    SoundIsReady(o, s, owns);
    assert Holders(t) == s.live.Keys;
    if s.pyself.Some? {
      InstanceThroughout(t, owns);
    } else {
      FoundOrNewThroughout(o, t, owns);
    }
    if o.helper {
      SpareIsCovered(t, if owns then 1 else 0);
      ConditionalThroughout(IsHelperInstance, OnInstance(owns), FoundOrNew(o, owns), t);
    }
  }

  // A wrapper stops pointing before its reference is given back, and is freed after that.
  lemma DeallocationKeepsCover(o: Options, s: World, w: nat)
    requires Spare(s, 0) && s.pyself.None? && w in Holders(s) && !o.singleton
    ensures Throughout(Deallocation(o), s.(py := Some(w)))
  {
    hide Step;
    var s0 := s.(py := Some(w));
    assert Holders(s0) == Holders(s);
    Unregistered(s0, w);
    var s1 := if o.registry then Step(Unregister, s0) else s0;
    assert Holders(s1) == Holders(s);
    Cleared(s1, w);
    var s2 := Step(ClearObj, s1);
    Freed(s2, w);
    assert Throughout(Do(Free, End), s2);
    assert Throughout(Do(ClearObj, Do(Free, End)), s1);
  }

  lemma Unregistered(s: World, w: nat)
    requires !s.broken && s.py == Some(w) && w in Holders(s)
    ensures Step(Unregister, s) == s.(registry := None)
  {
  }

  lemma Cleared(s: World, w: nat)
    requires Spare(s, 0) && s.pyself.None? && s.py == Some(w) && w in Holders(s)
    ensures var t := Step(ClearObj, s);
            Covered(t) && t.py == Some(w) && w in t.live && !t.live[w].pointing
  {
    var t := Put(s, w, s.live[w].(pointing := false));
    assert Holders(t) == Holders(s) - {w};
    assert Step(ClearObj, s) == Unref(t);
    assert Holders(Unref(t)) == Holders(t);
  }

  lemma Freed(s: World, w: nat)
    requires Covered(s) && s.py == Some(w) && w in s.live && !s.live[w].pointing
    ensures Covered(Step(Free, s))
  {
    assert Holders(Step(Free, s)) == Holders(s);
  }
}
