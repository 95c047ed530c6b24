// The reference count over whole runs of emitted conversions, C++ references, Python references
// and garbage collections: when it equals the references C++ code holds plus the wrappers that
// point to the object.
module RefCounts {
  import opened Wrappers
  import opened WrapperCode

  // ----- births and events

  // An object that C++ code created and holds, with no wrapper yet.
  function BornInCpp(holders: nat): World
    requires holders > 0
  {
    World(true, holders, holders, map[], None, None, 0, None, false)
  }

  // An object created by a Python constructor call: its wrapper owns the first reference, is not
  // registered, and was allocated by the type, so the collector knows it; a helper instance also
  // keeps a reference to its wrapper.
  function BornInPython(asHelper: bool): World {
    World(true, 1, 0, map[0 := Wrapper(true, if asHelper then 2 else 1, 1, true)], None,
          if asHelper then Some(0) else None, 1, None, false)
  }

  ghost predicate Born(o: Options, s: World) {
    || (exists n: nat | n > 0 :: s == BornInCpp(n))
    || s == BornInPython(false)
    || (o.helper && s == BornInPython(true))
  }

  datatype Event =
    | Return(callerOwns: bool)  // a call returns the object to Python
    | CppRef | CppUnref         // C++ code takes or drops a reference
    | PyShare(w: nat)           // Python copies a reference to a wrapper
    | PyDrop(w: nat)            // Python drops a reference to a wrapper
    | Collect(w: nat)           // the collector finds a wrapper reachable only from garbage

  // tp_traverse reports the helper's reference to its wrapper as part of a cycle.
  predicate VisitsSelf(o: Options, s: World, w: nat)
    requires w in s.live
  {
    o.helper && s.live[w].pointing && s.pyself.Some? && (o.peeks ==> s.count == 1)
  }

  predicate Enabled(o: Options, s: World, e: Event) {
    && s.alive && !s.broken
    && match e
       case Return(owns) => owns ==> s.outside > 0
       case CppRef => true
       case CppUnref => s.outside > 0
       case PyShare(w) => w in s.live && s.live[w].held > 0
       case PyDrop(w) => w in s.live && s.live[w].held > 0
       case Collect(w) =>
         && o.subclassing && w in s.live && s.live[w].tracked
         && s.live[w].refs == s.live[w].held + if VisitsSelf(o, s, w) then 1 else 0
  }

  function Deallocate(o: Options, s: World, w: nat): World {
    RunLines(Written(Deallocation(o)), s.(py := Some(w)))
  }

  // tp_clear under the collector's own reference, after which the garbage lets go of its
  // references and the collector of its own.
  function CollectGarbage(o: Options, s: World, w: nat): World
    requires w in s.live
  {
    var r := s.live[w];
    var t := RunLines(Written(DeleteCode(o)), Put(s, w, r.(refs := r.refs + 1)).(py := Some(w)));
    if t.broken || w !in t.live then Broken(t)
    else
      var left := t.live[w].refs - r.held - 1;
      var u := Put(t, w, t.live[w].(refs := left, held := 0));
      if left == 0 then Deallocate(o, u, w) else u
  }

  // The state in which the conversion code starts to run.
  function Returning(s: World, owns: bool): World
    requires owns ==> s.outside > 0
  {
    s.(outside := s.outside - if owns then 1 else 0, py := None)
  }

  function ReturnToPython(o: Options, s: World, owns: bool): World
    requires owns ==> s.outside > 0
  {
    var t := RunLines(Written(Conversion(o, owns)), Returning(s, owns));
    if t.broken || t.py.None? || t.py.value !in t.live then Broken(t)
    else
      var r := t.live[t.py.value];
      Put(t, t.py.value, r.(held := r.held + 1))
  }

  function Next(o: Options, s: World, e: Event): World {
    if !Enabled(o, s, e) then s
    else match e
      case Return(owns) => ReturnToPython(o, s, owns)
      case CppRef => s.(count := s.count + 1, outside := s.outside + 1)
      case CppUnref => Unref(s.(outside := s.outside - 1))
      case PyShare(w) => Put(s, w, s.live[w].(refs := s.live[w].refs + 1, held := s.live[w].held + 1))
      case PyDrop(w) =>
        var t := Put(s, w, s.live[w].(refs := s.live[w].refs - 1, held := s.live[w].held - 1));
        if t.live[w].refs == 0 then Deallocate(o, t, w) else t
      case Collect(w) => CollectGarbage(o, s, w)
  }

  function Run(o: Options, s: World, events: seq<Event>): World
    decreases |events|
  {
    if events == [] then s else Run(o, Next(o, s, events[0]), events[1..])
  }

  // ----- what is to be kept

  function Holders(s: World): set<nat> {
    set w | w in s.live && s.live[w].pointing
  }

  // No line touched freed memory; the count is what C++ holds plus the wrappers that point to
  // the object, and the object is gone only when nothing refers to it.
  predicate Conserved(s: World) {
    && !s.broken
    && (if s.alive then s.count == s.outside + |Holders(s)| && s.count > 0
        else s.outside == 0 && Holders(s) == {})
  }

  // The stronger invariant: every wrapper points to the object, its Python count is what Python
  // holds plus the helper's reference, the registry names a live wrapper that the collector does
  // not know, and a helper instance has one wrapper only.
  predicate Sound(o: Options, s: World) {
    && !s.broken
    && (if s.alive then
          && s.count == s.outside + |s.live.Keys| && s.count > 0
          && (forall w | w in s.live :: w < s.next && Tidy(s, w))
          && (s.registry.Some? ==> o.registry && s.registry.value in s.live && !s.live[s.registry.value].tracked)
          && (s.pyself.Some? ==> o.helper && s.live.Keys == {s.pyself.value})
        else s.outside == 0 && s.live == map[])
  }

  predicate Tidy(s: World, w: nat)
    requires w in s.live
  {
    && s.live[w].pointing && s.live[w].refs > 0
    && s.live[w].refs == s.live[w].held + if s.pyself == Some(w) then 1 else 0
  }

  lemma SoundIsConserved(o: Options, s: World)
    requires Sound(o, s)
    ensures Conserved(s)
  {
    if s.alive {
      assert Holders(s) == s.live.Keys;
    }
  }

  lemma BornSound(o: Options, s: World)
    requires Born(o, s)
    ensures Sound(o, s)
  {
    assert BornInPython(true).live.Keys == {0} == BornInPython(false).live.Keys;
  }

  // ----- return conversions

  function Wrapped(s: World, refs: int): World {
    s.(live := s.live[s.next := Wrapper(true, refs, 0, false)], py := Some(s.next), next := s.next + 1)
  }

  // A wrapper that was not there before, whichever way it got its reference.
  lemma WrapsOnce(o: Options, s: World, owns: bool)
    requires !s.broken && s.alive
    ensures Exec(NewlyWrapped(o, owns), s)
         == (var t := Wrapped(s, 1).(count := s.count + if owns then 0 else 1);
             if o.registry then t.(registry := Some(s.next)) else t)
  {
    var s1 := Step(NewWrapper, s);
    var s2 := if owns then s1 else Step(IncRef, s1);
    var s3 := Step(SetObj, s2);
    assert s1.live[s.next := Wrapper(true, 1, 0, false)] == Wrapped(s, 1).live;
    var register := if o.registry then Do(Register, End) else End;
    assert Exec(Do(SetObj, register), s2) == Exec(register, s3);
  }

  predicate IsReturned(s: World, owns: bool, t: World) {
    && !t.broken && t.alive && t.py.Some? && t.py.value in t.live
    && t.outside == s.outside && t.pyself == s.pyself
    && s.live.Keys <= t.live.Keys == s.live.Keys + {t.py.value} && t.next >= s.next
    && t.count == s.count + |t.live.Keys| - |s.live.Keys| - (if owns then 1 else 0)
    && (forall w | w in s.live && w != t.py.value :: t.live[w] == s.live[w])
    && t.live[t.py.value]
       == (if t.py.value in s.live then s.live[t.py.value].(refs := s.live[t.py.value].refs + 1)
           else Wrapper(true, 1, 0, false))
    && (t.py.value !in s.live ==> t.py.value == s.next < t.next)
  }

  predicate ReadyToReturn(o: Options, s: World, owns: bool) {
    && !s.broken && s.alive && s.py.None?
    && (forall w | w in s.live :: s.live[w].pointing && w < s.next)
    && (s.registry.Some? ==> o.registry && s.registry.value in s.live)
    && (s.pyself.Some? ==> o.helper && s.live.Keys == {s.pyself.value})
    && (owns ==> s.count > |s.live.Keys|)
  }

  // What every conversion does, whatever the options: it leaves in `py` a wrapper that points to
  // the object, with one new Python reference, and takes or gives back exactly the C++ references
  // that this costs.
  lemma ConversionReturnsWrapper(o: Options, s: World, owns: bool)
    requires ReadyToReturn(o, s, owns)
    ensures IsReturned(s, owns, Exec(Conversion(o, owns), s))
    ensures if s.pyself.None? then Registered(o, s, Exec(Conversion(o, owns), s))
            else Exec(Conversion(o, owns), s).py == s.pyself && Exec(Conversion(o, owns), s).registry == s.registry
  {
    if s.pyself.Some? {
      HelperReturns(o, s, owns);
    } else {
      FoundOrNewReturns(o, s, owns);
      assert Exec(Conversion(o, owns), s) == Exec(FoundOrNew(o, owns), s);
    }
  }

  // The branch for a helper instance, which sets `obj` without taking a reference for it.
  lemma HelperResult(o: Options, s: World, owns: bool)
    requires !s.broken && s.alive && s.pyself.Some? && o.helper && s.pyself.value in s.live && (owns ==> s.count > 1)
    ensures Exec(Conversion(o, owns), s)
         == Put(s, s.pyself.value, s.live[s.pyself.value].(pointing := true, refs := s.live[s.pyself.value].refs + 1))
            .(py := s.pyself, count := s.count - if owns then 1 else 0)
  {
    hide FoundOrNew;
    var w := s.pyself.value;
    var s1 := Step(FromSelf, s);
    var s2 := Step(SetObj, s1);
    var s3 := if owns then Step(DecRef, s2) else s2;
    var s4 := Step(PyIncRef, s3);
    var tail := if owns then Do(DecRef, Do(PyIncRef, End)) else Do(PyIncRef, End);
    assert Exec(Do(PyIncRef, End), s3) == Exec(End, s4) == s4;
    assert Exec(tail, s2) == s4;
    var yes := Do(FromSelf, Do(SetObj, tail));
    assert Exec(yes, s) == Exec(Do(SetObj, tail), s1) == Exec(tail, s2);
    assert Exec(Conversion(o, owns), s) == Exec(End, Exec(yes, s));
    assert s4.live == s.live[w := s.live[w].(pointing := true, refs := s.live[w].refs + 1)];
  }

  lemma HelperReturns(o: Options, s: World, owns: bool)
    requires !s.broken && s.alive && s.pyself.Some? && o.helper && s.live.Keys == {s.pyself.value}
    requires s.live[s.pyself.value].pointing && (owns ==> s.count > 1)
    ensures Exec(Conversion(o, owns), s).py == s.pyself && Exec(Conversion(o, owns), s).registry == s.registry
    ensures IsReturned(s, owns, Exec(Conversion(o, owns), s))
  {
    hide Exec, Conversion;
    HelperResult(o, s, owns);
    assert Exec(Conversion(o, owns), s).live.Keys == s.live.Keys;
  }

  // What the registry adds to `IsReturned`: a wrapper it knows is the one returned, otherwise a
  // new one is, and the one returned is known to it afterwards.
  predicate Registered(o: Options, s: World, t: World) {
    && (t.registry == s.registry || (o.registry && t.registry == t.py))
    && (o.registry ==> t.registry.Some?)
    && t.py == (if s.registry.Some? then s.registry else Some(s.next))
  }

  lemma FoundOrNewReturns(o: Options, s: World, owns: bool)
    requires !s.broken && s.alive && s.py.None?
    requires forall w | w in s.live :: w < s.next
    requires s.registry.Some? ==> o.registry && s.registry.value in s.live && (owns ==> s.count > 1)
    ensures IsReturned(s, owns, Exec(FoundOrNew(o, owns), s))
    ensures Registered(o, s, Exec(FoundOrNew(o, owns), s))
  {
    hide IsReturned, Exec, FoundOrNew, Registered;
    if s.registry.None? {
      NewIsReturned(o, s, owns);
    } else {
      FoundIsReturned(o, s, owns);
    }
  }

  lemma WrappedIsReturned(o: Options, s: World, owns: bool)
    requires !s.broken && s.alive && s.registry.None?
    requires forall w | w in s.live :: w < s.next
    ensures var t := Wrapped(s, 1).(count := s.count + if owns then 0 else 1);
            var u := if o.registry then t.(registry := Some(s.next)) else t;
            IsReturned(s, owns, u) && Registered(o, s, u)
  {
    assert s.next !in s.live;
    assert Wrapped(s, 1).live.Keys == s.live.Keys + {s.next};
  }

  lemma NewIsReturned(o: Options, s: World, owns: bool)
    requires !s.broken && s.alive && s.py.None? && s.registry.None?
    requires forall w | w in s.live :: w < s.next
    ensures IsReturned(s, owns, Exec(FoundOrNew(o, owns), s))
    ensures Registered(o, s, Exec(FoundOrNew(o, owns), s))
  {
    hide Exec, NewlyWrapped, Step, IsReturned, Registered, Wrapped;
    if o.registry {
      NotFound(o, s, owns);
    }
    WrapsOnce(o, s, owns);
    WrappedIsReturned(o, s, owns);
  }

  lemma NotFound(o: Options, s: World, owns: bool)
    requires !s.broken && s.registry.None? && s.py.None? && o.registry
    ensures Exec(FoundOrNew(o, owns), s) == Exec(NewlyWrapped(o, owns), s)
  {
    hide NewlyWrapped;
    var branch := FoundOrNew(o, owns).rest;
    assert Step(Lookup, s) == s;
    assert Exec(FoundOrNew(o, owns), s) == Exec(branch, s) == Exec(End, Exec(branch.yes, s));
  }

  function Reused(s: World): World
    requires s.registry.Some? && s.registry.value in s.live
  {
    var w := s.registry.value;
    Put(s.(py := s.registry), w, s.live[w].(refs := s.live[w].refs + 1))
  }

  lemma LookupFinds(s: World)
    requires !s.broken && s.registry.Some? && s.registry.value in s.live
    ensures Step(Lookup, s) == Reused(s)
  {
    var t := s.(py := s.registry);
    assert Step(Lookup, s) == OnWrapper(PyIncRef, t, s.registry.value);
  }

  lemma FoundStays(o: Options, s: World, t: World, owns: bool)
    requires o.registry && t == Step(Lookup, s) && t.py.Some?
    ensures Exec(FoundOrNew(o, owns), s) == if owns then Step(DecRef, t) else t
  {
    hide NewlyWrapped, Step;
    var branch := FoundOrNew(o, owns).rest;
    assert Exec(FoundOrNew(o, owns), s) == Exec(branch, t) == Exec(End, Exec(branch.no, t));
    if owns {
      assert Exec(branch.no, t) == Exec(End, Step(DecRef, t));
    }
  }

  lemma ReusedIsReturned(o: Options, s: World, owns: bool)
    requires !s.broken && s.alive && o.registry && s.registry.Some? && s.registry.value in s.live
    ensures IsReturned(s, owns, Reused(s).(count := s.count - if owns then 1 else 0))
    ensures Registered(o, s, Reused(s).(count := s.count - if owns then 1 else 0))
  {
    assert Reused(s).live.Keys == s.live.Keys;
  }

  lemma FoundIsReturned(o: Options, s: World, owns: bool)
    requires !s.broken && s.alive && o.registry && s.registry.Some? && s.registry.value in s.live
    requires owns ==> s.count > 1
    ensures IsReturned(s, owns, Exec(FoundOrNew(o, owns), s))
    ensures Registered(o, s, Exec(FoundOrNew(o, owns), s))
  {
    hide Exec, FoundOrNew, OnWrapper, IsReturned, Registered;
    LookupFinds(s);
    FoundStays(o, s, Reused(s), owns);
    ReusedIsReturned(o, s, owns);
    assert Step(DecRef, Reused(s)) == Unref(Reused(s));
  }

  lemma SoundIsReady(o: Options, s: World, owns: bool)
    requires Sound(o, s) && s.alive && (owns ==> s.outside > 0)
    ensures ReadyToReturn(o, Returning(s, owns), owns)
    ensures s.next !in s.live
  {
    assert forall w | w in s.live :: Tidy(s, w);
  }

  lemma ReturnSound(o: Options, s: World, owns: bool)
    requires Sound(o, s) && s.alive && (owns ==> s.outside > 0)
    ensures Sound(o, ReturnToPython(o, s, owns)) && ReturnToPython(o, s, owns).alive
  {
    hide RunLines, Written, Conversion, Exec, Sound, ReadyToReturn, Registered;
    var s0 := Returning(s, owns);
    SoundIsReady(o, s, owns);
    ConversionReturnsWrapper(o, s0, owns);
    ConversionRuns(o, s0, owns);
    ReturnedSound(o, s, owns, Exec(Conversion(o, owns), s0));
  }

  lemma ConversionRuns(o: Options, s: World, owns: bool)
    ensures RunLines(Written(Conversion(o, owns)), s) == Exec(Conversion(o, owns), s)
  {
    hide Conversion, Written;
    var c := Conversion(o, owns);
    assert Written(c) + [] == Written(c);
    LinesMeanTree(c, [], s);
  }

  lemma ReturnedSound(o: Options, s: World, owns: bool, t: World)
    requires Sound(o, s) && s.alive && (owns ==> s.outside > 0)
    requires IsReturned(Returning(s, owns), owns, t)
    requires if s.pyself.None? then Registered(o, Returning(s, owns), t)
             else t.py == s.pyself && t.registry == s.registry
    ensures var r := t.live[t.py.value]; Sound(o, Put(t, t.py.value, r.(held := r.held + 1)))
  {
    hide Tidy;
    var w := t.py.value;
    var u := Put(t, w, t.live[w].(held := t.live[w].held + 1));
    assert u.live.Keys == t.live.Keys;
    forall v | v in u.live
      ensures v < u.next && Tidy(u, v)
    {
      ReturnedTidy(o, s, owns, t, v);
    }
    if w in s.live {
      assert t.live.Keys == s.live.Keys;
    }
  }

  lemma ReturnedTidy(o: Options, s: World, owns: bool, t: World, v: nat)
    requires Sound(o, s) && s.alive && (owns ==> s.outside > 0)
    requires IsReturned(Returning(s, owns), owns, t) && v in t.live
    requires s.pyself.Some? ==> t.py == s.pyself
    ensures var r := t.live[t.py.value];
            v < t.next && v in Put(t, t.py.value, r.(held := r.held + 1)).live
              && Tidy(Put(t, t.py.value, r.(held := r.held + 1)), v)
  {
    if v in s.live {
      assert Tidy(s, v);
    }
  }

  // ----- wrappers going away

  // The last Python reference to a wrapper is gone: it leaves the registry, gives its reference
  // back and is freed; with the last reference the object goes too.
  lemma Deallocates(o: Options, s: World, w: nat)
    requires !s.broken && s.alive && s.pyself.None? && s.count > 0
    requires w in s.live && s.live[w].pointing && !o.singleton
    ensures Deallocate(o, s, w)
         == s.(live := s.live - {w}, registry := if o.registry then None else s.registry,
               count := s.count - 1, alive := s.count > 1, py := Some(w))
  {
    DeallocationRuns(o, s.(py := Some(w)));
    hide RunLines, Written;
    var s0 := s.(py := Some(w));
    var s1 := if o.registry then Step(Unregister, s0) else s0;
    var s2 := Step(ClearObj, s1);
    assert s1.live == s.live;
    assert s2.live == s.live[w := s.live[w].(pointing := false)];
    assert Step(Free, s2).live == s.live - {w};
  }

  lemma DeallocationRuns(o: Options, s: World)
    ensures var s1 := if o.registry then Step(Unregister, s) else s;
            var s2 := if o.singleton then s1 else Step(ClearObj, s1);
            RunLines(Written(Deallocation(o)), s) == Step(Free, s2)
  {
    hide Step, Written;
    var c := Deallocation(o);
    assert Written(c) + [] == Written(c);
    LinesMeanTree(c, [], s);
    var s1 := if o.registry then Step(Unregister, s) else s;
    var s2 := if o.singleton then s1 else Step(ClearObj, s1);
    var free := Do(Free, End);
    assert Exec(free, s2) == Exec(End, Step(Free, s2));
    var delete := if o.singleton then free else Do(ClearObj, free);
    assert Exec(delete, s1) == Exec(free, s2);
    assert Exec(c, s) == Exec(delete, s1);
  }

  lemma DropSound(o: Options, s: World, w: nat)
    requires Sound(o, s) && Enabled(o, s, PyDrop(w)) && !o.singleton
    ensures Sound(o, Next(o, s, PyDrop(w)))
  {
    hide Deallocate;
    var r := s.live[w];
    assert Tidy(s, w);
    var t := Put(s, w, r.(refs := r.refs - 1, held := r.held - 1));
    assert t.live.Keys == s.live.Keys;
    if r.refs == 1 {
      Deallocates(o, t, w);
      RemovedSound(o, s, w, Deallocate(o, t, w));
    } else {
      forall v | v in t.live
        ensures v < t.next && Tidy(t, v)
      {
        assert Tidy(s, v);
      }
    }
  }

  lemma RemovedSound(o: Options, s: World, w: nat, t: World)
    requires Sound(o, s) && s.alive && w in s.live && s.pyself.None?
    requires !t.broken && t.live.Keys == s.live.Keys - {w} && (forall v | v in t.live :: t.live[v] == s.live[v])
    requires t.count == s.count - 1 && t.alive == (s.count > 1) && t.outside == s.outside && t.next == s.next
    requires t.registry.None? || (t.registry == s.registry && s.registry != Some(w))
    requires t.pyself.None?
    ensures Sound(o, t)
  {
    assert |t.live.Keys| == |s.live.Keys| - 1;
    if t.alive {
      forall v | v in t.live
        ensures v < t.next && Tidy(t, v)
      {
        assert Tidy(s, v);
      }
    } else {
      assert t.live == map[];
    }
  }

  lemma UnrefSound(o: Options, s: World)
    requires Sound(o, s) && s.alive && s.outside > 0
    ensures Sound(o, Unref(s.(outside := s.outside - 1)))
  {
    if s.count > 1 {
      assert forall w | w in s.live :: Tidy(s, w);
    } else {
      assert s.live.Keys == {};
    }
  }

  // ----- garbage collection

  // The options with which every run keeps the count; `gc` says whether the collector may run.
  predicate Safe(o: Options, gc: bool) {
    !o.singleton && (gc && o.helper ==> o.peeks)
  }

  lemma DeleteRuns(o: Options, s: World)
    requires !o.singleton
    ensures RunLines(Written(DeleteCode(o)), s) == Step(ClearObj, s)
  {
    hide Step, Written;
    var c := DeleteCode(o);
    assert Written(c) + [] == Written(c);
    LinesMeanTree(c, [], s);
    assert Exec(c, s) == Exec(End, Step(ClearObj, s));
  }

  // A wrapper whose `obj` field was cleared before.
  lemma DeallocatesCleared(o: Options, s: World, w: nat)
    requires !s.broken && w in s.live && !s.live[w].pointing
    ensures Deallocate(o, s, w) == s.(live := s.live - {w}, py := Some(w))
  {
    DeallocationRuns(o, s.(py := Some(w)));
  }

  lemma CollectSound(o: Options, s: World, w: nat)
    requires Sound(o, s) && Enabled(o, s, Collect(w)) && Safe(o, true)
    ensures Sound(o, Next(o, s, Collect(w)))
    ensures s.pyself.Some? ==> !Next(o, s, Collect(w)).alive
  {
    hide RunLines, Written, Deallocate;
    assert Tidy(s, w);
    var r := s.live[w];
    var t0 := Put(s, w, r.(refs := r.refs + 1)).(py := Some(w));
    DeleteRuns(o, t0);
    Clears(s, t0, w);
    var t := Step(ClearObj, t0);
    var u := Put(t, w, Wrapper(false, 0, 0, true));
    assert t.live[w].(refs := 0, held := 0) == Wrapper(false, 0, 0, true);
    DeallocatesCleared(o, u, w);
    var end := Deallocate(o, u, w);
    assert CollectGarbage(o, s, w) == end;
    assert end.live.Keys == s.live.Keys - {w};
    if s.pyself.None? {
      RemovedSound(o, s, w, end);
    } else {
      assert end.live == map[];
    }
  }

  // tp_clear on the wrapper the collector holds: a plain object loses one reference, a helper
  // instance that only its own wrapper keeps is destroyed and lets that wrapper go.
  lemma Clears(s: World, t0: World, w: nat)
    requires !s.broken && s.alive && s.count > 0 && w in s.live && Tidy(s, w)
    requires s.pyself.Some? ==> s.count == 1 && s.pyself == Some(w)
    requires t0 == Put(s, w, s.live[w].(refs := s.live[w].refs + 1)).(py := Some(w))
    ensures var t := Step(ClearObj, t0);
            && !t.broken && t.count == s.count - 1 && t.alive == (s.count > 1)
            && t.outside == s.outside && t.registry == s.registry && t.next == s.next && t.pyself.None?
            && t.live == s.live[w := s.live[w].(pointing := false, refs := s.live[w].held + 1)]
  {
    var cleared := Put(t0, w, t0.live[w].(pointing := false));
    assert Step(ClearObj, t0) == Unref(cleared);
    assert cleared.live == s.live[w := s.live[w].(pointing := false, refs := s.live[w].refs + 1)];
  }

  // ----- whole runs

  lemma NextSound(o: Options, s: World, e: Event)
    requires Sound(o, s) && Safe(o, e.Collect?)
    ensures Sound(o, Next(o, s, e))
  {
    hide Sound, ReturnToPython, CollectGarbage, Deallocate, Unref, Safe;
    if Enabled(o, s, e) {
      match e
      case Return(owns) => ReturnSound(o, s, owns);
      case CppRef => RefSound(o, s);
      case CppUnref => UnrefSound(o, s);
      case PyShare(w) => ShareSound(o, s, w);
      case PyDrop(w) => SafeNeverSingleton(o, false); DropSound(o, s, w);
      case Collect(w) => CollectSound(o, s, w);
    }
  }

  lemma SafeNeverSingleton(o: Options, gc: bool)
    requires Safe(o, gc)
    ensures !o.singleton
  {
  }

  lemma RefSound(o: Options, s: World)
    requires Sound(o, s) && s.alive
    ensures Sound(o, s.(count := s.count + 1, outside := s.outside + 1))
  {
    assert forall w | w in s.live :: Tidy(s, w);
  }

  lemma ShareSound(o: Options, s: World, w: nat)
    requires Sound(o, s) && Enabled(o, s, PyShare(w))
    ensures Sound(o, Next(o, s, PyShare(w)))
  {
    var t := Next(o, s, PyShare(w));
    assert t.live.Keys == s.live.Keys;
    forall v | v in t.live
      ensures v < t.next && Tidy(t, v)
    {
      assert Tidy(s, v);
    }
  }

  predicate Allowed(events: seq<Event>, gc: bool) {
    gc || forall i :: 0 <= i < |events| ==> !events[i].Collect?
  }

  lemma {:induction false} RunSound(o: Options, s: World, events: seq<Event>, gc: bool)
    requires Sound(o, s) && Safe(o, gc) && Allowed(events, gc)
    ensures Sound(o, Run(o, s, events))
    decreases |events|
  {
    if events != [] {
      assert gc || !events[0].Collect?;
      NextSound(o, s, events[0]);
      RunSound(o, Next(o, s, events[0]), events[1..], gc);
    }
  }

  ghost predicate Conserves(o: Options, gc: bool) {
    forall s, events :: Born(o, s) && Allowed(events, gc) ==> Conserved(Run(o, s, events))
  }

  // Whatever the mix of options, and for every run from every birth, the count is what C++ code
  // holds plus the wrappers that point to the object -- exactly when the class is no singleton
  // and, if the collector runs, a helper class comes with a policy that can read the count.
  lemma ConservedExactly(o: Options, gc: bool)
    requires Possible(o)
    ensures Conserves(o, gc) <==> Safe(o, gc)
  {
    if Safe(o, gc) {
      forall s, events | Born(o, s) && Allowed(events, gc)
        ensures Conserved(Run(o, s, events))
      {
        BornSound(o, s);
        RunSound(o, s, events, gc);
        SoundIsConserved(o, Run(o, s, events));
      }
    } else if o.singleton {
      SingletonLeaks(o);
      assert Born(o, BornInPython(false)) && Allowed([PyDrop(0)], gc);
    } else {
      HelperUncounted(o);
      assert Born(o, BornInPython(true)) && Allowed([CppRef, Collect(0), Return(false)], gc);
    }
  }

  // ----- where it fails

  // Every event of the run can happen when it comes.
  predicate Happens(o: Options, s: World, events: seq<Event>)
    decreases |events|
  {
    events == [] || (Enabled(o, s, events[0]) && Happens(o, Next(o, s, events[0]), events[1..]))
  }

  // The wrapper of a singleton never gives its reference back.
  lemma SingletonLeaks(o: Options)
    requires o.singleton
    ensures Happens(o, BornInPython(false), [PyDrop(0)])
    ensures !Conserved(Run(o, BornInPython(false), [PyDrop(0)]))
  {
    var s := BornInPython(false);
    var t := Put(s, 0, Wrapper(true, 0, 0, true));
    var u := Next(o, s, PyDrop(0));
    assert u == Deallocate(o, t, 0);
    DeallocationRuns(o, t.(py := Some(0)));
    assert u.alive && u.count == 1 && u.outside == 0 && 0 !in u.live;
    assert Holders(u) == {} by {
      assert forall w | w in u.live :: w == 0;
    }
    assert [PyDrop(0)][1..] == [];
    assert Run(o, s, [PyDrop(0)]) == Run(o, u, []);
  }

  lemma RunStep(o: Options, s: World, e: Event, rest: seq<Event>)
    ensures Run(o, s, [e] + rest) == Run(o, Next(o, s, e), rest)
    ensures Happens(o, s, [e] + rest) <==> Enabled(o, s, e) && Happens(o, Next(o, s, e), rest)
  {
    hide Next, Enabled;
    assert ([e] + rest)[1..] == rest;
  }

  lemma RunThree(o: Options, s: World, a: Event, b: Event, c: Event)
    ensures Run(o, s, [a, b, c]) == Next(o, Next(o, Next(o, s, a), b), c)
    ensures Happens(o, s, [a, b, c])
       <==> Enabled(o, s, a) && Enabled(o, Next(o, s, a), b) && Enabled(o, Next(o, Next(o, s, a), b), c)
  {
    hide Next, Enabled;
    var t := Next(o, s, a);
    var u := Next(o, t, b);
    assert [a, b, c] == [a] + ([b] + ([c] + []));
    RunStep(o, s, a, [b] + ([c] + []));
    RunStep(o, t, b, [c] + []);
    RunStep(o, u, c, []);
  }

  // With no way to read the count, the collector clears the wrapper of a helper instance that C++
  // code still holds; the next return points it to the object again without a reference.
  lemma HelperUncounted(o: Options)
    requires o.helper && !o.peeks && o.subclassing && !o.singleton
    ensures Happens(o, BornInPython(true), [CppRef, Collect(0), Return(false)])
    ensures !Conserved(Run(o, BornInPython(true), [CppRef, Collect(0), Return(false)]))
  {
    hide RunLines, Written, Deallocate, Run, Happens, Exec, Conversion;
    var s := BornInPython(true);
    RunThree(o, s, CppRef, Collect(0), Return(false));
    var a := Next(o, s, CppRef);
    assert a.live == map[0 := Wrapper(true, 2, 1, true)] && a.count == 2;
    var t0 := Put(a, 0, Wrapper(true, 3, 1, true)).(py := Some(0));
    DeleteRuns(o, t0);
    var t := Step(ClearObj, t0);
    assert t == Unref(Put(t0, 0, Wrapper(false, 3, 1, true)));
    var b := Next(o, a, Collect(0));
    assert b.live == map[0 := Wrapper(false, 1, 0, true)] && b.count == 1 && b.alive && !b.broken;
    var b0 := b.(py := None);
    ConversionRuns(o, b0, false);
    HelperResult(o, b0, false);
    var c := Next(o, b, Return(false));
    assert c.count == 1 && c.outside == 1 && 0 in Holders(c);
  }

  // ----- one wrapper for one object

  // The registry knows the one wrapper there is, and the collector does not.
  predicate Known(s: World) {
    && s.pyself.None? && s.live.Keys == (if s.registry.Some? then {s.registry.value} else {})
    && forall w :: w in s.live ==> !s.live[w].tracked
  }

  lemma UnregisteredUnless(o: Options, s: World)
    requires Sound(o, s) && s.alive && !o.registry
    ensures s.registry.None?
  {
  }

  // A return keeps the wrapper there is or makes one that the collector does not track.
  predicate KeepsOrMakes(o: Options, s: World, t: World) {
    var w := if s.registry.Some? then s.registry.value else s.next;
    && t.live.Keys == s.live.Keys + {w}
    && t.registry == (if o.registry then Some(w) else None)
    && t.pyself.None?
    && forall v :: v in t.live ==> t.live[v].tracked == (v in s.live && s.live[v].tracked)
  }

  lemma ReturnCounts(o: Options, s: World, owns: bool)
    requires Sound(o, s) && s.alive && s.pyself.None? && (owns ==> s.outside > 0)
    ensures KeepsOrMakes(o, s, ReturnToPython(o, s, owns)) && s.next !in s.live
  {
    hide RunLines, Written, Conversion, Exec, Sound, ReadyToReturn, Registered, KeepsOrMakes;
    var s0 := Returning(s, owns);
    SoundIsReady(o, s, owns);
    ConversionReturnsWrapper(o, s0, owns);
    ConversionRuns(o, s0, owns);
    if !o.registry {
      UnregisteredUnless(o, s);
    }
    ReturnedCounts(o, s, owns, Exec(Conversion(o, owns), s0));
  }

  lemma ReturnedCounts(o: Options, s: World, owns: bool, t: World)
    requires s.pyself.None? && (owns ==> s.outside > 0) && (!o.registry ==> s.registry.None?)
    requires IsReturned(Returning(s, owns), owns, t) && Registered(o, Returning(s, owns), t)
    ensures var r := t.live[t.py.value]; KeepsOrMakes(o, s, Put(t, t.py.value, r.(held := r.held + 1)))
  {
    var u := Put(t, t.py.value, t.live[t.py.value].(held := t.live[t.py.value].held + 1));
    assert u.live.Keys == t.live.Keys;
  }

  lemma NextKnown(o: Options, s: World, e: Event)
    requires Sound(o, s) && Known(s) && o.registry && !o.singleton
    ensures Known(Next(o, s, e))
  {
    hide Sound, ReturnToPython, Deallocate;
    if Enabled(o, s, e) {
      if e.Return? {
        ReturnCounts(o, s, e.callerOwns);
      } else if e.PyDrop? {
        var r := s.live[e.w];
        var t := Put(s, e.w, r.(refs := r.refs - 1, held := r.held - 1));
        assert t.live.Keys == s.live.Keys;
        if r.refs == 1 {
          DropPointing(o, s, e.w);
          Deallocates(o, t, e.w);
        }
      } else if e.PyShare? {
        assert Next(o, s, e).live.Keys == s.live.Keys;
      } else if e.CppUnref? {
        UnrefLive(o, s);
      }
    }
  }

  lemma UnrefLive(o: Options, s: World)
    requires Sound(o, s) && s.alive && s.outside > 0 && s.pyself.None?
    ensures var t := Unref(s.(outside := s.outside - 1)); t.live == s.live && t.registry == s.registry && t.pyself.None?
  {
  }

  lemma DropPointing(o: Options, s: World, w: nat)
    requires Sound(o, s) && s.alive && w in s.live
    ensures s.live[w].pointing && s.count > 0
  {
    assert Tidy(s, w);
  }

  lemma {:induction false} RunKnown(o: Options, s: World, events: seq<Event>, gc: bool)
    requires Sound(o, s) && Known(s) && o.registry && Safe(o, gc) && Allowed(events, gc)
    ensures Known(Run(o, s, events))
    decreases |events|
  {
    if events != [] {
      assert gc || !events[0].Collect?;
      NextKnown(o, s, events[0]);
      NextSound(o, s, events[0]);
      RunKnown(o, Next(o, s, events[0]), events[1..], gc);
    }
  }

  // A run from a helper instance never has a second wrapper: while the object lives, its wrapper
  // is the only one.
  lemma {:induction false} RunSelf(o: Options, s: World, events: seq<Event>, gc: bool)
    requires Sound(o, s) && (s.alive ==> s.pyself.Some?) && Safe(o, gc) && Allowed(events, gc)
    ensures |Run(o, s, events).live.Keys| <= 1
    decreases |events|
  {
    if events != [] {
      assert gc || !events[0].Collect?;
      NextSound(o, s, events[0]);
      NextSelf(o, s, events[0]);
      RunSelf(o, Next(o, s, events[0]), events[1..], gc);
    }
  }

  lemma NextSelf(o: Options, s: World, e: Event)
    requires Sound(o, s) && (s.alive ==> s.pyself.Some?) && Safe(o, e.Collect?)
    ensures Next(o, s, e).alive ==> Next(o, s, e).pyself.Some?
  {
    hide RunLines, Written, Conversion, Exec, Deallocate, CollectGarbage;
    if Enabled(o, s, e) {
      if e.Return? {
        SoundIsReady(o, s, e.callerOwns);
        ConversionReturnsWrapper(o, Returning(s, e.callerOwns), e.callerOwns);
        ConversionRuns(o, Returning(s, e.callerOwns), e.callerOwns);
      } else if e.PyDrop? {
        assert Tidy(s, e.w);
      } else if e.Collect? {
        CollectSound(o, s, e.w);
      }
    }
  }

  ghost predicate OneWrapper(o: Options, s: World, gc: bool) {
    forall events :: Allowed(events, gc) ==> |Run(o, s, events).live.Keys| <= 1
  }

  // Under safe options Python sees one wrapper for one object, collections or not, exactly when
  // the object is a helper instance, or C++ code made it and the registry is in use: a
  // constructor call does not register the wrapper it makes.
  lemma OneWrapperExactly(o: Options, s: World, gc: bool)
    requires Possible(o) && Born(o, s) && Safe(o, gc)
    ensures OneWrapper(o, s, gc) <==> s.pyself.Some? || (o.registry && s.live == map[])
  {
    BornSound(o, s);
    if s.pyself.Some? {
      forall events | Allowed(events, gc)
        ensures |Run(o, s, events).live.Keys| <= 1
      {
        RunSelf(o, s, events, gc);
      }
    } else if o.registry && s.live == map[] {
      forall events | Allowed(events, gc)
        ensures |Run(o, s, events).live.Keys| <= 1
      {
        RunKnown(o, s, events, gc);
      }
    } else {
      SecondWrapper(o, s, gc);
    }
  }

  lemma SecondWrapper(o: Options, s: World, gc: bool)
    requires Sound(o, s) && s.alive && s.pyself.None? && s.registry.None? && !(o.registry && s.live == map[])
    ensures !OneWrapper(o, s, gc)
  {
    hide ReturnToPython, Sound;
    var a := Next(o, s, Return(false));
    var b := Next(o, a, Return(false));
    assert s.next !in s.live && a.live.Keys == s.live.Keys + {s.next} by {
      SoundReturns(o, s);
      ReturnCounts(o, s, false);
    }
    if s.live != map[] {
      var w :| w in s.live;
      assert [Return(false)][1..] == [];
      assert Run(o, s, [Return(false)]) == Run(o, a, []) == a;
      assert {w, s.next} <= a.live.Keys;
      assert |{w, s.next}| == 2;
      Contains({w, s.next}, a.live.Keys);
      assert Allowed([Return(false)], gc);
    } else {
      SoundReturns(o, s);
      ReturnSound(o, s, false);
      ReturnCounts(o, s, false);
      UnregisteredUnless(o, a);
      SoundReturns(o, a);
      ReturnCounts(o, a, false);
      RunTwo(o, s, Return(false));
      assert b.live.Keys == {s.next, a.next} && s.next in a.live.Keys;
      assert |b.live.Keys| == 2;
      assert Allowed([Return(false), Return(false)], gc);
    }
  }

  lemma SoundReturns(o: Options, s: World)
    requires Sound(o, s) && s.alive
    ensures Enabled(o, s, Return(false))
  {
  }


  lemma RunTwo(o: Options, s: World, e: Event)
    ensures Run(o, s, [e, e]) == Next(o, Next(o, s, e), e)
  {
    hide Next;
    assert [e, e][1..] == [e] && [e][1..] == [];
    assert Run(o, s, [e, e]) == Run(o, Next(o, s, e), [e]);
  }

  lemma Contains(a: set<nat>, b: set<nat>)
    requires a <= b
    ensures |a| <= |b|
  {
    assert b == a + (b - a);
  }
}
