// The C++ that PyBindGen emits to hand a reference-counted object to Python and to take a
// wrapper down again: the lines in the order the generator writes them, what each line does to
// the object and its wrappers, and a proof that the emitted blocks nest as intended.
module WrapperCode {
  import opened Wrappers

  // The class options that decide what is emitted.
  datatype Options = Options(
    helper: bool,       // the class has a Python-overriding helper subclass
    registry: bool,     // wrappers are kept in a std::map; otherwise the registry is the null one
    subclassing: bool,  // wrappers take part in garbage collection
    singleton: bool,
    peeks: bool)        // the policy names a method that reads the count

  // A helper class is made only for a class that allows subclassing and is not a singleton.
  predicate Possible(o: Options) {
    o.helper ==> o.subclassing && !o.singleton
  }

  // ----- the object and its wrappers

  // A Python wrapper: whether its `obj` field still points to the object, its Python reference
  // count, how many of those references Python code holds, and whether the garbage collector
  // knows it.
  datatype Wrapper = Wrapper(pointing: bool, refs: int, held: nat, tracked: bool)

  // One C++ object. `outside` is what C++ code holds of its count; `pyself` is the helper
  // instance's own wrapper; `py` is the local variable of the code being run. `broken` records
  // that a line touched a freed wrapper or a destroyed object.
  datatype World = World(
    alive: bool, count: int, outside: nat,
    live: map<nat, Wrapper>, registry: Option<nat>, pyself: Option<nat>,
    next: nat, py: Option<nat>, broken: bool)

  function Put(s: World, w: nat, r: Wrapper): World {
    s.(live := s.live[w := r])
  }

  function Broken(s: World): World {
    s.(broken := true)
  }

  // The destructor: a helper instance lets go of its wrapper, which may be the last reference.
  function Destroy(s: World): World {
    var t := s.(alive := false, pyself := None);
    if s.pyself.None? then t
    else if s.pyself.value !in s.live then Broken(t)
    else
      var r := s.live[s.pyself.value];
      if r.refs != 1 then Put(t, s.pyself.value, r.(refs := r.refs - 1))
      else if r.pointing then Broken(t)
      else t.(live := t.live - {s.pyself.value})
  }

  function Unref(s: World): World {
    if !s.alive || s.count < 1 then Broken(s)
    else if s.count == 1 then Destroy(s.(count := 0))
    else s.(count := s.count - 1)
  }

  // ----- lines of emitted code

  datatype Op =
    | NewWrapper   // py = PyObject_New(...) or PyObject_GC_New(...), which does not track it
    | SetObj       // py->obj = value
    | IncRef       // value->Ref()
    | DecRef       // value->Unref()
    | Lookup       // py = registry[value], with a new reference, or NULL
    | Register     // registry[py->obj] = py
    | FromSelf     // py = value->m_pyself
    | PyIncRef     // Py_INCREF(py)
    | Unregister   // erase registry[py->obj]
    | ClearObj     // if (py->obj) { tmp = py->obj; py->obj = NULL; tmp->Unref(); }
    | Free         // tp_free(py)

  datatype Condition = PyIsNull | IsHelperInstance

  predicate Holds(c: Condition, s: World) {
    match c
    case PyIsNull => s.py.None?
    case IsHelperInstance => s.pyself.Some?
  }

  // The operation when `py` names a wrapper that has not been freed.
  function OnWrapper(op: Op, s: World, w: nat): World
    requires w in s.live
  {
    var r := s.live[w];
    match op
    case SetObj => Put(s, w, r.(pointing := true))
    case PyIncRef => Put(s, w, r.(refs := r.refs + 1))
    case Unregister => if r.pointing then s.(registry := None) else s
    case ClearObj => if r.pointing then Unref(Put(s, w, r.(pointing := false))) else s
    case Free => s.(live := s.live - {w})
    case _ => s
  }

  function Step(op: Op, s: World): World {
    if s.broken then s
    else match op
      case NewWrapper => Put(s, s.next, Wrapper(false, 1, 0, false)).(py := Some(s.next), next := s.next + 1)
      case IncRef => if s.alive then s.(count := s.count + 1) else Broken(s)
      case DecRef => Unref(s)
      case Lookup =>
        if s.registry.None? then s.(py := None)
        else if s.registry.value !in s.live then Broken(s.(py := s.registry))
        else OnWrapper(PyIncRef, s.(py := s.registry), s.registry.value)
      case Register => s.(registry := s.py)
      case FromSelf => s.(py := s.pyself)
      case _ => if s.py.None? || s.py.value !in s.live then Broken(s) else OnWrapper(op, s, s.py.value)
  }

  // A line is caught when it uses a freed wrapper or counts a reference of an object that is gone.
  lemma CaughtExactly(op: Op, s: World)
    requires !s.broken
    ensures var freed := s.py.None? || s.py.value !in s.live;
            match op
            case NewWrapper => !Step(op, s).broken
            case Register => !Step(op, s).broken
            case FromSelf => !Step(op, s).broken
            case Lookup => Step(op, s).broken <==> s.registry.Some? && s.registry.value !in s.live
            case IncRef => Step(op, s).broken <==> !s.alive
            case DecRef =>
              && (!s.alive || s.count < 1 ==> Step(op, s).broken)
              && (s.alive && s.count > 1 ==> !Step(op, s).broken)
              && (s.alive && s.count == 1 && s.pyself.None? ==> !Step(op, s).broken && !Step(op, s).alive)
            case ClearObj =>
              && (freed ==> Step(op, s).broken)
              && (!freed && s.live[s.py.value].pointing && (!s.alive || s.count < 1) ==> Step(op, s).broken)
              && (!freed && !s.live[s.py.value].pointing ==> !Step(op, s).broken)
            case _ => Step(op, s).broken <==> freed
  {
  }

  datatype Line = Plain(op: Op) | If(cond: Condition) | Else | Close

  // The lines after the block being skipped: past the `Close` that ends it, or past an `Else` of
  // its own when the skipping may stop there.
  function Skip(lines: seq<Line>, depth: nat, atElse: bool): seq<Line> {
    if lines == [] then []
    else match lines[0]
      case Plain(_) => Skip(lines[1..], depth, atElse)
      case If(_) => Skip(lines[1..], depth + 1, atElse)
      case Else => if depth == 0 && atElse then lines[1..] else Skip(lines[1..], depth, atElse)
      case Close => if depth == 0 then lines[1..] else Skip(lines[1..], depth - 1, atElse)
  }

  lemma {:induction false} SkipShortens(lines: seq<Line>, depth: nat, atElse: bool)
    ensures |Skip(lines, depth, atElse)| <= |lines|
    decreases |lines|
  {
    if lines != [] {
      SkipShortens(lines[1..], depth, atElse);
      SkipShortens(lines[1..], depth + 1, atElse);
      if depth > 0 {
        SkipShortens(lines[1..], depth - 1, atElse);
      }
    }
  }

  function RunLines(lines: seq<Line>, s: World): World
    decreases |lines|
  {
    if lines == [] then s
    else
      SkipShortens(lines[1..], 0, true);
      SkipShortens(lines[1..], 0, false);
      match lines[0]
      case Plain(op) => RunLines(lines[1..], Step(op, s))
      case If(c) => RunLines(if Holds(c, s) then lines[1..] else Skip(lines[1..], 0, true), s)
      case Else => RunLines(Skip(lines[1..], 0, false), s)
      case Close => RunLines(lines[1..], s)
  }

  // ----- the same code as a tree

  datatype Code = End | Do(op: Op, rest: Code) | When(cond: Condition, yes: Code, no: Code, rest: Code)

  function Written(c: Code): seq<Line> {
    match c
    case End => []
    case Do(op, rest) => [Plain(op)] + Written(rest)
    case When(cond, yes, no, rest) =>
      [If(cond)] + Written(yes) + (if no.End? then [] else [Else] + Written(no)) + [Close] + Written(rest)
  }

  function Exec(c: Code, s: World): World
    decreases c
  {
    match c
    case End => s
    case Do(op, rest) => Exec(rest, Step(op, s))
    case When(cond, yes, no, rest) => Exec(rest, Exec(if Holds(cond, s) then yes else no, s))
  }

  // What follows the first block of a conditional.
  function OrElse(no: Code, onward: seq<Line>): seq<Line> {
    (if no.End? then [] else [Else] + Written(no)) + [Close] + onward
  }

  lemma WhenWritten(c: Code, tail: seq<Line>)
    requires c.When?
    ensures Written(c) + tail == [If(c.cond)] + (Written(c.yes) + OrElse(c.no, Written(c.rest) + tail))
  {
    var middle := if c.no.End? then [] else [Else] + Written(c.no);
    assert Written(c) == [If(c.cond)] + Written(c.yes) + middle + [Close] + Written(c.rest);
    Regrouped([If(c.cond)], Written(c.yes), middle, Written(c.rest), tail);
  }

  lemma Regrouped(a: seq<Line>, b: seq<Line>, c: seq<Line>, d: seq<Line>, e: seq<Line>)
    ensures a + b + c + [Close] + d + e == a + (b + (c + [Close] + (d + e)))
  {
  }

  lemma {:induction false} SkipPasses(c: Code, tail: seq<Line>, depth: nat, atElse: bool)
    requires atElse ==> depth > 0
    ensures Skip(Written(c) + tail, depth, atElse) == Skip(tail, depth, atElse)
    decreases c, 1
  {
    if c.End? {
      assert Written(c) + tail == tail;
    } else if c.Do? {
      assert (Written(c) + tail)[1..] == Written(c.rest) + tail;
      SkipPasses(c.rest, tail, depth, atElse);
    } else {
      SkipConditional(c, tail, depth, atElse);
      SkipPasses(c.rest, tail, depth, atElse);
    }
  }

  lemma {:induction false} SkipConditional(c: Code, tail: seq<Line>, depth: nat, atElse: bool)
    requires c.When?
    ensures Skip(Written(c) + tail, depth, atElse) == Skip(Written(c.rest) + tail, depth, atElse)
    decreases c, 0
  {
    hide Written;
    var onward := Written(c.rest) + tail;
    WhenWritten(c, tail);
    SkipPasses(c.yes, OrElse(c.no, onward), depth + 1, atElse);
    if c.no.End? {
      assert OrElse(c.no, onward) == [Close] + onward;
    } else {
      assert OrElse(c.no, onward) == [Else] + (Written(c.no) + ([Close] + onward));
      SkipPasses(c.no, [Close] + onward, depth + 1, atElse);
    }
  }

  // A whole block ended by its own `Close`, or by its own `Else`.
  lemma {:induction false} SkipStops(c: Code, stop: Line, tail: seq<Line>, atElse: bool)
    requires stop == Close || (stop == Else && atElse)
    ensures Skip(Written(c) + ([stop] + tail), 0, atElse) == tail
    decreases c
  {
    if c.End? {
      assert Written(c) + ([stop] + tail) == [stop] + tail;
    } else {
      if c.Do? {
        assert (Written(c) + ([stop] + tail))[1..] == Written(c.rest) + ([stop] + tail);
      } else {
        SkipConditional(c, [stop] + tail, 0, atElse);
      }
      SkipStops(c.rest, stop, tail, atElse);
    }
  }

  // After the first block was run, and when it is skipped.
  lemma FirstBlockDone(no: Code, onward: seq<Line>, s: World)
    ensures RunLines(OrElse(no, onward), s) == RunLines(onward, s)
  {
    hide Written;
    if no.End? {
      assert OrElse(no, onward) == [Close] + onward;
    } else {
      assert OrElse(no, onward) == [Else] + (Written(no) + ([Close] + onward));
      SkipStops(no, Close, onward, false);
    }
  }

  lemma FirstBlockSkipped(yes: Code, no: Code, onward: seq<Line>)
    ensures Skip(Written(yes) + OrElse(no, onward), 0, true)
         == if no.End? then onward else Written(no) + ([Close] + onward)
  {
    hide Written, Skip;
    if no.End? {
      assert OrElse(no, onward) == [Close] + onward;
      SkipStops(yes, Close, onward, true);
    } else {
      assert OrElse(no, onward) == [Else] + (Written(no) + ([Close] + onward));
      SkipStops(yes, Else, Written(no) + ([Close] + onward), true);
    }
  }

  // Running the emitted lines one after another does what the nested code means.
  lemma {:induction false} LinesMeanTree(c: Code, tail: seq<Line>, s: World)
    ensures RunLines(Written(c) + tail, s) == RunLines(tail, Exec(c, s))
    decreases c, 1
  {
    if c.End? {
      assert Written(c) + tail == tail;
    } else if c.Do? {
      assert (Written(c) + tail)[1..] == Written(c.rest) + tail;
      LinesMeanTree(c.rest, tail, Step(c.op, s));
    } else {
      ConditionalRuns(c, tail, s);
      LinesMeanTree(c.rest, tail, Exec(if Holds(c.cond, s) then c.yes else c.no, s));
    }
  }

  lemma {:induction false} ConditionalRuns(c: Code, tail: seq<Line>, s: World)
    requires c.When?
    ensures RunLines(Written(c) + tail, s)
         == RunLines(Written(c.rest) + tail, Exec(if Holds(c.cond, s) then c.yes else c.no, s))
    decreases c, 0
  {
    hide Written, Skip, OrElse;
    var onward := Written(c.rest) + tail;
    WhenWritten(c, tail);
    if Holds(c.cond, s) {
      LinesMeanTree(c.yes, OrElse(c.no, onward), s);
      FirstBlockDone(c.no, onward, Exec(c.yes, s));
    } else {
      FirstBlockSkipped(c.yes, c.no, onward);
      if !c.no.End? {
        LinesMeanTree(c.no, [Close] + onward, s);
        assert ([Close] + onward)[1..] == onward;
      }
    }
  }

  // ----- what the generator emits, as a tree

  // A new wrapper and its registration; the wrapper takes over the caller's reference, or a new
  // one of its own, taken before it points to the object.
  function NewlyWrapped(o: Options, callerOwns: bool): Code {
    var register := if o.registry then Do(Register, End) else End;
    Do(NewWrapper, if callerOwns then Do(SetObj, register) else Do(IncRef, Do(SetObj, register)))
  }

  function FoundOrNew(o: Options, callerOwns: bool): Code {
    if o.registry then
      Do(Lookup, When(PyIsNull, NewlyWrapped(o, callerOwns), if callerOwns then Do(DecRef, End) else End, End))
    else
      NewlyWrapped(o, callerOwns)
  }

  // For a helper instance: its own wrapper, pointed at the object again.
  function OnInstance(callerOwns: bool): Code {
    Do(FromSelf, Do(SetObj, if callerOwns then Do(DecRef, Do(PyIncRef, End)) else Do(PyIncRef, End)))
  }

  function Conversion(o: Options, callerOwns: bool): Code {
    if o.helper then
      When(IsHelperInstance, OnInstance(callerOwns), FoundOrNew(o, callerOwns), End)
    else
      FoundOrNew(o, callerOwns)
  }

  function DeleteCode(o: Options): Code {
    if o.singleton then End else Do(ClearObj, End)
  }

  function Deallocation(o: Options): Code {
    var delete := if o.singleton then Do(Free, End) else Do(ClearObj, Do(Free, End));
    if o.registry then Do(Unregister, delete) else delete
  }

  lemma NeverEmpty(o: Options, callerOwns: bool)
    ensures FoundOrNew(o, callerOwns) != End
  {
  }

  lemma InstanceWritten(callerOwns: bool)
    ensures Written(OnInstance(callerOwns))
         == [Plain(FromSelf), Plain(SetObj)] + (if callerOwns then [Plain(DecRef)] else []) + [Plain(PyIncRef)]
  {
    var tail := OnInstance(callerOwns).rest.rest;
    assert Written(Do(PyIncRef, End)) == [Plain(PyIncRef)] + Written(End);
    assert Written(tail) == (if callerOwns then [Plain(DecRef)] else []) + [Plain(PyIncRef)];
    assert Written(Do(SetObj, tail)) == [Plain(SetObj)] + Written(tail);
  }

  lemma TwoBlocksWritten(cond: Condition, yes: Code, no: Code)
    requires no != End
    ensures Written(When(cond, yes, no, End)) == [If(cond)] + Written(yes) + [Else] + Written(no) + [Close]
  {
  }

  // The lines of a conversion that looks for a helper instance first.
  lemma HelperWritten(o: Options, callerOwns: bool)
    requires o.helper
    ensures Written(Conversion(o, callerOwns))
         == [If(IsHelperInstance)] + Written(OnInstance(callerOwns)) + [Else] + Written(FoundOrNew(o, callerOwns))
           + [Close]
  {
    hide Written, FoundOrNew;
    NeverEmpty(o, callerOwns);
    TwoBlocksWritten(IsHelperInstance, OnInstance(callerOwns), FoundOrNew(o, callerOwns));
  }

  // ----- the generator

  class CodeBlock {
    var lines: seq<Line>

    constructor ()
      ensures lines == []
    {
      lines := [];
    }

    method WriteCode(line: Line)
      modifies this
      ensures lines == old(lines) + [line]
    {
      lines := lines + [line];
    }

    // False when the registry does not support looking wrappers up, in which case it writes
    // nothing.
    method WriteLookupWrapper(o: Options) returns (supported: bool)
      modifies this
      ensures supported == o.registry
      ensures lines == old(lines) + if o.registry then [Plain(Lookup)] else []
    {
      supported := o.registry;
      if supported {
        WriteCode(Plain(Lookup));
      }
    }

    method WriteCreateNewWrapper(o: Options, callerOwns: bool)
      modifies this
      ensures lines == old(lines) + Written(NewlyWrapped(o, callerOwns))
    {
      WriteCode(Plain(NewWrapper));
      if !callerOwns {
        WriteCode(Plain(IncRef));
      }
      WriteCode(Plain(SetObj));
      if o.registry {
        WriteCode(Plain(Register));
      }
      assert lines == old(lines) + Written(NewlyWrapped(o, callerOwns)) by {
        if o.registry {
          assert Written(Do(Register, End)) == [Plain(Register)];
        } else {
          assert Written(End) == [];
        }
        var register := if o.registry then Do(Register, End) else End;
        assert Written(Do(SetObj, register)) == [Plain(SetObj)] + Written(register);
        assert Written(Do(IncRef, Do(SetObj, register))) == [Plain(IncRef)] + Written(Do(SetObj, register));
      }
    }

    method WriteFoundOrNew(o: Options, callerOwns: bool)
      modifies this
      ensures lines == old(lines) + Written(FoundOrNew(o, callerOwns))
    {
      ghost var before := lines;
      var supported := WriteLookupWrapper(o);
      if !supported {
        WriteCreateNewWrapper(o, callerOwns);
      } else {
        WriteCode(If(PyIsNull));
        WriteCreateNewWrapper(o, callerOwns);
        if callerOwns {
          WriteCode(Else);
          WriteCode(Plain(DecRef));
          WriteCode(Close);
        } else {
          WriteCode(Close);
        }
        ghost var no := if callerOwns then Do(DecRef, End) else End;
        ghost var branch := When(PyIsNull, NewlyWrapped(o, callerOwns), no, End);
        assert Written(Do(DecRef, End)) == [Plain(DecRef)] + Written(End);
        assert Written(branch) == [If(PyIsNull)] + Written(NewlyWrapped(o, callerOwns))
                                  + (if callerOwns then [Else, Plain(DecRef)] else []) + [Close];
        assert Written(Do(Lookup, branch)) == [Plain(Lookup)] + Written(branch);
      }
    }

    // The code that turns a returned object into a Python wrapper.
    method CommonSharedObjectReturn(o: Options, callerOwns: bool)
      modifies this
      ensures lines == old(lines) + Written(Conversion(o, callerOwns))
    {
      hide FoundOrNew, Written;
      if !o.helper {
        WriteFoundOrNew(o, callerOwns);
      } else {
        WriteCode(If(IsHelperInstance));
        WriteCode(Plain(FromSelf));
        WriteCode(Plain(SetObj));
        if callerOwns {
          WriteCode(Plain(DecRef));
        }
        WriteCode(Plain(PyIncRef));
        WriteCode(Else);
        WriteFoundOrNew(o, callerOwns);
        WriteCode(Close);
        InstanceWritten(callerOwns);
        HelperWritten(o, callerOwns);
      }
    }

    // The body of tp_dealloc.
    method GenerateDestructor(o: Options)
      modifies this
      ensures lines == old(lines) + Written(Deallocation(o))
    {
      if o.registry {
        WriteCode(Plain(Unregister));
      }
      if !o.singleton {
        WriteCode(Plain(ClearObj));
      }
      WriteCode(Plain(Free));
      assert Written(Do(Free, End)) == [Plain(Free)] + Written(End);
      assert Written(Do(ClearObj, Do(Free, End))) == [Plain(ClearObj)] + Written(Do(Free, End));
    }
  }
}
