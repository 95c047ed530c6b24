// print-introspected-doxygen.cc: list every configuration path by walking the graph of
// registered types, whose pointers, subtypes and aggregates may form cycles.
module TypeWalk {
  import opened Sequences

  type TypeId = int

  datatype Attribute =
    | Plain(name: string)
    | Pointer(name: string, pointee: TypeId)
    | ObjectVector(name: string, item: TypeId)

  // What the type registry of the simulator answers.
  datatype Registry = Registry(
    name: TypeId -> string,
    attributes: TypeId -> seq<Attribute>,
    isChildOf: (TypeId, TypeId) -> bool,
    registered: seq<TypeId>)

  datatype Edge = Edge(step: string, target: TypeId)

  datatype Entry = Entry(tid: TypeId, path: string)

  // ----- labels

  predicate MarkAt(s: string, i: nat) {
    i + 2 <= |s| && s[i] == ':' && s[i + 1] == ':'
  }

  // Every "::" followed by a '%', scanning from the left.
  function Escape(s: string): string {
    if s == [] then []
    else if MarkAt(s, 0) then "::%" + Escape(s[2..])
    else [s[0]] + Escape(s[1..])
  }

  function IndexFrom(s: string, pos: nat): int
    decreases |s| - pos
  {
    if pos + 2 > |s| then -1
    else if MarkAt(s, pos) then pos
    else IndexFrom(s, pos + 1)
  }

  lemma {:induction false} IndexShift(pre: string, s: string, pos: nat)
    requires pos <= |s|
    ensures IndexFrom(pre + s, |pre| + pos) == if IndexFrom(s, pos) < 0 then -1 else |pre| + IndexFrom(s, pos)
    ensures IndexFrom(s, pos) == -1 || (pos <= IndexFrom(s, pos) && MarkAt(s, IndexFrom(s, pos)))
    decreases |s| - pos
  {
    if pos + 2 <= |s| {
      assert MarkAt(pre + s, |pre| + pos) == MarkAt(s, pos);
      if !MarkAt(s, pos) {
        IndexShift(pre, s, pos + 1);
      }
    }
  }

  lemma {:induction false} EscapeWithoutMark(s: string)
    requires IndexFrom(s, 0) < 0
    ensures Escape(s) == s
  {
    if s != [] {
      assert s == [s[0]] + s[1..];
      IndexShift([s[0]], s[1..], 0);
      EscapeWithoutMark(s[1..]);
    }
  }

  lemma IndexStep(s: string)
    requires IndexFrom(s, 0) > 0
    ensures s != [] && !MarkAt(s, 0) && IndexFrom(s[1..], 0) == IndexFrom(s, 0) - 1
  {
    assert s == [s[0]] + s[1..];
    IndexShift([s[0]], s[1..], 0);
  }

  lemma {:induction false} EscapeAtMark(s: string, i: nat)
    requires IndexFrom(s, 0) == i
    ensures MarkAt(s, i) && Escape(s) == s[..i] + "::%" + Escape(s[i + 2..])
  {
    hide IndexFrom, Escape;
    EscapeHead(s);
    if i == 0 {
      MarkFound(s);
      assert s[..0] + "::%" + Escape(s[2..]) == "::%" + Escape(s[2..]);
    } else {
      IndexStep(s);
      var rest := s[1..];
      EscapeAtMark(rest, i - 1);
      var tail := Escape(rest[i + 1..]);
      assert s[i + 2..] == rest[i + 1..];
      assert s[..i] == [s[0]] + rest[..i - 1];
      assert [s[0]] + (rest[..i - 1] + "::%" + tail) == s[..i] + "::%" + tail;
    }
  }

  lemma EscapeHead(s: string)
    ensures MarkAt(s, 0) ==> Escape(s) == "::%" + Escape(s[2..])
    ensures s != [] && !MarkAt(s, 0) ==> Escape(s) == [s[0]] + Escape(s[1..])
  {
  }

  lemma MarkFound(s: string)
    requires IndexFrom(s, 0) == 0
    ensures MarkAt(s, 0)
  {
    IndexShift([], s, 0);
  }

  // The text just written holds no mark beyond its first character.
  lemma SearchSkipsWritten(pre: string, rest: string, j: nat)
    requires |pre| == j + 3 && pre[j + 1] == ':' && pre[j + 2] == '%'
    ensures IndexFrom(pre + rest, j + 1) == if IndexFrom(rest, 0) < 0 then -1 else |pre| + IndexFrom(rest, 0)
  {
    IndexShift(pre, rest, 0);
    assert !MarkAt(pre + rest, j + 1) && !MarkAt(pre + rest, j + 2);
  }

  // One replacement, with `pre` already dealt with.
  lemma Replaced(pre: string, rest: string, i: nat, tail: string)
    requires i + 2 <= |rest|
    ensures (pre + rest)[..|pre| + i] + "::%" + (pre + rest)[|pre| + i + 2..] == pre + rest[..i] + "::%" + rest[i + 2..]
    ensures pre + (rest[..i] + "::%" + tail) == pre + rest[..i] + "::%" + tail
  {
  }

  // find_and_replace (s, "::", "::%"): the search resumes one behind the replaced text.
  method FindAndReplace(s: string) returns (source: string)
    ensures source == Escape(s)
  {
    hide Escape, IndexFrom;
    source := s;
    ghost var pre, rest := "", s;
    assert "" + s == s && "" + Escape(s) == Escape(s);
    IndexShift("", s, 0);
    var j := IndexFrom(source, 0);
    while j != -1
      invariant source == pre + rest && Escape(s) == pre + Escape(rest)
      invariant j == if IndexFrom(rest, 0) < 0 then -1 else |pre| + IndexFrom(rest, 0)
      decreases |rest|
    {
      ghost var i := IndexFrom(rest, 0);
      EscapeAtMark(rest, i);
      Replaced(pre, rest, i, Escape(rest[i + 2..]));
      source := source[..j] + "::%" + source[j + 2..];
      pre, rest := pre + rest[..i] + "::%", rest[i + 2..];
      SearchSkipsWritten(pre, rest, j);
      j := IndexFrom(source, j + 1);
    }
    EscapeWithoutMark(rest);
  }

  // A label determines the type name: without '%' in the name, dropping every '%' undoes it.
  function DropPercent(s: string): string {
    if s == "" then "" else (if s[0] == '%' then "" else [s[0]]) + DropPercent(s[1..])
  }

  lemma {:induction false} EscapeIsReversible(s: string)
    requires '%' !in s
    ensures DropPercent(Escape(s)) == s
  {
    if s == "" {
    } else if MarkAt(s, 0) {
      var rest := Escape(s[2..]);
      EscapeIsReversible(s[2..]);
      assert "::%" + rest == [':'] + ([':'] + (['%'] + rest));
      assert DropPercent(['%'] + rest) == DropPercent(rest) by { assert (['%'] + rest)[1..] == rest; }
      assert DropPercent([':'] + (['%'] + rest)) == [':'] + DropPercent(rest) by {
        assert ([':'] + (['%'] + rest))[1..] == ['%'] + rest;
      }
      assert ([':'] + ([':'] + (['%'] + rest)))[1..] == [':'] + (['%'] + rest);
      assert s == [':'] + ([':'] + s[2..]);
    } else {
      EscapeIsReversible(s[1..]);
      assert ([s[0]] + Escape(s[1..]))[1..] == Escape(s[1..]);
    }
  }

  // A '%' stands behind every "::" and nowhere else.
  predicate Marked(t: string) {
    && (forall k :: 0 <= k < |t| - 1 && t[k] == ':' && t[k + 1] == ':' ==> k + 2 < |t| && t[k + 2] == '%')
    && (forall k :: 0 <= k < |t| && t[k] == '%' ==> k >= 2 && t[k - 2] == ':' && t[k - 1] == ':')
  }

  // The result is the only text that is marked so and reads as the name without its percent signs.
  lemma EscapeExactly(s: string, t: string)
    requires '%' !in s
    ensures t == Escape(s) <==> DropPercent(t) == s && Marked(t)
  {
    EscapeIsReversible(s);
    EscapeIsMarked(s);
    if DropPercent(t) == s && Marked(t) {
      MarkedIsEscape(s, t);
    }
  }

  lemma {:induction false} EscapeIsMarked(s: string)
    requires '%' !in s
    ensures Marked(Escape(s))
    ensures s != "" ==> Escape(s) != "" && Escape(s)[0] == s[0]
    ensures |s| >= 2 && s[0] == ':' && Escape(s)[1..] != "" && Escape(s)[1] == ':' ==> s[1] == ':'
  {
    if s == "" {
    } else if MarkAt(s, 0) {
      EscapeIsMarked(s[2..]);
      var rest := Escape(s[2..]);
      var t := "::%" + rest;
      assert forall k :: 3 <= k < |t| ==> t[k] == rest[k - 3];
      assert Marked(t);
    } else {
      EscapeIsMarked(s[1..]);
      var rest := Escape(s[1..]);
      var t := [s[0]] + rest;
      assert forall k :: 1 <= k < |t| ==> t[k] == rest[k - 1];
      assert Marked(t);
    }
  }

  lemma {:induction false} MarkedIsEscape(s: string, t: string)
    requires '%' !in s && DropPercent(t) == s && Marked(t)
    ensures t == Escape(s)
    decreases |s|
  {
    hide DropPercent, Marked, Escape, MarkAt;
    if t == "" {
      NothingToMark(s, t);
    } else {
      EscapeHead(s);
      if |t| >= 2 && t[0] == ':' && t[1] == ':' {
        MarkedFirst(t, s);
        MarkedBehind(t, 3);
        MarkedIsEscape(s[2..], t[3..]);
      } else {
        StartsUnmarked(t);
        NoMarkYet(t, s);
        MarkedBehind(t, 1);
        MarkedIsEscape(s[1..], t[1..]);
        assert t == [t[0]] + t[1..];
      }
    }
  }

  lemma NothingToMark(s: string, t: string)
    requires t == "" && DropPercent(t) == s
    ensures Escape(s) == t
  {
  }

  lemma StartsUnmarked(t: string)
    requires Marked(t) && t != ""
    ensures t[0] != '%'
  {
  }

  lemma MarkedFirst(t: string, s: string)
    requires DropPercent(t) == s && Marked(t) && |t| >= 2 && t[0] == ':' && t[1] == ':'
    ensures |t| >= 3 && t[..3] == "::%" && t == "::%" + t[3..]
    ensures |s| >= 2 && MarkAt(s, 0) && s[2..] == DropPercent(t[3..])
  {
    hide DropPercent;
    assert t[2] == '%';
    DropHead(t);
    DropHead(t[1..]);
    DropHead(t[2..]);
    assert t[1..][1..] == t[2..] && t[2..][1..] == t[3..];
    assert s == [':'] + ([':'] + ("" + DropPercent(t[3..])));
  }

  // The first character and, where that is a colon, no second one.
  lemma NoMarkYet(t: string, s: string)
    requires '%' !in s && DropPercent(t) == s && Marked(t) && t != "" && t[0] != '%'
    requires !(|t| >= 2 && t[0] == ':' && t[1] == ':')
    ensures s != "" && s[0] == t[0] && s[1..] == DropPercent(t[1..]) && !MarkAt(s, 0)
  {
    DropHead(t);
    if |t| >= 2 {
      assert t[1] != '%';
      DropHead(t[1..]);
    }
  }

  lemma MarkedBehind(t: string, n: nat)
    requires Marked(t) && n <= |t|
    requires n == 3 ==> t[..3] == "::%"
    requires n == 1 ==> !(|t| >= 2 && t[0] == ':' && t[1] == ':')
    requires n == 1 || n == 3
    ensures Marked(t[n..])
  {
    var u := t[n..];
    assert forall k :: 0 <= k < |u| ==> u[k] == t[k + n];
    assert n == 3 ==> t[..3][2] == t[2] == '%' && t[..3][1] == t[1] == ':';
    forall k | 0 <= k < |u| && u[k] == '%' ensures k >= 2 && u[k - 2] == ':' && u[k - 1] == ':' {
      assert t[k + n] == '%';
    }
  }

  lemma DropHead(s: string)
    requires s != ""
    ensures DropPercent(s) == (if s[0] == '%' then "" else [s[0]]) + DropPercent(s[1..])
  {
  }

  // ----- the graph

  type Aggregates = seq<(TypeId, TypeId)>

  // The edges that each element of a list gives rise to, in order.
  function EdgesFrom<T>(xs: seq<T>, edgesOf: T -> seq<Edge>): seq<Edge> {
    if xs == [] then []
    else
      var k := |xs| - 1;
      EdgesFrom(xs[..k], edgesOf) + edgesOf(xs[k])
  }

  function OfAttribute(): Attribute -> seq<Edge> {
    (attr: Attribute) =>
      match attr
      case Plain(_) => []
      case Pointer(name, pointee) => [Edge(name, pointee)]
      case ObjectVector(name, item) => [Edge(name + "/[i]", item)]
  }

  function TypeLabel(reg: Registry, tid: TypeId): string {
    Escape("$%" + reg.name(tid))
  }

  function OfRegistered(reg: Registry, tid: TypeId): TypeId -> seq<Edge> {
    (child: TypeId) => if reg.isChildOf(child, tid) then [Edge(TypeLabel(reg, child), child)] else []
  }

  // The partner of `tid` in a pair; the second test overrides the first.
  function Partner(pair: (TypeId, TypeId), tid: TypeId): TypeId {
    if pair.1 == tid then pair.0 else pair.1
  }

  function OfAggregate(reg: Registry, tid: TypeId): ((TypeId, TypeId)) -> seq<Edge> {
    (pair: (TypeId, TypeId)) =>
      if pair.0 == tid || pair.1 == tid
      then [Edge(TypeLabel(reg, Partner(pair, tid)), Partner(pair, tid))] else []
  }

  function Edges(reg: Registry, aggs: Aggregates, tid: TypeId): seq<Edge> {
    EdgesFrom(reg.attributes(tid), OfAttribute())
    + EdgesFrom(reg.registered, OfRegistered(reg, tid))
    + EdgesFrom(aggs, OfAggregate(reg, tid))
  }

  // ----- what edges there are

  predicate IsLabelOf(reg: Registry, step: string, tid: TypeId) {
    step == Escape("$%" + reg.name(tid))
  }

  // The label of a type: a dollar and a percent sign, and its name marked behind every "::".
  lemma LabelExactly(reg: Registry, step: string, tid: TypeId)
    requires '%' !in reg.name(tid)
    ensures IsLabelOf(reg, step, tid)
       <==> |step| >= 2 && step[..2] == "$%" && DropPercent(step[2..]) == reg.name(tid) && Marked(step[2..])
  {
    hide Escape, DropPercent, Marked;
    var name, s := reg.name(tid), "$%" + reg.name(tid);
    EscapeHead(s);
    EscapeHead(s[1..]);
    assert s[1..][1..] == name && s[1..] == "%" + name;
    assert Escape(s) == "$%" + Escape(name);
    assert ("$%" + Escape(name))[2..] == Escape(name);
    assert |step| >= 2 ==> step == step[..2] + step[2..];
    if |step| >= 2 {
      EscapeExactly(name, step[2..]);
    }
  }

  predicate ByPointer(reg: Registry, a: TypeId, step: string, b: TypeId) {
    Pointer(step, b) in reg.attributes(a)
  }

  predicate ByVector(reg: Registry, a: TypeId, step: string, b: TypeId) {
    exists i :: 0 <= i < |reg.attributes(a)| && reg.attributes(a)[i].ObjectVector?
                && reg.attributes(a)[i].item == b && step == reg.attributes(a)[i].name + "/[i]"
  }

  predicate BySubtype(reg: Registry, a: TypeId, step: string, b: TypeId) {
    b in reg.registered && reg.isChildOf(b, a) && IsLabelOf(reg, step, b)
  }

  predicate ByAggregate(reg: Registry, aggs: Aggregates, a: TypeId, step: string, b: TypeId) {
    ((a, b) in aggs || (b, a) in aggs) && IsLabelOf(reg, step, b)
  }

  // From type `a` the path goes on to `b` under the name `step`: to what a pointer attribute of that
  // name points to, to the items of an object vector, to a registered subtype, or to what `a` is
  // aggregated with.
  predicate Leads(reg: Registry, aggs: Aggregates, a: TypeId, step: string, b: TypeId) {
    || ByPointer(reg, a, step, b)
    || ByVector(reg, a, step, b)
    || BySubtype(reg, a, step, b)
    || ByAggregate(reg, aggs, a, step, b)
  }

  lemma {:induction false} MemberOfEdges<T>(xs: seq<T>, edgesOf: T -> seq<Edge>, e: Edge)
    ensures e in EdgesFrom(xs, edgesOf) <==> exists i :: 0 <= i < |xs| && e in edgesOf(xs[i])
  {
    if xs != [] {
      var k := |xs| - 1;
      MemberOfEdges(xs[..k], edgesOf, e);
      if e in EdgesFrom(xs[..k], edgesOf) {
        var i :| 0 <= i < k && e in edgesOf(xs[..k][i]);
        assert e in edgesOf(xs[i]);
      }
      if i :| 0 <= i < |xs| && e in edgesOf(xs[i]) {
        assert i < k ==> xs[..k][i] == xs[i];
      }
    }
  }

  // The edges of a type are the ways on from it.
  lemma EdgesExactly(reg: Registry, aggs: Aggregates, tid: TypeId, e: Edge)
    ensures e in Edges(reg, aggs, tid) <==> Leads(reg, aggs, tid, e.step, e.target)
  {
    hide Escape, EdgesFrom;
    AttributeEdges(reg, tid, e);
    SubtypeEdges(reg, tid, e);
    AggregateEdges(reg, aggs, tid, e);
  }

  lemma AttributeEdges(reg: Registry, tid: TypeId, e: Edge)
    ensures e in EdgesFrom(reg.attributes(tid), OfAttribute())
       <==> ByPointer(reg, tid, e.step, e.target) || ByVector(reg, tid, e.step, e.target)
  {
    hide EdgesFrom;
    var attrs := reg.attributes(tid);
    MemberOfEdges(attrs, OfAttribute(), e);
    if i :| 0 <= i < |attrs| && e in OfAttribute()(attrs[i]) {
      assert attrs[i].Pointer? ==> attrs[i] == Pointer(e.step, e.target);
    }
    if ByPointer(reg, tid, e.step, e.target) {
      var i :| 0 <= i < |attrs| && attrs[i] == Pointer(e.step, e.target);
      assert e in OfAttribute()(attrs[i]);
    }
    if ByVector(reg, tid, e.step, e.target) {
      var i :| 0 <= i < |attrs| && attrs[i].ObjectVector? && attrs[i].item == e.target
               && e.step == attrs[i].name + "/[i]";
      assert e in OfAttribute()(attrs[i]);
    }
  }

  lemma SubtypeEdges(reg: Registry, tid: TypeId, e: Edge)
    ensures e in EdgesFrom(reg.registered, OfRegistered(reg, tid)) <==> BySubtype(reg, tid, e.step, e.target)
  {
    hide EdgesFrom, Escape;
    var xs := reg.registered;
    MemberOfEdges(xs, OfRegistered(reg, tid), e);
    if BySubtype(reg, tid, e.step, e.target) {
      var i :| 0 <= i < |xs| && xs[i] == e.target;
      assert e in OfRegistered(reg, tid)(xs[i]);
    }
  }

  lemma AggregateEdges(reg: Registry, aggs: Aggregates, tid: TypeId, e: Edge)
    ensures e in EdgesFrom(aggs, OfAggregate(reg, tid)) <==> ByAggregate(reg, aggs, tid, e.step, e.target)
  {
    hide EdgesFrom, Escape;
    MemberOfEdges(aggs, OfAggregate(reg, tid), e);
    if i :| 0 <= i < |aggs| && e in OfAggregate(reg, tid)(aggs[i]) {
      assert aggs[i] == (tid, e.target) || aggs[i] == (e.target, tid);
    }
    if ByAggregate(reg, aggs, tid, e.step, e.target) {
      var i :| 0 <= i < |aggs| && (aggs[i] == (tid, e.target) || aggs[i] == (e.target, tid));
      assert e in OfAggregate(reg, tid)(aggs[i]);
    }
  }

  predicate TargetsIn(edges: seq<Edge>, types: set<TypeId>) {
    forall i :: 0 <= i < |edges| ==> edges[i].target in types
  }

  lemma EdgesFromSnoc<T>(xs: seq<T>, edgesOf: T -> seq<Edge>, i: nat)
    requires i < |xs|
    ensures EdgesFrom(xs[..i + 1], edgesOf) == EdgesFrom(xs[..i], edgesOf) + edgesOf(xs[i])
  {
    assert xs[..i + 1][..i] == xs[..i];
  }

  lemma {:induction false} TargetsOfPrefix<T>(xs: seq<T>, edgesOf: T -> seq<Edge>, types: set<TypeId>, i: nat)
    requires TargetsIn(EdgesFrom(xs, edgesOf), types) && i <= |xs|
    ensures TargetsIn(EdgesFrom(xs[..i], edgesOf), types)
    decreases |xs|
  {
    if i == |xs| {
      assert xs[..i] == xs;
    } else {
      var k := |xs| - 1;
      var all, init := EdgesFrom(xs, edgesOf), EdgesFrom(xs[..k], edgesOf);
      assert forall j :: 0 <= j < |init| ==> all[j] == init[j];
      TargetsOfPrefix(xs[..k], edgesOf, types, i);
      assert xs[..k][..i] == xs[..i];
    }
  }

  // A finite set of types that no edge leaves.
  ghost predicate Closed(reg: Registry, aggs: Aggregates, types: set<TypeId>) {
    forall tid, i :: tid in types && 0 <= i < |Edges(reg, aggs, tid)| ==> Edges(reg, aggs, tid)[i].target in types
  }

  function PathString(path: seq<string>): string {
    if path == [] then "" else PathString(path[..|path| - 1]) + "/" + path[|path| - 1]
  }

  // ----- the walk as a function

  ghost function Walk(reg: Registry, aggs: Aggregates, types: set<TypeId>, path: seq<string>, stack: seq<TypeId>,
                      tid: TypeId): seq<Entry>
    requires Closed(reg, aggs, types) && tid in types
    decreases |types - Elements(stack)|, 0
  {
    if tid in stack then []
    else
      DeeperStack(types, stack, tid);
      [Entry(tid, PathString(path))] + WalkEdges(reg, aggs, types, path, stack + [tid], Edges(reg, aggs, tid))
  }

  ghost function WalkEdges(reg: Registry, aggs: Aggregates, types: set<TypeId>, path: seq<string>, stack: seq<TypeId>,
                           edges: seq<Edge>): seq<Entry>
    requires Closed(reg, aggs, types) && TargetsIn(edges, types)
    decreases |types - Elements(stack)|, 1, |edges|
  {
    if edges == [] then []
    else
      var k := |edges| - 1;
      WalkEdges(reg, aggs, types, path, stack, edges[..k])
      + Walk(reg, aggs, types, path + [edges[k].step], stack, edges[k].target)
  }

  // One more type on the stack leaves fewer that are not on it.
  lemma DeeperStack(types: set<TypeId>, stack: seq<TypeId>, tid: TypeId)
    requires tid in types && tid !in stack
    ensures |types - Elements(stack + [tid])| < |types - Elements(stack)|
  {
    assert tid in types - Elements(stack) && tid !in types - Elements(stack + [tid]);
    SmallerSet(types - Elements(stack + [tid]), types - Elements(stack));
  }

  lemma SmallerSet(a: set<TypeId>, b: set<TypeId>)
    requires a < b
    ensures |a| < |b|
  {
    assert b == a + (b - a) && |b| == |a| + |b - a|;
  }

  // ----- simple paths

  // A path from `tid` as edge numbers. It is simple when it meets no type twice and none
  // of those in `stack`.
  predicate SimplePath(reg: Registry, aggs: Aggregates, stack: seq<TypeId>, tid: TypeId, p: seq<nat>)
    decreases |p|
  {
    && tid !in stack
    && (p != [] ==>
          && p[0] < |Edges(reg, aggs, tid)|
          && SimplePath(reg, aggs, stack + [tid], Edges(reg, aggs, tid)[p[0]].target, p[1..]))
  }

  // The type a path leads to, and the names along it.
  function PathEnd(reg: Registry, aggs: Aggregates, tid: TypeId, p: seq<nat>): TypeId
    decreases |p|
  {
    if p == [] || p[0] >= |Edges(reg, aggs, tid)| then tid
    else PathEnd(reg, aggs, Edges(reg, aggs, tid)[p[0]].target, p[1..])
  }

  function PathNames(reg: Registry, aggs: Aggregates, tid: TypeId, p: seq<nat>): seq<string>
    decreases |p|
  {
    if p == [] || p[0] >= |Edges(reg, aggs, tid)| then []
    else
      var e := Edges(reg, aggs, tid)[p[0]];
      [e.step] + PathNames(reg, aggs, e.target, p[1..])
  }

  function EntryFor(reg: Registry, aggs: Aggregates, path: seq<string>, tid: TypeId, p: seq<nat>): Entry {
    Entry(PathEnd(reg, aggs, tid, p), PathString(path + PathNames(reg, aggs, tid, p)))
  }

  // All simple paths from `tid`, in the order of the walk.
  ghost function Paths(reg: Registry, aggs: Aggregates, types: set<TypeId>, stack: seq<TypeId>,
                       tid: TypeId): seq<seq<nat>>
    requires Closed(reg, aggs, types) && tid in types
    decreases |types - Elements(stack)|, 0
  {
    if tid in stack then []
    else
      DeeperStack(types, stack, tid);
      [[]] + PathsVia(reg, aggs, types, stack + [tid], tid, |Edges(reg, aggs, tid)|)
  }

  // Those that start with one of the first `n` edges.
  ghost function PathsVia(reg: Registry, aggs: Aggregates, types: set<TypeId>, stack: seq<TypeId>, tid: TypeId,
                          n: nat): seq<seq<nat>>
    requires Closed(reg, aggs, types) && tid in types && n <= |Edges(reg, aggs, tid)|
    decreases |types - Elements(stack)|, 1, n
  {
    if n == 0 then []
    else
      PathsVia(reg, aggs, types, stack, tid, n - 1)
      + Prefixed(n - 1, Paths(reg, aggs, types, stack, Edges(reg, aggs, tid)[n - 1].target))
  }

  function Prefixed(i: nat, ps: seq<seq<nat>>): seq<seq<nat>> {
    seq(|ps|, j requires 0 <= j < |ps| => [i] + ps[j])
  }

  function EntriesFor(reg: Registry, aggs: Aggregates, path: seq<string>, tid: TypeId, ps: seq<seq<nat>>): seq<Entry> {
    seq(|ps|, j requires 0 <= j < |ps| => EntryFor(reg, aggs, path, tid, ps[j]))
  }

  // The walk records one entry for each of these paths, in order ...
  lemma {:induction false} WalkFollowsPaths(reg: Registry, aggs: Aggregates, types: set<TypeId>, path: seq<string>,
                                            stack: seq<TypeId>, tid: TypeId)
    requires Closed(reg, aggs, types) && tid in types
    ensures Walk(reg, aggs, types, path, stack, tid)
            == EntriesFor(reg, aggs, path, tid, Paths(reg, aggs, types, stack, tid))
    decreases |types - Elements(stack)|, 0
  {
    if tid !in stack {
      DeeperStack(types, stack, tid);
      var edges := Edges(reg, aggs, tid);
      assert edges[..|edges|] == edges;
      WalkFollowsPathsVia(reg, aggs, types, path, stack + [tid], tid, |edges|);
      assert path + [] == path;
    }
  }

  lemma {:induction false} WalkFollowsPathsVia(reg: Registry, aggs: Aggregates, types: set<TypeId>, path: seq<string>,
        stack: seq<TypeId>, tid: TypeId, n: nat)
    requires Closed(reg, aggs, types) && tid in types && n <= |Edges(reg, aggs, tid)|
    ensures WalkEdges(reg, aggs, types, path, stack, Edges(reg, aggs, tid)[..n])
            == EntriesFor(reg, aggs, path, tid, PathsVia(reg, aggs, types, stack, tid, n))
    decreases |types - Elements(stack)|, 1, n
  {
    hide Edges, Closed;
    if n > 0 {
      var edges := Edges(reg, aggs, tid);
      var e := edges[n - 1];
      EdgeInside(reg, aggs, types, tid, n - 1);
      WalkFollowsPathsVia(reg, aggs, types, path, stack, tid, n - 1);
      WalkFollowsPaths(reg, aggs, types, path + [e.step], stack, e.target);
      assert edges[..n][..n - 1] == edges[..n - 1];
      var ps := Paths(reg, aggs, types, stack, e.target);
      forall j | 0 <= j < |ps|
        ensures EntryFor(reg, aggs, path + [e.step], e.target, ps[j]) == EntryFor(reg, aggs, path, tid, [n - 1] + ps[j])
      {
        EntryShift(reg, aggs, path, tid, n - 1, ps[j]);
      }
    }
  }

  lemma EdgeInside(reg: Registry, aggs: Aggregates, types: set<TypeId>, tid: TypeId, i: nat)
    requires Closed(reg, aggs, types) && tid in types && i < |Edges(reg, aggs, tid)|
    ensures Edges(reg, aggs, tid)[i].target in types && TargetsIn(Edges(reg, aggs, tid), types)
  {
  }

  lemma EntryShift(reg: Registry, aggs: Aggregates, path: seq<string>, tid: TypeId, i: nat, p: seq<nat>)
    requires i < |Edges(reg, aggs, tid)|
    ensures var e := Edges(reg, aggs, tid)[i];
            EntryFor(reg, aggs, path + [e.step], e.target, p) == EntryFor(reg, aggs, path, tid, [i] + p)
  {
    var e := Edges(reg, aggs, tid)[i];
    assert ([i] + p)[1..] == p;
    assert path + [e.step] + PathNames(reg, aggs, e.target, p) == path + ([e.step] + PathNames(reg, aggs, e.target, p));
  }

  // ... which are all simple paths ...
  lemma {:induction false} PathsAreAllSimple(reg: Registry, aggs: Aggregates, types: set<TypeId>, stack: seq<TypeId>,
                                             tid: TypeId, p: seq<nat>)
    requires Closed(reg, aggs, types) && tid in types
    ensures p in Paths(reg, aggs, types, stack, tid) <==> SimplePath(reg, aggs, stack, tid, p)
    decreases |types - Elements(stack)|, 0
  {
    if tid !in stack {
      DeeperStack(types, stack, tid);
      PathsViaAreSimple(reg, aggs, types, stack + [tid], tid, |Edges(reg, aggs, tid)|, p);
      var all := Paths(reg, aggs, types, stack, tid);
      assert all[0] == [];
    }
  }

  lemma {:induction false} PathsViaAreSimple(reg: Registry, aggs: Aggregates, types: set<TypeId>, stack: seq<TypeId>,
                                             tid: TypeId, n: nat, p: seq<nat>)
    requires Closed(reg, aggs, types) && tid in types && n <= |Edges(reg, aggs, tid)|
    ensures p in PathsVia(reg, aggs, types, stack, tid, n)
            <==> p != [] && p[0] < n && SimplePath(reg, aggs, stack, Edges(reg, aggs, tid)[p[0]].target, p[1..])
    decreases |types - Elements(stack)|, 1, n
  {
    hide Edges, Paths, Prefixed, SimplePath;
    if n > 0 {
      var target := Edges(reg, aggs, tid)[n - 1].target;
      PathsViaAreSimple(reg, aggs, types, stack, tid, n - 1, p);
      PrefixedMember(n - 1, Paths(reg, aggs, types, stack, target), p);
      if p != [] && p[0] == n - 1 {
        PathsAreAllSimple(reg, aggs, types, stack, target, p[1..]);
      }
    }
  }

  lemma PrefixedMember(i: nat, ps: seq<seq<nat>>, p: seq<nat>)
    ensures p in Prefixed(i, ps) <==> p != [] && p[0] == i && p[1..] in ps
  {
    if p in Prefixed(i, ps) {
      var j :| 0 <= j < |ps| && p == [i] + ps[j];
      assert p[1..] == ps[j];
    }
    if p != [] && p[0] == i && p[1..] in ps {
      var j :| 0 <= j < |ps| && p[1..] == ps[j];
      assert p == [i] + ps[j] == Prefixed(i, ps)[j];
    }
  }

  // ... and each of them once.
  lemma {:induction false} PathsAreDistinct(reg: Registry, aggs: Aggregates, types: set<TypeId>, stack: seq<TypeId>,
                                            tid: TypeId)
    requires Closed(reg, aggs, types) && tid in types
    ensures NoRepeats(Paths(reg, aggs, types, stack, tid))
    decreases |types - Elements(stack)|, 0
  {
    if tid !in stack {
      DeeperStack(types, stack, tid);
      PathsViaAreDistinct(reg, aggs, types, stack + [tid], tid, |Edges(reg, aggs, tid)|);
      PathsViaAreSimple(reg, aggs, types, stack + [tid], tid, |Edges(reg, aggs, tid)|, []);
    }
  }

  lemma {:induction false} PathsViaAreDistinct(reg: Registry, aggs: Aggregates, types: set<TypeId>,
        stack: seq<TypeId>, tid: TypeId, n: nat)
    requires Closed(reg, aggs, types) && tid in types && n <= |Edges(reg, aggs, tid)|
    ensures NoRepeats(PathsVia(reg, aggs, types, stack, tid, n))
    decreases |types - Elements(stack)|, 1, n
  {
    hide Edges, Paths, Prefixed, SimplePath;
    if n > 0 {
      var before := PathsVia(reg, aggs, types, stack, tid, n - 1);
      var ps := Paths(reg, aggs, types, stack, Edges(reg, aggs, tid)[n - 1].target);
      PathsViaAreDistinct(reg, aggs, types, stack, tid, n - 1);
      PathsAreDistinct(reg, aggs, types, stack, Edges(reg, aggs, tid)[n - 1].target);
      PrefixedDistinct(n - 1, ps);
      forall p | p in before ensures p !in Prefixed(n - 1, ps) {
        PathsViaAreSimple(reg, aggs, types, stack, tid, n - 1, p);
        PrefixedMember(n - 1, ps, p);
      }
      AppendDistinct(before, Prefixed(n - 1, ps));
    }
  }

  lemma AppendDistinct<T(!new)>(a: seq<T>, b: seq<T>)
    requires NoRepeats(a) && NoRepeats(b) && forall x :: x in a ==> x !in b
    ensures NoRepeats(a + b)
  {
    forall i, j | 0 <= i < j < |a + b| ensures (a + b)[i] != (a + b)[j] {
      if i < |a| <= j {
        assert (a + b)[i] in a && (a + b)[j] in b;
      }
    }
  }

  lemma PrefixedDistinct(i: nat, ps: seq<seq<nat>>)
    requires NoRepeats(ps)
    ensures NoRepeats(Prefixed(i, ps))
  {
    forall j, k | 0 <= j < k < |ps| ensures Prefixed(i, ps)[j] != Prefixed(i, ps)[k] {
      assert Prefixed(i, ps)[j][1..] == ps[j] && Prefixed(i, ps)[k][1..] == ps[k];
    }
  }

  // ----- sorting

  // std::pair and std::string compare lexicographically.
  predicate StringLess(a: string, b: string) {
    b != "" && (a == "" || a[0] < b[0] || (a[0] == b[0] && StringLess(a[1..], b[1..])))
  }

  predicate Less(a: Entry, b: Entry) {
    a.tid < b.tid || (a.tid == b.tid && StringLess(a.path, b.path))
  }

  lemma {:induction false} StringLessTotal(a: string, b: string)
    ensures StringLess(a, b) || StringLess(b, a) || a == b
    ensures !(StringLess(a, b) && StringLess(b, a))
    ensures !StringLess(a, a)
  {
    if a != "" && b != "" && a[0] == b[0] {
      StringLessTotal(a[1..], b[1..]);
      assert a == [a[0]] + a[1..] && b == [b[0]] + b[1..];
    }
    if a != "" {
      StringLessTotal(a[1..], a[1..]);
    }
  }

  // A string is less than another at the first place where they differ, or when it ends first.
  lemma {:induction false} StringLessExactly(a: string, b: string)
    ensures StringLess(a, b)
       <==> exists k :: 0 <= k <= |a| && k < |b| && a[..k] == b[..k] && (k == |a| || a[k] < b[k])
  {
    if a != "" && b != "" && a[0] == b[0] {
      StringLessExactly(a[1..], b[1..]);
      if k :| 0 <= k <= |a[1..]| && k < |b[1..]| && a[1..][..k] == b[1..][..k]
              && (k == |a[1..]| || a[1..][k] < b[1..][k]) {
        assert a[..k + 1] == [a[0]] + a[1..][..k] && b[..k + 1] == [b[0]] + b[1..][..k];
      }
      if k :| 0 <= k <= |a| && k < |b| && a[..k] == b[..k] && (k == |a| || a[k] < b[k]) {
        assert k > 0;
        assert a[1..][..k - 1] == a[..k][1..] && b[1..][..k - 1] == b[..k][1..];
      }
    } else {
      if k :| 0 <= k <= |a| && k < |b| && a[..k] == b[..k] && (k == |a| || a[k] < b[k]) {
        assert k > 0 ==> a[..k][0] == b[..k][0];
      }
      if StringLess(a, b) {
        assert a[..0] == b[..0];
      }
    }
  }

  lemma {:induction false} StringLessTransitive(a: string, b: string, c: string)
    requires StringLess(a, b) && StringLess(b, c)
    ensures StringLess(a, c)
  {
    if a != "" && a[0] == b[0] == c[0] {
      StringLessTransitive(a[1..], b[1..], c[1..]);
    }
  }

  ghost predicate Sorted(s: seq<Entry>) {
    forall i, j :: 0 <= i < j < |s| ==> Less(s[i], s[j])
  }

  // Puts `e` into a sorted list unless it is there already.
  function Insert(s: seq<Entry>, e: Entry): seq<Entry> {
    if s == [] then [e]
    else if Less(e, s[0]) then [e] + s
    else if e == s[0] then s
    else [s[0]] + Insert(s[1..], e)
  }

  lemma {:induction false} InsertSorts(s: seq<Entry>, e: Entry)
    requires Sorted(s)
    ensures Sorted(Insert(s, e))
    ensures forall x :: x in Insert(s, e) <==> x in s || x == e
  {
    if s != [] {
      StringLessTotal(e.path, s[0].path);
      if Less(e, s[0]) {
        forall i | 0 <= i < |s| ensures Less(e, s[i]) {
          if i > 0 && e.tid == s[0].tid == s[i].tid {
            StringLessTransitive(e.path, s[0].path, s[i].path);
          }
        }
      } else if e != s[0] {
        InsertSorts(s[1..], e);
        assert s == [s[0]] + s[1..];
        var t := Insert(s[1..], e);
        forall i | 0 <= i < |t| ensures Less(s[0], t[i]) {
          assert t[i] in t;
        }
      } else {
        assert s[0] in s;
      }
    }
  }

  function SortUnique(s: seq<Entry>): seq<Entry> {
    if s == [] then [] else Insert(SortUnique(s[..|s| - 1]), s[|s| - 1])
  }

  lemma {:induction false} SortUniqueSorts(s: seq<Entry>)
    ensures Sorted(SortUnique(s))
    ensures forall x :: x in SortUnique(s) <==> x in s
  {
    if s != [] {
      var k := |s| - 1;
      SortUniqueSorts(s[..k]);
      InsertSorts(SortUnique(s[..k]), s[k]);
      assert s == s[..k] + [s[k]];
    }
  }

  // Where a loop over `xs` starts and ends ...
  lemma EdgesAtEnds<T>(xs: seq<T>, edgesOf: T -> seq<Edge>, types: set<TypeId>)
    ensures EdgesFrom(xs[..0], edgesOf) == [] && xs[..|xs|] == xs && TargetsIn([], types)
  {
  }

  // ... and what one round adds.
  lemma EdgesOfNext<T>(xs: seq<T>, edgesOf: T -> seq<Edge>, types: set<TypeId>, i: nat, more: seq<Edge>)
    requires TargetsIn(EdgesFrom(xs, edgesOf), types) && i < |xs| && more == edgesOf(xs[i])
    ensures EdgesFrom(xs[..i + 1], edgesOf) == EdgesFrom(xs[..i], edgesOf) + more
    ensures TargetsIn(EdgesFrom(xs[..i + 1], edgesOf), types)
    ensures more == [] ==> EdgesFrom(xs[..i + 1], edgesOf) == EdgesFrom(xs[..i], edgesOf)
    ensures |more| == 1 ==> more[0].target in types
  {
    EdgesFromSnoc(xs, edgesOf, i);
    TargetsOfPrefix(xs, edgesOf, types, i + 1);
    var done := EdgesFrom(xs[..i], edgesOf);
    if |more| == 1 {
      assert (done + more)[|done|] == more[0];
    }
  }

  // ----- the program

  class StaticInformation {
    const reg: Registry
    var output: seq<Entry>
    var currentPath: seq<string>
    var alreadyProcessed: seq<TypeId>
    var aggregates: Aggregates

    constructor (reg: Registry)
      ensures this.reg == reg && output == [] && currentPath == [] && alreadyProcessed == [] && aggregates == []
    {
      this.reg := reg;
      output, currentPath, alreadyProcessed, aggregates := [], [], [], [];
    }

    method RecordAggregationInfo(a: TypeId, b: TypeId)
      modifies `aggregates
      ensures aggregates == old(aggregates) + [(a, b)]
    {
      aggregates := aggregates + [(a, b)];
    }

    method GetCurrentPath() returns (path: string)
      ensures path == PathString(currentPath)
    {
      path := "";
      for i := 0 to |currentPath|
        invariant path == PathString(currentPath[..i])
      {
        assert currentPath[..i + 1][..i] == currentPath[..i];
        path := path + "/" + currentPath[i];
      }
      assert currentPath[..|currentPath|] == currentPath;
    }

    method HasAlreadyBeenProcessed(tid: TypeId) returns (found: bool)
      ensures found == (tid in alreadyProcessed)
    {
      for i := 0 to |alreadyProcessed|
        invariant tid !in alreadyProcessed[..i]
      {
        if alreadyProcessed[i] == tid {
          return true;
        }
      }
      return false;
    }

    // Walk on to `target` under the name `step`.
    method Visit(step: string, tid: TypeId, target: TypeId, ghost types: set<TypeId>)
      requires Closed(reg, aggregates, types) && tid in types && target in types
      requires tid !in alreadyProcessed
      modifies `output, `currentPath, `alreadyProcessed
      ensures output
              == old(output) + Walk(reg, aggregates, types, currentPath + [step], alreadyProcessed + [tid], target)
      ensures currentPath == old(currentPath) && alreadyProcessed == old(alreadyProcessed)
      decreases |types - Elements(alreadyProcessed)|, 0
    {
      DeeperStack(types, alreadyProcessed, tid);
      currentPath := currentPath + [step];
      alreadyProcessed := alreadyProcessed + [tid];
      DoGather(target, types);
      alreadyProcessed := alreadyProcessed[..|alreadyProcessed| - 1];
      currentPath := currentPath[..|currentPath| - 1];
    }

    // The first loop of DoGather: pointer and object-vector attributes.
    method FollowAttributes(tid: TypeId, ghost types: set<TypeId>)
      requires Closed(reg, aggregates, types) && tid in types && tid !in alreadyProcessed
      requires TargetsIn(EdgesFrom(reg.attributes(tid), OfAttribute()), types)
      modifies `output, `currentPath, `alreadyProcessed
      ensures output == old(output) + WalkEdges(reg, aggregates, types, currentPath, alreadyProcessed + [tid],
                                                EdgesFrom(reg.attributes(tid), OfAttribute()))
      ensures currentPath == old(currentPath) && alreadyProcessed == old(alreadyProcessed)
      decreases |types - Elements(alreadyProcessed)|, 1
    {
      hide Walk, WalkEdges, Closed, Edges, EdgesFrom, TargetsIn;
      var attrs := reg.attributes(tid);
      EdgesAtEnds(attrs, OfAttribute(), types);
      ghost var done: seq<Edge> := [];
      NoEdges(reg, aggregates, types, currentPath, alreadyProcessed + [tid]);
      var i := 0;
      while i < |attrs|
        invariant i <= |attrs| && done == EdgesFrom(attrs[..i], OfAttribute()) && TargetsIn(done, types)
        invariant output == old(output) + WalkEdges(reg, aggregates, types, currentPath, alreadyProcessed + [tid], done)
        invariant currentPath == old(currentPath) && alreadyProcessed == old(alreadyProcessed)
      {
        EdgesOfNext(attrs, OfAttribute(), types, i, OfAttribute()(attrs[i]));
        if !attrs[i].Plain? {
          var step := if attrs[i].Pointer? then attrs[i].name else attrs[i].name + "/[i]";
          var target := if attrs[i].Pointer? then attrs[i].pointee else attrs[i].item;
          Visit(step, tid, target, types);
          OneMoreEdge(reg, aggregates, types, currentPath, alreadyProcessed + [tid], done, Edge(step, target));
          done := done + [Edge(step, target)];
        }
        i := i + 1;
      }
    }

    // The second loop: registered subtypes.
    method FollowSubtypes(tid: TypeId, ghost types: set<TypeId>)
      requires Closed(reg, aggregates, types) && tid in types && tid !in alreadyProcessed
      requires TargetsIn(EdgesFrom(reg.registered, OfRegistered(reg, tid)), types)
      modifies `output, `currentPath, `alreadyProcessed
      ensures output == old(output) + WalkEdges(reg, aggregates, types, currentPath, alreadyProcessed + [tid],
                                                EdgesFrom(reg.registered, OfRegistered(reg, tid)))
      ensures currentPath == old(currentPath) && alreadyProcessed == old(alreadyProcessed)
      decreases |types - Elements(alreadyProcessed)|, 1
    {
      hide Walk, WalkEdges, Closed, Edges, Escape, EdgesFrom, TargetsIn;
      ghost var done: seq<Edge> := [];
      EdgesAtEnds(reg.registered, OfRegistered(reg, tid), types);
      NoEdges(reg, aggregates, types, currentPath, alreadyProcessed + [tid]);
      var j := 0;
      while j < |reg.registered|
        invariant j <= |reg.registered| && TargetsIn(done, types)
        invariant done == EdgesFrom(reg.registered[..j], OfRegistered(reg, tid))
        invariant output == old(output) + WalkEdges(reg, aggregates, types, currentPath, alreadyProcessed + [tid], done)
        invariant currentPath == old(currentPath) && alreadyProcessed == old(alreadyProcessed)
      {
        var child := reg.registered[j];
        EdgesOfNext(reg.registered, OfRegistered(reg, tid), types, j, OfRegistered(reg, tid)(child));
        if reg.isChildOf(child, tid) {
          var childName := FindAndReplace("$%" + reg.name(child));
          Visit(childName, tid, child, types);
          OneMoreEdge(reg, aggregates, types, currentPath, alreadyProcessed + [tid], done, Edge(childName, child));
          done := done + [Edge(childName, child)];
        }
        j := j + 1;
      }
    }

    // The third loop: the partners in recorded aggregations.
    method FollowAggregates(tid: TypeId, ghost types: set<TypeId>)
      requires Closed(reg, aggregates, types) && tid in types && tid !in alreadyProcessed
      requires TargetsIn(EdgesFrom(aggregates, OfAggregate(reg, tid)), types)
      modifies `output, `currentPath, `alreadyProcessed
      ensures output == old(output) + WalkEdges(reg, aggregates, types, currentPath, alreadyProcessed + [tid],
                                                EdgesFrom(aggregates, OfAggregate(reg, tid)))
      ensures currentPath == old(currentPath) && alreadyProcessed == old(alreadyProcessed)
      decreases |types - Elements(alreadyProcessed)|, 1
    {
      hide Walk, WalkEdges, Closed, Edges, Escape, EdgesFrom, TargetsIn;
      ghost var done: seq<Edge> := [];
      EdgesAtEnds(aggregates, OfAggregate(reg, tid), types);
      NoEdges(reg, aggregates, types, currentPath, alreadyProcessed + [tid]);
      var k := 0;
      while k < |aggregates|
        invariant k <= |aggregates| && TargetsIn(done, types)
        invariant done == EdgesFrom(aggregates[..k], OfAggregate(reg, tid))
        invariant output == old(output) + WalkEdges(reg, aggregates, types, currentPath, alreadyProcessed + [tid], done)
        invariant currentPath == old(currentPath) && alreadyProcessed == old(alreadyProcessed)
      {
        var pair := aggregates[k];
        EdgesOfNext(aggregates, OfAggregate(reg, tid), types, k, OfAggregate(reg, tid)(pair));
        if pair.0 == tid || pair.1 == tid {
          var other := pair.1;
          if pair.0 == tid {
            other := pair.1;
          }
          if pair.1 == tid {
            other := pair.0;
          }
          var name := FindAndReplace("$%" + reg.name(other));
          Visit(name, tid, other, types);
          OneMoreEdge(reg, aggregates, types, currentPath, alreadyProcessed + [tid], done, Edge(name, other));
          done := done + [Edge(name, other)];
        }
        k := k + 1;
      }
    }

    // Appends one entry for every simple path from `tid` that avoids the types on the
    // stack; both stacks end as they began. Terminates on cyclic graphs, because every
    // nested call has one type more on the stack.
    method DoGather(tid: TypeId, ghost types: set<TypeId>)
      requires Closed(reg, aggregates, types) && tid in types
      modifies `output, `currentPath, `alreadyProcessed
      ensures output == old(output) + Walk(reg, aggregates, types, currentPath, alreadyProcessed, tid)
      ensures currentPath == old(currentPath) && alreadyProcessed == old(alreadyProcessed)
      decreases |types - Elements(alreadyProcessed)|, 2
    {
      hide WalkEdges, Closed, Edges, EdgesFrom;
      var processed := HasAlreadyBeenProcessed(tid);
      if processed {
        return;
      }
      var path := GetCurrentPath();
      output := output + [Entry(tid, path)];
      EdgeParts(reg, aggregates, types, currentPath, alreadyProcessed + [tid], tid);
      FollowAttributes(tid, types);
      FollowSubtypes(tid, types);
      FollowAggregates(tid, types);
    }

    // The list ends up sorted, without repeats, and with exactly the old entries and
    // those of the simple paths from `tid`.
    method Gather(tid: TypeId, ghost types: set<TypeId>)
      requires Closed(reg, aggregates, types) && tid in types
      requires currentPath == [] && alreadyProcessed == []
      modifies `output, `currentPath, `alreadyProcessed
      ensures currentPath == [] && alreadyProcessed == []
      ensures Sorted(output)
      ensures forall e :: e in output <==> e in old(output) || OnRoute(reg, aggregates, tid, e)
    {
      DoGather(tid, types);
      ghost var all, found := output, Walk(reg, aggregates, types, [], [], tid);
      assert all == old(output) + found;
      SortUniqueSorts(all);
      output := SortUnique(output);
      forall e ensures e in output <==> e in old(output) || OnRoute(reg, aggregates, tid, e) {
        FoundOnSimplePath(reg, aggregates, types, tid, e);
        RouteExactly(reg, aggregates, tid, e);
        assert e in all <==> e in old(output) || e in found;
      }
    }
  }

  // Some simple path from `tid` ends in this entry.
  ghost predicate OnSimplePath(reg: Registry, aggs: Aggregates, tid: TypeId, e: Entry) {
    exists p :: SimplePath(reg, aggs, [], tid, p) && e == EntryFor(reg, aggs, [], tid, p)
  }

  // ----- the output, from the registry alone

  // Names joined, each behind a slash.
  function Slashed(names: seq<string>): string {
    if names == [] then "" else "/" + names[0] + Slashed(names[1..])
  }

  lemma {:induction false} SlashedSnoc(names: seq<string>, name: string)
    ensures Slashed(names + [name]) == Slashed(names) + "/" + name
  {
    if names == [] {
      assert names + [name] == [name] && [name][1..] == [];
      assert "/" + name + "" == "" + "/" + name;
    } else {
      assert (names + [name])[1..] == names[1..] + [name];
      SlashedSnoc(names[1..], name);
      assert "/" + names[0] + (Slashed(names[1..]) + "/" + name) == "/" + names[0] + Slashed(names[1..]) + "/" + name;
    }
  }

  lemma {:induction false} PathIsSlashed(names: seq<string>)
    ensures PathString(names) == Slashed(names)
  {
    if names != [] {
      var k := |names| - 1;
      PathIsSlashed(names[..k]);
      SlashedSnoc(names[..k], names[k]);
      assert names == names[..k] + [names[k]];
    }
  }

  // Types that meet none twice, and the names that lead from each to the next.
  predicate Route(reg: Registry, aggs: Aggregates, ts: seq<TypeId>, names: seq<string>) {
    && |ts| == |names| + 1 && NoRepeats(ts)
    && forall i :: 0 <= i < |names| ==> Leads(reg, aggs, ts[i], names[i], ts[i + 1])
  }

  // Some such route from `tid` ends at the type of the entry, with the path of the entry.
  ghost predicate OnRoute(reg: Registry, aggs: Aggregates, tid: TypeId, e: Entry) {
    exists ts, names ::
      Route(reg, aggs, ts, names) && ts[0] == tid && e.tid == ts[|ts| - 1] && e.path == Slashed(names)
  }

  predicate Avoids(ts: seq<TypeId>, stack: seq<TypeId>) {
    forall t :: t in ts ==> t !in stack
  }

  lemma {:induction false} PathIsRoute(reg: Registry, aggs: Aggregates, stack: seq<TypeId>, tid: TypeId, p: seq<nat>)
    returns (ts: seq<TypeId>)
    requires SimplePath(reg, aggs, stack, tid, p)
    ensures Route(reg, aggs, ts, PathNames(reg, aggs, tid, p)) && Avoids(ts, stack)
    ensures ts[0] == tid && ts[|ts| - 1] == PathEnd(reg, aggs, tid, p)
    decreases |p|
  {
    hide Edges, Leads;
    if p == [] {
      ts := [tid];
    } else {
      var e := Edges(reg, aggs, tid)[p[0]];
      EdgesExactly(reg, aggs, tid, e);
      var rest := PathIsRoute(reg, aggs, stack + [tid], e.target, p[1..]);
      ts := [tid] + rest;
      RouteGrows(reg, aggs, tid, e.step, rest, PathNames(reg, aggs, e.target, p[1..]), stack);
    }
  }

  lemma RouteGrows(reg: Registry, aggs: Aggregates, tid: TypeId, step: string, rest: seq<TypeId>, names: seq<string>,
                   stack: seq<TypeId>)
    requires Route(reg, aggs, rest, names) && Avoids(rest, stack + [tid]) && tid !in stack
    requires Leads(reg, aggs, tid, step, rest[0])
    ensures Route(reg, aggs, [tid] + rest, [step] + names) && Avoids([tid] + rest, stack)
  {
    hide Leads;
    var ts, all := [tid] + rest, [step] + names;
    assert forall t :: t in rest ==> t != tid && t !in stack by {
      assert tid in stack + [tid] && forall t :: t in stack ==> t in stack + [tid];
    }
    forall i, j | 0 <= i < j < |ts| ensures ts[i] != ts[j] {
      assert ts[j] == rest[j - 1] && (i > 0 ==> ts[i] == rest[i - 1]);
    }
    forall i | 0 <= i < |all| ensures Leads(reg, aggs, ts[i], all[i], ts[i + 1]) {
      assert i > 0 ==> all[i] == names[i - 1] && ts[i] == rest[i - 1] && ts[i + 1] == rest[i];
    }
  }

  lemma {:induction false} RouteIsPath(reg: Registry, aggs: Aggregates, stack: seq<TypeId>, ts: seq<TypeId>,
                                       names: seq<string>)
    returns (p: seq<nat>)
    requires Route(reg, aggs, ts, names) && Avoids(ts, stack)
    ensures SimplePath(reg, aggs, stack, ts[0], p)
    ensures PathEnd(reg, aggs, ts[0], p) == ts[|ts| - 1] && PathNames(reg, aggs, ts[0], p) == names
    decreases |ts|
  {
    hide Edges, Leads;
    if names == [] {
      p := [];
    } else {
      var e := Edge(names[0], ts[1]);
      EdgesExactly(reg, aggs, ts[0], e);
      var k :| 0 <= k < |Edges(reg, aggs, ts[0])| && Edges(reg, aggs, ts[0])[k] == e;
      RouteShrinks(reg, aggs, ts, names, stack);
      var rest := RouteIsPath(reg, aggs, stack + [ts[0]], ts[1..], names[1..]);
      p := [k] + rest;
      assert p[1..] == rest && names == [names[0]] + names[1..];
    }
  }

  lemma RouteShrinks(reg: Registry, aggs: Aggregates, ts: seq<TypeId>, names: seq<string>, stack: seq<TypeId>)
    requires Route(reg, aggs, ts, names) && Avoids(ts, stack) && names != []
    ensures Route(reg, aggs, ts[1..], names[1..]) && Avoids(ts[1..], stack + [ts[0]]) && ts[0] !in stack
  {
    hide Leads;
    assert ts[0] in ts;
    assert forall t :: t in ts[1..] ==> t in ts && t !in stack;
    forall t | t in ts[1..] ensures t != ts[0] {
      var j :| 0 <= j < |ts[1..]| && ts[1..][j] == t;
      assert ts[j + 1] == t;
    }
    forall i | 0 <= i < |names[1..]| ensures Leads(reg, aggs, ts[1..][i], names[1..][i], ts[1..][i + 1]) {
      assert Leads(reg, aggs, ts[i + 1], names[i + 1], ts[i + 2]);
    }
  }

  // An entry is on a simple path through the edges exactly when it is on a route.
  lemma RouteExactly(reg: Registry, aggs: Aggregates, tid: TypeId, e: Entry)
    ensures OnSimplePath(reg, aggs, tid, e) <==> OnRoute(reg, aggs, tid, e)
  {
    hide Edges, Leads, SimplePath, PathEnd, PathNames, PathString, Slashed;
    if OnSimplePath(reg, aggs, tid, e) {
      var p :| SimplePath(reg, aggs, [], tid, p) && e == EntryFor(reg, aggs, [], tid, p);
      var ts := PathIsRoute(reg, aggs, [], tid, p);
      assert [] + PathNames(reg, aggs, tid, p) == PathNames(reg, aggs, tid, p);
      PathIsSlashed(PathNames(reg, aggs, tid, p));
    }
    if OnRoute(reg, aggs, tid, e) {
      var ts, names :|
        Route(reg, aggs, ts, names) && ts[0] == tid && e.tid == ts[|ts| - 1] && e.path == Slashed(names);
      var p := RouteIsPath(reg, aggs, [], ts, names);
      assert [] + PathNames(reg, aggs, tid, p) == PathNames(reg, aggs, tid, p);
      PathIsSlashed(names);
      assert e == EntryFor(reg, aggs, [], tid, p);
    }
  }

  // So the type itself is listed without a path, and every registered subtype under its label.
  lemma SubtypesAreListed(reg: Registry, aggs: Aggregates, tid: TypeId, child: TypeId)
    requires child in reg.registered && reg.isChildOf(child, tid) && child != tid
    ensures OnRoute(reg, aggs, tid, Entry(tid, ""))
    ensures OnRoute(reg, aggs, tid, Entry(child, "/" + Escape("$%" + reg.name(child))))
  {
    hide Escape;
    var step := Escape("$%" + reg.name(child));
    assert Leads(reg, aggs, tid, step, child);
    assert Route(reg, aggs, [tid], []) && Slashed([]) == "";
    assert Route(reg, aggs, [tid, child], [step]) && Slashed([step]) == "/" + step by {
      assert [step][1..] == [] && "/" + step + "" == "/" + step;
    }
  }

  lemma FoundOnSimplePath(reg: Registry, aggs: Aggregates, types: set<TypeId>, tid: TypeId, e: Entry)
    requires Closed(reg, aggs, types) && tid in types
    ensures e in Walk(reg, aggs, types, [], [], tid) <==> OnSimplePath(reg, aggs, tid, e)
  {
    hide Walk, Paths, SimplePath, EntryFor, Edges, Closed;
    var ps := Paths(reg, aggs, types, [], tid);
    WalkFollowsPaths(reg, aggs, types, [], [], tid);
    if e in Walk(reg, aggs, types, [], [], tid) {
      var j :| 0 <= j < |ps| && e == EntriesFor(reg, aggs, [], tid, ps)[j];
      PathsAreAllSimple(reg, aggs, types, [], tid, ps[j]);
    }
    if OnSimplePath(reg, aggs, tid, e) {
      var p :| SimplePath(reg, aggs, [], tid, p) && e == EntryFor(reg, aggs, [], tid, p);
      PathsAreAllSimple(reg, aggs, types, [], tid, p);
      var j :| 0 <= j < |ps| && ps[j] == p;
      assert EntriesFor(reg, aggs, [], tid, ps)[j] == e;
    }
  }

  lemma NoEdges(reg: Registry, aggs: Aggregates, types: set<TypeId>, path: seq<string>, stack: seq<TypeId>)
    requires Closed(reg, aggs, types)
    ensures WalkEdges(reg, aggs, types, path, stack, []) == []
  {
  }

  lemma OneMoreEdge(reg: Registry, aggs: Aggregates, types: set<TypeId>, path: seq<string>, stack: seq<TypeId>,
                    edges: seq<Edge>, e: Edge)
    requires Closed(reg, aggs, types) && TargetsIn(edges, types) && e.target in types
    ensures WalkEdges(reg, aggs, types, path, stack, edges + [e])
            == WalkEdges(reg, aggs, types, path, stack, edges)
              + Walk(reg, aggs, types, path + [e.step], stack, e.target)
  {
    assert (edges + [e])[..|edges|] == edges;
  }

  lemma {:induction false} WalkEdgesAppend(reg: Registry, aggs: Aggregates, types: set<TypeId>, path: seq<string>,
                                           stack: seq<TypeId>, a: seq<Edge>, b: seq<Edge>)
    requires Closed(reg, aggs, types) && TargetsIn(a, types) && TargetsIn(b, types)
    ensures WalkEdges(reg, aggs, types, path, stack, a + b)
            == WalkEdges(reg, aggs, types, path, stack, a) + WalkEdges(reg, aggs, types, path, stack, b)
    decreases |b|
  {
    if b == [] {
      assert a + b == a;
    } else {
      var k := |b| - 1;
      WalkEdgesAppend(reg, aggs, types, path, stack, a, b[..k]);
      assert (a + b)[..|a + b| - 1] == a + b[..k];
    }
  }

  lemma EdgeParts(reg: Registry, aggs: Aggregates, types: set<TypeId>, path: seq<string>, stack: seq<TypeId>,
                  tid: TypeId)
    requires Closed(reg, aggs, types) && tid in types
    ensures var attributes := EdgesFrom(reg.attributes(tid), OfAttribute());
            var subtypes := EdgesFrom(reg.registered, OfRegistered(reg, tid));
            var partners := EdgesFrom(aggs, OfAggregate(reg, tid));
            && TargetsIn(attributes, types) && TargetsIn(subtypes, types) && TargetsIn(partners, types)
            && TargetsIn(Edges(reg, aggs, tid), types)
            && WalkEdges(reg, aggs, types, path, stack, Edges(reg, aggs, tid))
               == WalkEdges(reg, aggs, types, path, stack, attributes)
                  + WalkEdges(reg, aggs, types, path, stack, subtypes)
                  + WalkEdges(reg, aggs, types, path, stack, partners)
  {
    var attributes := EdgesFrom(reg.attributes(tid), OfAttribute());
    var subtypes := EdgesFrom(reg.registered, OfRegistered(reg, tid));
    var partners := EdgesFrom(aggs, OfAggregate(reg, tid));
    var all := Edges(reg, aggs, tid);
    forall i | 0 <= i < |attributes| ensures attributes[i].target in types {
      assert all[i] == attributes[i];
    }
    forall i | 0 <= i < |subtypes| ensures subtypes[i].target in types {
      assert all[|attributes| + i] == subtypes[i];
    }
    forall i | 0 <= i < |partners| ensures partners[i].target in types {
      assert all[|attributes| + |subtypes| + i] == partners[i];
    }
    WalkEdgesAppend(reg, aggs, types, path, stack, attributes, subtypes);
    WalkEdgesAppend(reg, aggs, types, path, stack, attributes + subtypes, partners);
  }
}
