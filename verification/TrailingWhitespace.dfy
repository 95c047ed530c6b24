// check-style.py: taking changes in trailing white space out of a parsed diff, line objects being
// shared between the two sides of a chunk.
module TrailingWhitespace {
  import opened Sequences
  import opened PatchSets

  predicate Blank(c: char) {
    c == ' ' || c == '\t'
  }

  // What the pattern ^(.*)([ \t]+)$ finds: the first group is greedy, so the second is one blank.
  // The pair of lines it acts on differ by that blank.
  predicate Widened(s: string, d: string) {
    |s| == |d| + 1 && s[..|d|] == d && Blank(s[|d|])
  }

  lemma WidenedExactly(s: string, d: string)
    ensures Widened(s, d) <==> s == d + " " || s == d + "\t"
  {
    if Widened(s, d) {
      assert s == s[..|d|] + [s[|d|]];
    }
  }

  // Positions of lines, in order.
  predicate Within(ps: seq<nat>, ls: seq<Line>) {
    && (forall i :: 0 <= i < |ps| ==> ps[i] < |ls|)
    && (forall i, j :: 0 <= i < j < |ps| ==> ps[i] < ps[j])
  }

  predicate AllBut(ps: seq<nat>, ls: seq<Line>, omit: Kind)
    requires Within(ps, ls)
  {
    && (forall i :: 0 <= i < |ps| ==> ls[ps[i]].kind != omit)
    && (forall k :: 0 <= k < |ls| && ls[k].kind != omit ==> k in ps)
  }

  // One side of the chunk: the positions of the lines that are not of kind `omit`.
  function Side(ls: seq<Line>, omit: Kind): (ps: seq<nat>)
    ensures Within(ps, ls)
  {
    if ls == [] then []
    else
      var k := |ls| - 1;
      Side(ls[..k], omit) + if ls[k].kind != omit then [k] else []
  }

  lemma {:induction false} SideIsAllBut(ls: seq<Line>, omit: Kind)
    ensures AllBut(Side(ls, omit), ls, omit)
  {
    if ls != [] {
      var k := |ls| - 1;
      SideIsAllBut(ls[..k], omit);
      var before, ps := Side(ls[..k], omit), Side(ls, omit);
      forall j | 0 <= j < |ls| && ls[j].kind != omit
        ensures j in ps
      {
        assert j < k ==> ls[..k][j].kind != omit && j in before;
      }
    }
  }

  lemma {:induction false} SideLengths(ls: seq<Line>)
    ensures |Side(ls, Added)| == SrcLen(ls) && |Side(ls, Removed)| == DstLen(ls)
  {
    if ls != [] {
      SideLengths(ls[..|ls| - 1]);
    }
  }

  lemma {:induction false} SideByKinds(ls: seq<Line>, ls': seq<Line>, omit: Kind)
    requires |ls| == |ls'| && forall k :: 0 <= k < |ls| ==> ls[k].kind == ls'[k].kind
    ensures Side(ls, omit) == Side(ls', omit)
  {
    if ls != [] {
      SideByKinds(ls[..|ls| - 1], ls'[..|ls| - 1], omit);
    }
  }

  // ----- what the loop does to the lines

  // The i-th line of the new side, compared with the i-th line of the old one.
  function FixLine(ls: seq<Line>, src: seq<nat>, dst: seq<nat>, i: nat): (r: seq<Line>)
    requires Within(src, ls) && Within(dst, ls) && i < |src| && i < |dst|
    ensures |r| == |ls|
  {
    var s, d := ls[src[i]].text, ls[dst[i]].text;
    if Widened(s, d) then ls[dst[i] := ls[dst[i]].(text := d + [s[|d|]])] else ls
  }

  // From the i-th line on; false when the new side runs out of lines before the old one.
  function FixFrom(ls: seq<Line>, src: seq<nat>, dst: seq<nat>, i: nat): (r: (seq<Line>, bool))
    requires Within(src, ls) && Within(dst, ls)
    ensures |r.0| == |ls|
    decreases |src| - i
  {
    if i >= |src| then (ls, true)
    else if i >= |dst| then (ls, false)
    else FixFrom(FixLine(ls, src, dst, i), src, dst, i + 1)
  }

  function Fix(ls: seq<Line>): (r: (seq<Line>, bool)) {
    FixFrom(ls, Side(ls, Added), Side(ls, Removed), 0)
  }

  // Chunk after chunk is dealt with, until one has run out of lines.
  predicate Reached(cs: seq<seq<Line>>, c: nat)
    requires c <= |cs|
  {
    c == 0 || (Reached(cs, c - 1) && Fix(cs[c - 1]).1)
  }

  function FixAll(cs: seq<seq<Line>>): (r: seq<seq<Line>>) {
    seq(|cs|, c requires 0 <= c < |cs| => if Reached(cs, c) then Fix(cs[c]).0 else cs[c])
  }

  lemma {:induction false} ReachedBefore(cs: seq<seq<Line>>, b: nat, c: nat)
    requires b <= c <= |cs| && Reached(cs, c)
    ensures Reached(cs, b)
  {
    if b < c {
      ReachedBefore(cs, b, c - 1);
    }
  }

  lemma {:induction false} EndsExactly(ls: seq<Line>, src: seq<nat>, dst: seq<nat>, i: nat)
    requires Within(src, ls) && Within(dst, ls) && i <= |src| && i <= |dst|
    ensures FixFrom(ls, src, dst, i).1 <==> |src| <= |dst|
    decreases |src| - i
  {
    if i < |src| && i < |dst| {
      EndsExactly(FixLine(ls, src, dst, i), src, dst, i + 1);
    }
  }

  // A chunk is edited iff every chunk in front of it has as many new lines as old ones or more.
  lemma {:induction false} EditedExactly(cs: seq<seq<Line>>, c: nat)
    requires c < |cs|
    ensures FixAll(cs)[c]
         == if forall b :: 0 <= b < c ==> SrcLen(cs[b]) <= DstLen(cs[b]) then Fix(cs[c]).0 else cs[c]
  {
    hide Fix;
    ReachedExactly(cs, c);
  }

  lemma {:induction false} ReachedExactly(cs: seq<seq<Line>>, c: nat)
    requires c <= |cs|
    ensures Reached(cs, c) <==> forall b :: 0 <= b < c ==> SrcLen(cs[b]) <= DstLen(cs[b])
  {
    hide Fix, SrcLen, DstLen;
    if c > 0 {
      ReachedExactly(cs, c - 1);
      ChunkEndsExactly(cs[c - 1]);
    }
  }

  lemma ChunkEndsExactly(ls: seq<Line>)
    ensures Fix(ls).1 <==> SrcLen(ls) <= DstLen(ls)
  {
    hide Side, SrcLen, DstLen, FixFrom;
    SideLengths(ls);
    EndsExactly(ls, Side(ls, Added), Side(ls, Removed), 0);
  }

  // ----- what is kept

  // A text is kept or gets one blank more.
  predicate Extends(a: string, b: string) {
    a == b || Widened(b, a)
  }

  lemma {:induction false} OnlyBlanksAdded(ls: seq<Line>, src: seq<nat>, dst: seq<nat>, i: nat, k: nat)
    requires Within(src, ls) && Within(dst, ls) && k < |ls|
    ensures var r := FixFrom(ls, src, dst, i).0;
            && r[k].kind == ls[k].kind && Extends(ls[k].text, r[k].text)
            && ((forall j :: i <= j < |dst| ==> dst[j] != k) ==> r[k] == ls[k])
    decreases |src| - i
  {
    if i < |src| && i < |dst| {
      OnlyBlanksAdded(FixLine(ls, src, dst, i), src, dst, i + 1, k);
    }
  }

  // No line changes its kind or loses anything, a removed line stays as it was, and nothing is
  // added but a blank at the end: the header counts stay right, and the new text of the file is
  // the old one up to trailing white space.
  lemma ChunkUpToBlanks(ls: seq<Line>, k: nat)
    requires k < |ls|
    ensures |Fix(ls).0| == |ls|
    ensures var was, now := ls[k], Fix(ls).0[k];
            && now.kind == was.kind
            && (now.text == was.text || now.text == was.text + " " || now.text == was.text + "\t")
            && (was.kind == Removed ==> now == was)
  {
    WidenedExactly(Fix(ls).0[k].text, ls[k].text);
    OnlyBlanksAdded(ls, Side(ls, Added), Side(ls, Removed), 0, k);
    SideIsAllBut(ls, Removed);
  }

  lemma HeaderStaysRight(ls: seq<Line>)
    ensures SrcLen(Fix(ls).0) == SrcLen(ls) && DstLen(Fix(ls).0) == DstLen(ls)
  {
    var r := Fix(ls).0;
    forall k | 0 <= k < |ls| ensures r[k].kind == ls[k].kind {
      ChunkUpToBlanks(ls, k);
    }
    SideByKinds(ls, r, Added);
    SideByKinds(ls, r, Removed);
    SideLengths(ls);
    SideLengths(r);
  }

  // ----- the old side of a chunk

  // The i-th pair of lines differs by a blank, and the new one is a common line.
  predicate HitsCommon(ls: seq<Line>, src: seq<nat>, dst: seq<nat>, i: nat)
    requires Within(src, ls) && Within(dst, ls)
  {
    i < |src| && i < |dst| && Widened(ls[src[i]].text, ls[dst[i]].text) && ls[dst[i]].kind == Common
  }

  ghost predicate NoCommonHit(ls: seq<Line>, src: seq<nat>, dst: seq<nat>, i: nat)
    requires Within(src, ls) && Within(dst, ls)
  {
    forall j: nat :: i <= j ==> !HitsCommon(ls, src, dst, j)
  }

  predicate SameOldSide(ls: seq<Line>, r: seq<Line>) {
    |r| == |ls| && forall k :: 0 <= k < |ls| && ls[k].kind != Added ==> r[k] == ls[k]
  }

  predicate Sides(ls: seq<Line>, src: seq<nat>, dst: seq<nat>) {
    && Within(src, ls) && Within(dst, ls)
    && (forall i :: 0 <= i < |src| ==> ls[src[i]].kind != Added)
    && (forall i :: 0 <= i < |dst| ==> ls[dst[i]].kind != Removed)
  }

  // As long as only added lines are touched, the pairs behind look as they did.
  lemma AddedLineOnly(ls: seq<Line>, src: seq<nat>, dst: seq<nat>, i: nat)
    requires Sides(ls, src, dst) && i < |src| && i < |dst| && !HitsCommon(ls, src, dst, i)
    ensures var t := FixLine(ls, src, dst, i);
            && Sides(t, src, dst) && SameOldSide(ls, t)
            && (forall j :: 0 <= j < |src| ==> t[src[j]] == ls[src[j]])
            && (forall j :: 0 <= j < |dst| && j != i ==> t[dst[j]] == ls[dst[j]])
            && (forall j :: i < j ==> (HitsCommon(t, src, dst, j) <==> HitsCommon(ls, src, dst, j)))
  {
  }

  lemma {:induction false} OldSideFrom(ls: seq<Line>, src: seq<nat>, dst: seq<nat>, i: nat)
    requires Sides(ls, src, dst)
    ensures SameOldSide(ls, FixFrom(ls, src, dst, i).0) <==> NoCommonHit(ls, src, dst, i)
    decreases |src| - i
  {
    if i < |src| && i < |dst| {
      var t := FixLine(ls, src, dst, i);
      if HitsCommon(ls, src, dst, i) {
        OnlyBlanksAdded(t, src, dst, i + 1, dst[i]);
        assert FixFrom(ls, src, dst, i).0[dst[i]].text != ls[dst[i]].text;
      } else {
        hide FixLine, Sides, Within;
        AddedLineOnly(ls, src, dst, i);
        OldSideFrom(t, src, dst, i + 1);
      }
    }
  }

  // The old side, which has to match the file the diff is applied to, is kept exactly when no
  // pair of lines, as parsed, differs by a trailing blank with a common line as its new one. Such
  // a line is on both sides at once.
  lemma OldSideKeptExactly(ls: seq<Line>)
    ensures SameOldSide(ls, Fix(ls).0)
       <==> NoCommonHit(ls, Side(ls, Added), Side(ls, Removed), 0)
  {
    hide Side, SameOldSide, NoCommonHit;
    SideIsAllBut(ls, Added);
    SideIsAllBut(ls, Removed);
    OldSideFrom(ls, Side(ls, Added), Side(ls, Removed), 0);
  }

  lemma {:induction false} NewSideFrom(ls: seq<Line>, src: seq<nat>, dst: seq<nat>, i: nat, j: nat)
    requires Sides(ls, src, dst) && NoCommonHit(ls, src, dst, i)
    requires i <= j < |src| && j < |dst|
    ensures var s, d := ls[src[j]].text, ls[dst[j]].text;
            FixFrom(ls, src, dst, i).0[dst[j]].text == if Widened(s, d) then s else d
    decreases |src| - i
  {
    var t := FixLine(ls, src, dst, i);
    AddedLineOnly(ls, src, dst, i);
    if i == j {
      OnlyBlanksAdded(t, src, dst, i + 1, dst[j]);
      assert Widened(ls[src[j]].text, ls[dst[j]].text) ==> t[dst[j]].text == ls[src[j]].text;
    } else {
      NewSideFrom(t, src, dst, i + 1, j);
    }
  }

  // Then a change of one trailing blank is undone, pair by pair, and every other change stays.
  lemma BlankChangesUndone(ls: seq<Line>, j: nat)
    requires NoCommonHit(ls, Side(ls, Added), Side(ls, Removed), 0)
    requires j < SrcLen(ls) && j < DstLen(ls)
    ensures |Side(ls, Added)| == SrcLen(ls) && |Side(ls, Removed)| == DstLen(ls)
    ensures var src, dst := Side(ls, Added), Side(ls, Removed);
            var s, d := ls[src[j]].text, ls[dst[j]].text;
            Fix(ls).0[dst[j]].text == if s == d + " " || s == d + "\t" then s else d
  {
    SideLengths(ls);
    WidenedExactly(ls[Side(ls, Added)[j]].text, ls[Side(ls, Removed)[j]].text);
    SideIsAllBut(ls, Added);
    SideIsAllBut(ls, Removed);
    NewSideFrom(ls, Side(ls, Added), Side(ls, Removed), 0, j);
  }

  lemma SideOfOne(l: Line, omit: Kind)
    ensures Side([l], omit) == if l.kind != omit then [0] else []
  {
    assert [l][..0] == [];
    assert Side([l][..0], omit) == [];
  }

  // A removed line "a " in front of a common line "a": the common line gets the blank, and the
  // chunk no longer fits the file.
  lemma CommonLineHit()
    ensures !SameOldSide([Line(Removed, "a "), Line(Common, "a")], Fix([Line(Removed, "a "), Line(Common, "a")]).0)
  {
    hide Fix, SameOldSide, Within, AllBut;
    var ls := [Line(Removed, "a "), Line(Common, "a")];
    assert ls[..1] == [ls[0]];
    SideOfOne(ls[0], Added);
    SideOfOne(ls[0], Removed);
    assert Side(ls, Added) == [0, 1] && Side(ls, Removed) == [1];
    assert HitsCommon(ls, Side(ls, Added), Side(ls, Removed), 0);
    OldSideKeptExactly(ls);
  }

  // ----- the line objects

  class PatchChunkLine {
    const kind: Kind
    var text: string

    constructor (kind: Kind, text: string)
      ensures this.kind == kind && this.text == text
    {
      this.kind, this.text := kind, text;
    }

    method AppendToLine(s: string)
      modifies this
      ensures text == old(text) + s
    {
      text := text + s;
    }
  }

  function Values(lines: seq<PatchChunkLine>): (ls: seq<Line>)
    reads lines
    ensures |ls| == |lines| && forall i :: 0 <= i < |ls| ==> ls[i] == Line(lines[i].kind, lines[i].text)
  {
    if lines == [] then []
    else
      var k := |lines| - 1;
      Values(lines[..k]) + [Line(lines[k].kind, lines[k].text)]
  }

  // chunk.src () and chunk.dst (): the same objects, not copies.
  method LinesOf(lines: seq<PatchChunkLine>, omit: Kind) returns (side: seq<PatchChunkLine>)
    ensures var ps := Side(Values(lines), omit);
            |side| == |ps| && forall i :: 0 <= i < |ps| ==> side[i] == lines[ps[i]]
  {
    hide AllBut;
    side := [];
    ghost var ls := Values(lines);
    for k := 0 to |lines|
      invariant var ps := Side(ls[..k], omit);
                |side| == |ps| && forall i :: 0 <= i < |ps| ==> side[i] == lines[ps[i]]
    {
      assert ls[..k + 1][..k] == ls[..k];
      if lines[k].kind != omit {
        side := side + [lines[k]];
      }
    }
    assert ls[..|lines|] == ls;
  }

  // The loop over one chunk; ok is false on an index error.
  method FixChunk(lines: seq<PatchChunkLine>) returns (ok: bool)
    requires NoRepeats(lines)
    modifies lines
    ensures (Values(lines), ok) == Fix(old(Values(lines)))
  {
    hide Side, FixFrom, AllBut, Within;
    ghost var ls := Values(lines);
    ghost var sp, dp := Side(ls, Added), Side(ls, Removed);
    var src := LinesOf(lines, Added);
    var dst := LinesOf(lines, Removed);
    SidesAreWithin(ls);
    for i := 0 to |src|
      invariant Within(sp, Values(lines)) && Within(dp, Values(lines))
      invariant FixFrom(Values(lines), sp, dp, i) == Fix(ls)
    {
      FixFromStep(Values(lines), sp, dp, i);
      if i >= |dst| {
        return false;
      }
      FixOne(lines, sp, dp, i, src[i], dst[i]);
    }
    FixFromStep(Values(lines), sp, dp, |src|);
    return true;
  }

  lemma SidesAreWithin(ls: seq<Line>)
    ensures Fix(ls) == FixFrom(ls, Side(ls, Added), Side(ls, Removed), 0)
    ensures forall i :: 0 <= i < |Side(ls, Added)| ==> Side(ls, Added)[i] < |ls|
    ensures forall i :: 0 <= i < |Side(ls, Removed)| ==> Side(ls, Removed)[i] < |ls|
  {
  }

  lemma FixFromStep(ls: seq<Line>, src: seq<nat>, dst: seq<nat>, i: nat)
    requires Within(src, ls) && Within(dst, ls)
    ensures FixFrom(ls, src, dst, i)
         == if i >= |src| then (ls, true) else if i >= |dst| then (ls, false)
            else FixFrom(FixLine(ls, src, dst, i), src, dst, i + 1)
    ensures i < |src| && i < |dst| ==> Within(src, FixLine(ls, src, dst, i)) && Within(dst, FixLine(ls, src, dst, i))
  {
  }

  // The body of that loop.
  method FixOne(lines: seq<PatchChunkLine>, ghost sp: seq<nat>, ghost dp: seq<nat>, ghost i: nat, s: PatchChunkLine,
                d: PatchChunkLine)
    requires NoRepeats(lines) && Within(sp, Values(lines)) && Within(dp, Values(lines)) && i < |sp| && i < |dp|
    requires s == lines[sp[i]] && d == lines[dp[i]]
    modifies lines
    ensures Values(lines) == FixLine(old(Values(lines)), sp, dp, i)
  {
    if s.text != "" && Blank(s.text[|s.text| - 1]) && s.text[..|s.text| - 1] == d.text {
      assert Widened(s.text, d.text);
      d.AppendToLine([s.text[|s.text| - 1]]);
    } else {
      assert !Widened(s.text, d.text);
    }
  }

  function Objects(chunks: seq<seq<PatchChunkLine>>): set<PatchChunkLine> {
    set c, l | c in chunks && l in c :: l
  }

  lemma InObjects(chunks: seq<seq<PatchChunkLine>>, c: nat)
    requires c < |chunks|
    ensures forall l :: l in chunks[c] ==> l in Objects(chunks)
  {
    var chunk := chunks[c];
    assert chunk in chunks;
  }

  predicate Separate(chunks: seq<seq<PatchChunkLine>>) {
    && (forall c :: 0 <= c < |chunks| ==> NoRepeats(chunks[c]))
    && (forall c, c' :: 0 <= c < c' < |chunks| ==> forall l :: l in chunks[c] ==> l !in chunks[c'])
  }

  function AllValues(chunks: seq<seq<PatchChunkLine>>): (cs: seq<seq<Line>>)
    reads Objects(chunks)
    ensures |cs| == |chunks|
    ensures forall c :: 0 <= c < |cs| ==> cs[c] == Values(chunks[c])
  {
    seq(|chunks|, c requires 0 <= c < |chunks| reads Objects(chunks) =>
      ValuesIn(chunks, c))
  }

  function ValuesIn(chunks: seq<seq<PatchChunkLine>>, c: nat): (ls: seq<Line>)
    requires c < |chunks|
    reads Objects(chunks)
    ensures ls == Values(chunks[c])
  {
    InObjects(chunks, c);
    Values(chunks[c])
  }

  // One chunk is dealt with and no other one is touched.
  method FixOneOf(chunks: seq<seq<PatchChunkLine>>, c: nat) returns (ok: bool)
    requires Separate(chunks) && c < |chunks|
    modifies chunks[c]
    ensures (Values(chunks[c]), ok) == Fix(old(Values(chunks[c])))
    ensures forall k :: 0 <= k < |chunks| && k != c ==> Values(chunks[k]) == old(Values(chunks[k]))
  {
    hide Fix, Values;
    ok := FixChunk(chunks[c]);
    forall k | 0 <= k < |chunks| && k != c
      ensures Values(chunks[k]) == old(Values(chunks[k]))
    {
      forall i | 0 <= i < |chunks[k]|
        ensures chunks[k][i].text == old(chunks[k][i].text)
      {
        assert chunks[k][i] in chunks[k] && chunks[k][i] !in chunks[c];
      }
    }
  }

  // remove_trailing_whitespace_changes, over the chunks of all patches in order.
  method RemoveTrailingWhitespaceChanges(chunks: seq<seq<PatchChunkLine>>)
    requires Separate(chunks)
    modifies Objects(chunks)
    ensures AllValues(chunks) == FixAll(old(AllValues(chunks)))
  {
    hide Fix, Values, Separate, AllValues;
    ghost var cs := AllValues(chunks);
    for c := 0 to |chunks|
      invariant Reached(cs, c)
      invariant forall k :: 0 <= k < |chunks| ==> Values(chunks[k]) == if k < c then Fix(cs[k]).0 else cs[k]
    {
      InObjects(chunks, c);
      var ok := FixOneOf(chunks, c);
      if !ok {
        forall k | 0 <= k < |chunks|
          ensures Reached(cs, k) <==> k <= c
        {
          ReachedAgain(cs, c, k);
        }
        assert AllValues(chunks) == FixAll(cs);
        return;
      }
    }
    forall k | 0 <= k < |chunks|
      ensures Reached(cs, k)
    {
      ReachedBefore(cs, k, |chunks|);
    }
    assert AllValues(chunks) == FixAll(cs);
  }

  lemma ReachedAgain(cs: seq<seq<Line>>, c: nat, k: nat)
    requires c < |cs| && k <= |cs| && Reached(cs, c) && !Fix(cs[c]).1
    ensures Reached(cs, k) <==> k <= c
  {
    hide Fix;
    if k <= c {
      ReachedBefore(cs, k, c);
    } else if Reached(cs, k) {
      ReachedBefore(cs, c + 1, k);
    }
  }
}
