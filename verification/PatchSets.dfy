// check-style.py: unified diffs, written and parsed. Lines are strings without their
// line terminator.
module PatchSets {
  import opened Wrappers

  datatype Kind = Removed | Added | Common

  datatype Line = Line(kind: Kind, text: string)

  datatype Chunk = Chunk(srcPos: nat, dstPos: nat, lines: seq<Line>)

  datatype Patch = Patch(src: string, dst: string, chunks: seq<Chunk>)

  // ----- decimal numbers

  predicate Digit(c: char) { '0' <= c <= '9' }

  predicate AllDigits(s: string) { forall i :: 0 <= i < |s| ==> Digit(s[i]) }

  function Decimal(n: nat): (s: string)
    ensures s != "" && AllDigits(s)
  {
    if n < 10 then ['0' + n as char] else Decimal(n / 10) + ['0' + (n % 10) as char]
  }

  function ToInt(s: string): nat
    requires AllDigits(s)
  {
    if s == "" then 0 else 10 * ToInt(s[..|s| - 1]) + (s[|s| - 1] as int - '0' as int)
  }

  lemma {:induction false} DecimalToInt(n: nat)
    ensures ToInt(Decimal(n)) == n
  {
    var s := Decimal(n);
    if n < 10 {
      assert s[..0] == "";
    } else {
      DecimalToInt(n / 10);
      assert s[..|s| - 1] == Decimal(n / 10);
    }
  }

  // The length of the longest prefix of digits.
  function Digits(s: string): (k: nat)
    ensures k <= |s| && AllDigits(s[..k])
  {
    if s == "" || !Digit(s[0]) then 0
    else
      var k := Digits(s[1..]);
      assert forall i :: 1 <= i < k + 1 ==> s[i] == s[1..][..k][i - 1];
      1 + k
  }

  lemma {:induction false} DigitsOf(d: string, rest: string)
    requires AllDigits(d) && (rest == "" || !Digit(rest[0]))
    ensures Digits(d + rest) == |d|
  {
    if d == "" {
      assert d + rest == rest;
    } else {
      assert (d + rest)[1..] == d[1..] + rest;
      DigitsOf(d[1..], rest);
    }
  }

  // ----- writing

  function SrcLen(ls: seq<Line>): nat {
    if ls == [] then 0 else SrcLen(ls[..|ls| - 1]) + if ls[|ls| - 1].kind == Added then 0 else 1
  }

  function DstLen(ls: seq<Line>): nat {
    if ls == [] then 0 else DstLen(ls[..|ls| - 1]) + if ls[|ls| - 1].kind == Removed then 0 else 1
  }

  function CommonLen(ls: seq<Line>): nat {
    if ls == [] then 0 else CommonLen(ls[..|ls| - 1]) + if ls[|ls| - 1].kind == Common then 1 else 0
  }

  // The counts of a header: common lines are counted on both sides.
  lemma {:induction false} HeaderCounts(ls: seq<Line>)
    ensures SrcLen(ls) + DstLen(ls) == |ls| + CommonLen(ls)
  {
    if ls != [] {
      HeaderCounts(ls[..|ls| - 1]);
    }
  }

  function WriteLine(l: Line): string {
    match l.kind
    case Removed => "-" + l.text
    case Added => "+" + l.text
    case Common => " " + l.text
  }

  function WriteHeader(c: Chunk): string {
    "@@ -" + Decimal(c.srcPos) + "," + Decimal(SrcLen(c.lines)) + " +" + Decimal(c.dstPos) + ","
      + Decimal(DstLen(c.lines)) + " @@"
  }

  function WriteLines(ls: seq<Line>): seq<string> {
    seq(|ls|, i requires 0 <= i < |ls| => WriteLine(ls[i]))
  }

  function WriteChunk(c: Chunk): seq<string> {
    [WriteHeader(c)] + WriteLines(c.lines)
  }

  function WriteChunks(cs: seq<Chunk>): seq<string> {
    if cs == [] then [] else WriteChunks(cs[..|cs| - 1]) + WriteChunk(cs[|cs| - 1])
  }

  function WritePatch(p: Patch): seq<string> {
    ["--- " + p.src, "+++ " + p.dst] + WriteChunks(p.chunks)
  }

  function Write(ps: seq<Patch>): seq<string> {
    if ps == [] then [] else Write(ps[..|ps| - 1]) + WritePatch(ps[|ps| - 1])
  }

  // ----- parsing

  predicate StartsWith(s: string, prefix: string) {
    |prefix| <= |s| && s[..|prefix|] == prefix
  }

  // Skips `prefix` and then a number; the number and what follows.
  function NumberAfter(s: string, prefix: string): Option<(nat, string)> {
    if !StartsWith(s, prefix) then None
    else
      var rest := s[|prefix|..];
      var k := Digits(rest);
      if k == 0 then None else Some((ToInt(rest[..k]), rest[k..]))
  }

  // ^@@ -([0-9]+),([0-9]+) \+([0-9]+),([0-9]+) @@ ; the four groups.
  function HeaderNumbers(line: string): Option<(nat, nat, nat, nat)> {
    match NumberAfter(line, "@@ -")
    case None => None
    case Some((srcPos, s1)) =>
      match NumberAfter(s1, ",")
      case None => None
      case Some((srcLen, s2)) =>
        match NumberAfter(s2, " +")
        case None => None
        case Some((dstPos, s3)) =>
          match NumberAfter(s3, ",")
          case None => None
          case Some((dstLen, s4)) => if StartsWith(s4, " @@") then Some((srcPos, srcLen, dstPos, dstLen)) else None
  }

  // Groups 1 and 3.
  function ParseHeader(line: string): Option<(nat, nat)> {
    match HeaderNumbers(line)
    case None => None
    case Some((srcPos, _, dstPos, _)) => Some((srcPos, dstPos))
  }

  // What the regular expressions make of a line, in the order they are tried.
  datatype Token =
    | SrcFile(name: string)
    | DstFile(name: string)
    | Header(srcPos: nat, dstPos: nat)
    | Body(line: Line)
    | Bad

  function Scan(line: string): Token {
    if StartsWith(line, "--- ") then SrcFile(line[4..])
    else if StartsWith(line, "+++ ") then DstFile(line[4..])
    else if ParseHeader(line).Some? then Header(ParseHeader(line).value.0, ParseHeader(line).value.1)
    else if StartsWith(line, "-") then Body(Line(Removed, line[1..]))
    else if StartsWith(line, "+") then Body(Line(Added, line[1..]))
    else if StartsWith(line, " ") then Body(Line(Common, line[1..]))
    else Bad
  }

  // The patches so far, and which chunk of which of them current_chunk is. The current
  // patch is the last one; the current chunk may still be one of an earlier patch.
  datatype State = State(patches: seq<Patch>, chunk: Option<(nat, nat)>)

  function AddLine(ps: seq<Patch>, i: nat, j: nat, l: Line): seq<Patch>
    requires i < |ps| && j < |ps[i].chunks|
  {
    var c := ps[i].chunks[j];
    ps[i := ps[i].(chunks := ps[i].chunks[j := c.(lines := c.lines + [l])])]
  }

  predicate StateOk(st: State) {
    st.chunk.Some? ==> st.chunk.value.0 < |st.patches| && st.chunk.value.1 < |st.patches[st.chunk.value.0].chunks|
  }

  // One line. None: an exception, be it for an unknown line or a missing patch or chunk.
  function Next(st: State, t: Token): (r: Option<State>)
    requires StateOk(st)
    ensures r.Some? ==> StateOk(r.value)
  {
    var n := |st.patches|;
    match t
    case SrcFile(name) => Some(st.(patches := st.patches + [Patch(name, "", [])]))
    case DstFile(name) =>
      if n == 0 then None else Some(st.(patches := st.patches[n - 1 := st.patches[n - 1].(dst := name)]))
    case Header(srcPos, dstPos) =>
      if n == 0 then None
      else
        var p := st.patches[n - 1];
        Some(State(st.patches[n - 1 := p.(chunks := p.chunks + [Chunk(srcPos, dstPos, [])])],
          Some((n - 1, |p.chunks|))))
    case Body(l) =>
      if st.chunk.None? then None else Some(st.(patches := AddLine(st.patches, st.chunk.value.0, st.chunk.value.1, l)))
    case Bad => None
  }

  function Feed(st: State, lines: seq<string>): (r: Option<State>)
    requires StateOk(st)
    ensures r.Some? ==> StateOk(r.value)
    decreases |lines|
  {
    if lines == [] then Some(st)
    else
      match Next(st, Scan(lines[0]))
      case None => None
      case Some(st') => Feed(st', lines[1..])
  }

  const START := State([], None)

  function Parse(lines: seq<string>): Option<seq<Patch>> {
    match Feed(START, lines) case None => None case Some(st) => Some(st.patches)
  }

  // parse_patchset; ok is false when it raises.
  method ParsePatchset(generator: seq<string>) returns (ok: bool, patchset: seq<Patch>)
    ensures ok == Parse(generator).Some?
    ensures ok ==> patchset == Parse(generator).value
  {
    hide Scan;
    patchset := [];
    var hasChunk, atPatch: nat, atChunk: nat := false, 0, 0;
    var n := 0;
    while n < |generator|
      invariant n <= |generator|
      invariant hasChunk ==> 0 <= atPatch < |patchset| && 0 <= atChunk < |patchset[atPatch].chunks|
      invariant Feed(START, generator)
                == Feed(State(patchset, if hasChunk then Some((atPatch, atChunk)) else None), generator[n..])
    {
      assert generator[n..][1..] == generator[n + 1..];
      var last := |patchset| - 1;
      match Scan(generator[n]) {
        case SrcFile(name) =>
          patchset := patchset + [Patch(name, "", [])];
        case DstFile(name) =>
          if patchset == [] {
            return false, patchset;
          }
          patchset := patchset[last := patchset[last].(dst := name)];
        case Header(srcPos, dstPos) =>
          if patchset == [] {
            return false, patchset;
          }
          hasChunk, atPatch, atChunk := true, last, |patchset[last].chunks|;
          patchset := patchset[last := patchset[last].(chunks := patchset[last].chunks + [Chunk(srcPos, dstPos, [])])];
        case Body(l) =>
          if !hasChunk {
            return false, patchset;
          }
          patchset := AddLine(patchset, atPatch, atChunk, l);
        case Bad =>
          return false, patchset;
      }
      n := n + 1;
    }
    assert generator[n..] == [];
    return true, patchset;
  }

  lemma {:induction false} FeedAppend(st: State, a: seq<string>, b: seq<string>)
    requires StateOk(st)
    ensures Feed(st, a + b) == match Feed(st, a) case None => None case Some(st') => Feed(st', b)
    decreases |a|
  {
    if a == [] {
      assert a + b == b;
    } else {
      assert (a + b)[1..] == a[1..] + b;
      if Next(st, Scan(a[0])).Some? {
        FeedAppend(Next(st, Scan(a[0])).value, a[1..], b);
      }
    }
  }

  lemma FeedOne(st: State, line: string)
    requires StateOk(st)
    ensures Feed(st, [line]) == Next(st, Scan(line))
  {
    assert [line][1..] == [];
  }

  // ----- what the parser makes of written lines

  // A line that looks like the head of a file once it is written.
  predicate Ambiguous(l: Line) {
    (l.kind == Removed && StartsWith(l.text, "-- ")) || (l.kind == Added && StartsWith(l.text, "++ "))
  }

  function LineToken(l: Line): Token {
    if !Ambiguous(l) then Body(l)
    else if l.kind == Removed then SrcFile(l.text[3..])
    else DstFile(l.text[3..])
  }

  lemma ScanLine(l: Line)
    ensures Scan(WriteLine(l)) == LineToken(l)
  {
    var s := WriteLine(l);
    assert s[1..] == l.text;
    assert |s| >= 4 ==> s[..4] == [s[0]] + l.text[..3];
    assert StartsWith(s, [s[0]]);
    assert !StartsWith(s, "@@ -") by {
      assert s[0] != '@' && (|s| >= 4 ==> s[..4][0] == s[0]);
    }
    if StartsWith(s, "--- ") {
      assert s[..4][0] == '-' && s[..4][1..] == "-- ";
    }
    if StartsWith(s, "+++ ") {
      assert s[..4][0] == '+' && s[..4][1..] == "++ ";
    }
    if Ambiguous(l) {
      assert s[4..] == l.text[3..];
      if l.kind == Removed {
        assert ['-'] + "-- " == "--- ";
      } else {
        assert ['+'] + "++ " == "+++ ";
      }
    }
  }

  lemma NumberIsRead(prefix: string, n: nat, rest: string)
    requires rest != "" && !Digit(rest[0])
    ensures NumberAfter(prefix + Decimal(n) + rest, prefix) == Some((n, rest))
  {
    var s := prefix + Decimal(n) + rest;
    assert s[|prefix|..] == Decimal(n) + rest;
    DigitsOf(Decimal(n), rest);
    DecimalToInt(n);
    assert (Decimal(n) + rest)[..|Decimal(n)|] == Decimal(n);
  }

  // How many of these lines, as written, begin with one of the two characters.
  function Beginning(lines: seq<string>, a: char, b: char): nat {
    if lines == [] then 0
    else (if lines[0] != "" && lines[0][0] in {a, b} then 1 else 0) + Beginning(lines[1..], a, b)
  }

  lemma {:induction false} BeginningSnoc(lines: seq<string>, line: string, a: char, b: char)
    ensures Beginning(lines + [line], a, b)
         == Beginning(lines, a, b) + if line != "" && line[0] in {a, b} then 1 else 0
  {
    if lines == [] {
      assert lines + [line] == [line] && [line][1..] == [];
    } else {
      assert (lines + [line])[1..] == lines[1..] + [line];
      BeginningSnoc(lines[1..], line, a, b);
    }
  }

  lemma {:induction false} LengthsAreBeginnings(ls: seq<Line>)
    ensures SrcLen(ls) == Beginning(WriteLines(ls), '-', ' ')
    ensures DstLen(ls) == Beginning(WriteLines(ls), '+', ' ')
  {
    if ls != [] {
      var k := |ls| - 1;
      LengthsAreBeginnings(ls[..k]);
      assert WriteLines(ls) == WriteLines(ls[..k]) + [WriteLine(ls[k])];
      BeginningSnoc(WriteLines(ls[..k]), WriteLine(ls[k]), '-', ' ');
      BeginningSnoc(WriteLines(ls[..k]), WriteLine(ls[k]), '+', ' ');
    }
  }

  lemma HeaderJoins(a: string, b: string, c: string, d: string, rest: string)
    ensures "@@ -" + a + "," + b + " +" + c + "," + d + " @@" + rest
         == "@@ -" + a + ("," + b + (" +" + c + ("," + d + (" @@" + rest))))
  {
    assert "," + d + " @@" + rest == "," + d + (" @@" + rest);
    assert " +" + c + "," + d + " @@" + rest == " +" + c + ("," + d + (" @@" + rest));
    assert "," + b + " +" + c + "," + d + " @@" + rest == "," + b + (" +" + c + ("," + d + (" @@" + rest)));
  }

  lemma HeaderText(c: Chunk)
    ensures WriteHeader(c)
         == "@@ -" + Decimal(c.srcPos) + "," + Decimal(SrcLen(c.lines)) + " +" + Decimal(c.dstPos) + ","
            + Decimal(DstLen(c.lines)) + " @@"
  {
    hide Decimal, SrcLen, DstLen;
  }

  // A written header, whatever follows on its line, gives the two positions and, behind each, the
  // number of written lines of that side.
  lemma HeaderIsRead(c: Chunk, rest: string)
    ensures HeaderNumbers(WriteHeader(c) + rest)
         == Some((c.srcPos, Beginning(WriteLines(c.lines), '-', ' '),
                  c.dstPos, Beginning(WriteLines(c.lines), '+', ' ')))
  {
    hide NumberAfter, Decimal, SrcLen, DstLen, ToInt, Digits, WriteHeader, Beginning, WriteLines;
    LengthsAreBeginnings(c.lines);
    HeaderText(c);
    HeaderJoins(Decimal(c.srcPos), Decimal(SrcLen(c.lines)), Decimal(c.dstPos), Decimal(DstLen(c.lines)), rest);
    var d5 := " @@" + rest;
    var d4 := "," + Decimal(DstLen(c.lines)) + d5;
    var d3 := " +" + Decimal(c.dstPos) + d4;
    var d2 := "," + Decimal(SrcLen(c.lines)) + d3;
    NumberIsRead("@@ -", c.srcPos, d2);
    NumberIsRead(",", SrcLen(c.lines), d3);
    NumberIsRead(" +", c.dstPos, d4);
    NumberIsRead(",", DstLen(c.lines), d5);
  }

  // One digit or more.
  predicate Number(s: string) {
    s != "" && AllDigits(s)
  }

  lemma NumberExactly(s: string)
    ensures Number(s) <==> s != "" && forall c :: c in s ==> '0' <= c <= '9'
  {
    assert forall i :: 0 <= i < |s| ==> s[i] in s;
  }

  // What stands in front of the rest is the prefix and a number.
  lemma NumberIsThere(s: string, prefix: string) returns (d: string)
    requires NumberAfter(s, prefix).Some?
    ensures Number(d) && ToInt(d) == NumberAfter(s, prefix).value.0
    ensures s == prefix + d + NumberAfter(s, prefix).value.1
  {
    var rest := s[|prefix|..];
    d := rest[..Digits(rest)];
    assert rest == d + rest[Digits(rest)..];
  }

  function HeaderForm(a: string, b: string, c: string, d: string): string {
    "@@ -" + a + "," + b + " +" + c + "," + d + " @@"
  }

  // Only a line of this form is a header.
  lemma HeaderHasForm(line: string) returns (a: string, b: string, c: string, d: string, rest: string)
    requires HeaderNumbers(line).Some?
    ensures line == HeaderForm(a, b, c, d) + rest
    ensures Number(a) && Number(b) && Number(c) && Number(d)
    ensures HeaderNumbers(line) == Some((ToInt(a), ToInt(b), ToInt(c), ToInt(d)))
  {
    hide NumberAfter, ToInt;
    a := NumberIsThere(line, "@@ -");
    var s1 := NumberAfter(line, "@@ -").value.1;
    b := NumberIsThere(s1, ",");
    var s2 := NumberAfter(s1, ",").value.1;
    c := NumberIsThere(s2, " +");
    var s3 := NumberAfter(s2, " +").value.1;
    d := NumberIsThere(s3, ",");
    var s4 := NumberAfter(s3, ",").value.1;
    rest := s4[3..];
    assert s4 == " @@" + rest;
  }

  lemma ScanHeader(c: Chunk)
    ensures Scan(WriteHeader(c)) == Header(c.srcPos, c.dstPos)
  {
    HeaderIsRead(c, "");
    var s := WriteHeader(c);
    assert s + "" == s;
    assert s[0] == '@';
    assert !StartsWith(s, "--- ") && !StartsWith(s, "+++ ");
  }

  lemma ScanFiles(name: string)
    ensures Scan("--- " + name) == SrcFile(name) && Scan("+++ " + name) == DstFile(name)
  {
    var s := "+++ " + name;
    assert s[0] == '+';
    assert !StartsWith(s, "--- ");
    assert s[4..] == name && ("--- " + name)[4..] == name;
  }

  // ----- round trip

  predicate CleanLines(ls: seq<Line>) {
    forall i :: 0 <= i < |ls| ==> !Ambiguous(ls[i])
  }

  predicate CleanChunks(cs: seq<Chunk>) {
    forall i :: 0 <= i < |cs| ==> CleanLines(cs[i].lines)
  }

  // No removed line begins with "-- " and no added line with "++ ".
  predicate Clean(ps: seq<Patch>) {
    forall i :: 0 <= i < |ps| ==> CleanChunks(ps[i].chunks)
  }

  // The state in which chunk `c` is being filled, behind the chunks `cs` of the last patch.
  function Filling(done: seq<Patch>, p: Patch, c: Chunk): State {
    State(done + [p.(chunks := p.chunks + [c])], Some((|done|, |p.chunks|)))
  }

  lemma AddAtEnd(done: seq<Patch>, p: Patch, c: Chunk, l: Line)
    ensures AddLine(Filling(done, p, c).patches, |done|, |p.chunks|, l)
            == Filling(done, p, c.(lines := c.lines + [l])).patches
  {
    var ps := Filling(done, p, c).patches;
    assert ps[|done|].chunks[|p.chunks|] == c;
    assert (p.chunks + [c])[|p.chunks| := c.(lines := c.lines + [l])] == p.chunks + [c.(lines := c.lines + [l])];
  }

  lemma {:induction false} FeedLines(done: seq<Patch>, p: Patch, c: Chunk, ls: seq<Line>)
    requires CleanLines(ls) && c.lines == []
    ensures Feed(Filling(done, p, c), WriteLines(ls)) == Some(Filling(done, p, c.(lines := ls)))
  {
    hide Scan, WriteLine;
    var st := Filling(done, p, c);
    if ls != [] {
      var k := |ls| - 1;
      FeedLines(done, p, c, ls[..k]);
      assert WriteLines(ls) == WriteLines(ls[..k]) + [WriteLine(ls[k])];
      FeedAppend(st, WriteLines(ls[..k]), [WriteLine(ls[k])]);
      var st' := Filling(done, p, c.(lines := ls[..k]));
      FeedOne(st', WriteLine(ls[k]));
      ScanLine(ls[k]);
      assert ls == ls[..k] + [ls[k]];
      AddAtEnd(done, p, c.(lines := ls[..k]), ls[k]);
    }
  }

  lemma FeedChunk(done: seq<Patch>, p: Patch, chunk: Option<(nat, nat)>, c: Chunk)
    requires StateOk(State(done + [p], chunk)) && CleanLines(c.lines)
    ensures Feed(State(done + [p], chunk), WriteChunk(c)) == Some(Filling(done, p, c))
  {
    hide Scan, WriteHeader;
    var st := State(done + [p], chunk);
    FeedAppend(st, [WriteHeader(c)], WriteLines(c.lines));
    FeedOne(st, WriteHeader(c));
    ScanHeader(c);
    var empty := Chunk(c.srcPos, c.dstPos, []);
    assert Next(st, Header(c.srcPos, c.dstPos)).value == Filling(done, p, empty);
    FeedLines(done, p, empty, c.lines);
  }

  lemma {:induction false} FeedChunks(done: seq<Patch>, p: Patch, chunk: Option<(nat, nat)>, cs: seq<Chunk>)
    requires p.chunks == [] && StateOk(State(done + [p], chunk)) && CleanChunks(cs)
    ensures var r := Feed(State(done + [p], chunk), WriteChunks(cs));
            r.Some? && r.value.patches == done + [p.(chunks := cs)]
  {
    hide Scan, Next, WriteChunk;
    var st := State(done + [p], chunk);
    if cs != [] {
      var k := |cs| - 1;
      FeedChunks(done, p, chunk, cs[..k]);
      FeedAppend(st, WriteChunks(cs[..k]), WriteChunk(cs[k]));
      var st' := Feed(st, WriteChunks(cs[..k])).value;
      FeedChunk(done, p.(chunks := cs[..k]), st'.chunk, cs[k]);
      assert cs == cs[..k] + [cs[k]];
    }
  }

  lemma FeedPatch(st: State, p: Patch)
    requires StateOk(st) && CleanChunks(p.chunks)
    ensures var r := Feed(st, WritePatch(p));
            r.Some? && r.value.patches == st.patches + [p]
  {
    hide Scan, WriteChunks;
    var done := st.patches;
    FeedAppend(st, ["--- " + p.src, "+++ " + p.dst], WriteChunks(p.chunks));
    FeedAppend(st, ["--- " + p.src], ["+++ " + p.dst]);
    assert ["--- " + p.src] + ["+++ " + p.dst] == ["--- " + p.src, "+++ " + p.dst];
    ScanFiles(p.src);
    ScanFiles(p.dst);
    FeedOne(st, "--- " + p.src);
    var st1 := State(done + [Patch(p.src, "", [])], st.chunk);
    FeedOne(st1, "+++ " + p.dst);
    var st2 := State(done + [Patch(p.src, p.dst, [])], st.chunk);
    assert Next(st1, DstFile(p.dst)).value.patches == st2.patches;
    FeedChunks(done, Patch(p.src, p.dst, []), st.chunk, p.chunks);
  }

  lemma {:induction false} FeedWritten(ps: seq<Patch>)
    requires Clean(ps)
    ensures var r := Feed(START, Write(ps));
            r.Some? && r.value.patches == ps
  {
    hide Scan, WritePatch, Next;
    if ps != [] {
      var k := |ps| - 1;
      FeedWritten(ps[..k]);
      FeedAppend(START, Write(ps[..k]), WritePatch(ps[k]));
      FeedPatch(Feed(START, Write(ps[..k])).value, ps[k]);
      assert ps == ps[..k] + [ps[k]];
    }
  }

  // ----- when there is an ambiguous line, something is lost

  function ChunkCount(cs: seq<Chunk>): nat {
    if cs == [] then 0 else ChunkCount(cs[..|cs| - 1]) + |cs[|cs| - 1].lines|
  }

  function LineCount(ps: seq<Patch>): nat {
    if ps == [] then 0 else LineCount(ps[..|ps| - 1]) + ChunkCount(ps[|ps| - 1].chunks)
  }

  function Bodies(lines: seq<string>): nat {
    if lines == [] then 0 else (if Scan(lines[0]).Body? then 1 else 0) + Bodies(lines[1..])
  }

  lemma {:induction false} BodiesAppend(a: seq<string>, b: seq<string>)
    ensures Bodies(a + b) == Bodies(a) + Bodies(b)
  {
    if a == [] {
      assert a + b == b;
    } else {
      assert (a + b)[1..] == a[1..] + b;
      BodiesAppend(a[1..], b);
    }
  }

  lemma {:induction false} ChunkCountUpdate(cs: seq<Chunk>, j: nat, c: Chunk)
    requires j < |cs|
    ensures ChunkCount(cs[j := c]) == ChunkCount(cs) - |cs[j].lines| + |c.lines|
  {
    var k := |cs| - 1;
    if j < k {
      ChunkCountUpdate(cs[..k], j, c);
      assert cs[j := c][..k] == cs[..k][j := c];
    } else {
      assert cs[j := c][..k] == cs[..k];
    }
  }

  lemma {:induction false} LineCountUpdate(ps: seq<Patch>, i: nat, p: Patch)
    requires i < |ps|
    ensures LineCount(ps[i := p]) == LineCount(ps) - ChunkCount(ps[i].chunks) + ChunkCount(p.chunks)
  {
    var k := |ps| - 1;
    if i < k {
      LineCountUpdate(ps[..k], i, p);
      assert ps[i := p][..k] == ps[..k][i := p];
    } else {
      assert ps[i := p][..k] == ps[..k];
    }
  }

  // Every body line ends up in some chunk, every other line in none.
  lemma NextCounts(st: State, t: Token)
    requires StateOk(st) && Next(st, t).Some?
    ensures LineCount(Next(st, t).value.patches) == LineCount(st.patches) + if t.Body? then 1 else 0
  {
    var ps, n := st.patches, |st.patches|;
    match t
    case SrcFile(name) =>
      assert (ps + [Patch(name, "", [])])[..n] == ps;
    case DstFile(name) =>
      LineCountUpdate(ps, n - 1, ps[n - 1].(dst := name));
    case Header(srcPos, dstPos) =>
      var p := ps[n - 1];
      var cs := p.chunks + [Chunk(srcPos, dstPos, [])];
      assert cs[..|cs| - 1] == p.chunks;
      LineCountUpdate(ps, n - 1, p.(chunks := cs));
    case Body(l) =>
      var (i, j) := st.chunk.value;
      var c := ps[i].chunks[j];
      var c' := c.(lines := c.lines + [l]);
      ChunkCountUpdate(ps[i].chunks, j, c');
      LineCountUpdate(ps, i, ps[i].(chunks := ps[i].chunks[j := c']));
    case Bad =>
  }

  lemma {:induction false} FeedCounts(st: State, lines: seq<string>)
    requires StateOk(st) && Feed(st, lines).Some?
    ensures LineCount(Feed(st, lines).value.patches) == LineCount(st.patches) + Bodies(lines)
    decreases |lines|
  {
    hide Scan;
    if lines != [] {
      NextCounts(st, Scan(lines[0]));
      FeedCounts(Next(st, Scan(lines[0])).value, lines[1..]);
    }
  }

  lemma BodiesOne(line: string)
    ensures Bodies([line]) == if Scan(line).Body? then 1 else 0
  {
    assert [line][1..] == [];
  }

  lemma {:induction false} BodiesOfLines(ls: seq<Line>)
    ensures Bodies(WriteLines(ls)) <= |ls|
    ensures Bodies(WriteLines(ls)) == |ls| <==> CleanLines(ls)
  {
    hide Scan;
    if ls != [] {
      var k := |ls| - 1;
      BodiesOfLines(ls[..k]);
      assert WriteLines(ls) == WriteLines(ls[..k]) + [WriteLine(ls[k])];
      BodiesAppend(WriteLines(ls[..k]), [WriteLine(ls[k])]);
      BodiesOne(WriteLine(ls[k]));
      ScanLine(ls[k]);
      assert ls == ls[..k] + [ls[k]];
    }
  }

  lemma {:induction false} BodiesOfChunks(cs: seq<Chunk>)
    ensures Bodies(WriteChunks(cs)) <= ChunkCount(cs)
    ensures Bodies(WriteChunks(cs)) == ChunkCount(cs) <==> CleanChunks(cs)
  {
    hide Scan, WriteHeader, WriteLines, CleanLines;
    if cs != [] {
      var k := |cs| - 1;
      BodiesOfChunks(cs[..k]);
      BodiesAppend(WriteChunks(cs[..k]), WriteChunk(cs[k]));
      BodiesAppend([WriteHeader(cs[k])], WriteLines(cs[k].lines));
      BodiesOne(WriteHeader(cs[k]));
      ScanHeader(cs[k]);
      BodiesOfLines(cs[k].lines);
      assert cs == cs[..k] + [cs[k]];
    }
  }

  lemma {:induction false} BodiesOfPatches(ps: seq<Patch>)
    ensures Bodies(Write(ps)) <= LineCount(ps)
    ensures Bodies(Write(ps)) == LineCount(ps) <==> Clean(ps)
  {
    hide Scan, WriteChunks, CleanChunks;
    if ps != [] {
      var k := |ps| - 1;
      var p := ps[k];
      BodiesOfPatches(ps[..k]);
      BodiesAppend(Write(ps[..k]), WritePatch(p));
      BodiesAppend(["--- " + p.src, "+++ " + p.dst], WriteChunks(p.chunks));
      BodiesAppend(["--- " + p.src], ["+++ " + p.dst]);
      assert ["--- " + p.src] + ["+++ " + p.dst] == ["--- " + p.src, "+++ " + p.dst];
      BodiesOne("--- " + p.src);
      BodiesOne("+++ " + p.dst);
      ScanFiles(p.src);
      ScanFiles(p.dst);
      BodiesOfChunks(p.chunks);
      assert ps == ps[..k] + [p];
    }
  }

  // Parsing the written form gives a patch set back exactly when it has no ambiguous line.
  lemma RoundTripExactly(ps: seq<Patch>)
    ensures Parse(Write(ps)) == Some(ps) <==> Clean(ps)
  {
    if Clean(ps) {
      FeedWritten(ps);
    } else if Feed(START, Write(ps)).Some? {
      FeedCounts(START, Write(ps));
      BodiesOfPatches(ps);
    }
  }
}
