/** Parsing a version 3 source map (sourcemap/parse.ts) and looking locations up in it (sourcemap/resolve.ts). */
module SourceMap {
  import opened Prelude
  import opened Text
  import Vlq

  /** A segment of 1, 4 or 5 fields; all numbers absolute. */
  datatype Segment =
    | Unmapped(genCol: int)
    | Mapped(genCol: int, sourceIdx: int, origLine: int, origCol: int)
    | Named(genCol: int, sourceIdx: int, origLine: int, origCol: int, nameIdx: int)

  type Line = seq<Segment>

  datatype ParsedMap = ParsedMap(sources: seq<string>, names: seq<string>, lines: seq<Line>)

  /** The accumulators that carry from one generated line to the next. */
  datatype Carry = Carry(sourceIdx: int, origLine: int, origCol: int, nameIdx: int)

  const START: Carry := Carry(0, 0, 0, 0)

  // ---------------------------------------------------------------- parsing

  /** The segment the decoded fields `v` stand for; None for two or three fields. */
  function ApplyFields(v: seq<int>, genCol: int, c: Carry): Option<(Segment, Carry)>
    requires |v| >= 1
  {
    if |v| == 1 then Some((Unmapped(genCol), c))
    else if |v| < 4 then None
    else
      var next := Carry(c.sourceIdx + v[1], c.origLine + v[2], c.origCol + v[3], c.nameIdx);
      if |v| == 5 then
        var named := next.(nameIdx := c.nameIdx + v[4]);
        Some((Named(genCol, named.sourceIdx, named.origLine, named.origCol, named.nameIdx), named))
      else Some((Mapped(genCol, next.sourceIdx, next.origLine, next.origCol), next))
  }

  function Prepend(segs: Line, r: Option<(Line, Carry)>): Option<(Line, Carry)> {
    if r.None? then None else Some((segs + r.value.0, r.value.1))
  }

  /** What one comma-separated piece of a line contributes. */
  datatype Piece = Blank | Malformed | Read(seg: Segment, carry: Carry)

  function ReadPiece(part: string, prevGenCol: int, c: Carry): Piece {
    if part == "" then Blank
    else
      match Vlq.Decode(part)
      case Err(_) => Malformed
      case Ok(v) =>
        if v == [] then Blank
        else
          var read := ApplyFields(v, prevGenCol + v[0], c);
          if read.None? then Malformed else Read(read.value.0, read.value.1)
  }

  function ParseSegments(parts: seq<string>, prevGenCol: int, c: Carry): Option<(Line, Carry)> {
    if parts == [] then Some(([], c))
    else
      match ReadPiece(parts[0], prevGenCol, c)
      case Blank => ParseSegments(parts[1..], prevGenCol, c)
      case Malformed => None
      case Read(seg, carry) => Prepend([seg], ParseSegments(parts[1..], seg.genCol, carry))
  }

  function ParseLine(line: string, c: Carry): Option<(Line, Carry)> {
    if line == "" then Some(([], c)) else ParseSegments(Split(line, ','), 0, c)
  }

  function ParseLines(lines: seq<string>, c: Carry): Option<seq<Line>> {
    if lines == [] then Some([])
    else
      var first := ParseLine(lines[0], c);
      if first.None? then None
      else
        var rest := ParseLines(lines[1..], first.value.1);
        PrependLines([first.value.0], rest)
  }

  function ParseMappings(mappings: string): Option<seq<Line>> {
    ParseLines(Split(mappings, ';'), START)
  }

  predicate IsStringArray(v: Option<Json>) {
    v.Some? && v.value.JArr? && forall i :: 0 <= i < |v.value.items| ==> v.value.items[i].JStr?
  }

  function Strings(v: Option<Json>): (ss: seq<string>)
    requires IsStringArray(v)
    ensures |ss| == |v.value.items|
  {
    seq(|v.value.items|, i requires 0 <= i < |v.value.items| => v.value.items[i].s)
  }

  /** `parseSourceMap`: None is `null`. */
  function ParseSourceMap(raw: Json): Option<ParsedMap> {
    if !raw.JObj? then None
    else if Field(raw.fields, "version") != Some(JNum(3.0)) then None
    else if !IsStringArray(Field(raw.fields, "sources")) then None
    else
      var mappings := Field(raw.fields, "mappings");
      if mappings.None? || !mappings.value.JStr? then None
      else
        var names := Field(raw.fields, "names");
        var lines := ParseMappings(mappings.value.s);
        if lines.None? then None
        else Some(ParsedMap(Strings(Field(raw.fields, "sources")),
                            if IsStringArray(names) then Strings(names) else [],
                            lines.value))
  }

  // ---------------------------------------------------------------- parsing, as the loops run

  function PrependLines(lines: seq<Line>, r: Option<seq<Line>>): Option<seq<Line>> {
    if r.None? then None else Some(lines + r.value)
  }

  lemma PrependTwice(a: Line, b: Line, r: Option<(Line, Carry)>)
    ensures Prepend(a + b, r) == Prepend(a, Prepend(b, r))
    ensures Prepend([], r) == r
  {
    if r.Some? {
      assert a + b + r.value.0 == a + (b + r.value.0);
      assert [] + r.value.0 == r.value.0;
    }
  }

  lemma PrependLinesTwice(a: seq<Line>, b: seq<Line>, r: Option<seq<Line>>)
    ensures PrependLines(a + b, r) == PrependLines(a, PrependLines(b, r))
    ensures PrependLines([], r) == r
  {
    if r.Some? {
      assert a + b + r.value == a + (b + r.value);
      assert [] + r.value == r.value;
    }
  }

  method ReadPieceSteps(part: string, prevGenCol: int, c: Carry) returns (r: Piece)
    ensures r == ReadPiece(part, prevGenCol, c)
  {
    if |part| == 0 {
      return Blank;
    }
    var decoded := Vlq.DecodeVlqList(part);
    if decoded.Err? {
      return Malformed;
    }
    var v := decoded.value;
    if |v| == 0 {
      return Blank;
    }
    var genCol := prevGenCol + v[0];
    if |v| == 1 {
      return Read(Unmapped(genCol), c);
    }
    if |v| < 4 {
      return Malformed;
    }
    var carry := c.(sourceIdx := c.sourceIdx + v[1],
                    origLine := c.origLine + v[2],
                    origCol := c.origCol + v[3]);
    if |v| == 5 {
      carry := carry.(nameIdx := carry.nameIdx + v[4]);
      return Read(Named(genCol, carry.sourceIdx, carry.origLine, carry.origCol, carry.nameIdx), carry);
    }
    return Read(Mapped(genCol, carry.sourceIdx, carry.origLine, carry.origCol), carry);
  }

  method ParseLineLoop(line: string, c: Carry) returns (r: Option<(Line, Carry)>)
    ensures r == ParseLine(line, c)
  {
    var segments: Line := [];
    var prevGenCol := 0;
    var carry := c;
    if |line| > 0 {
      var parts := Split(line, ',');
      PrependTwice([], [], ParseSegments(parts, 0, c));
      assert parts[0..] == parts;
      for i := 0 to |parts|
        invariant ParseSegments(parts, 0, c) == Prepend(segments, ParseSegments(parts[i..], prevGenCol, carry))
      {
        var rest := parts[i + 1..];
        assert parts[i..][1..] == rest;
        var piece := ReadPieceSteps(parts[i], prevGenCol, carry);
        match piece {
          case Blank =>
          case Malformed =>
            return None;
          case Read(seg, next) =>
            PrependTwice(segments, [seg], ParseSegments(rest, seg.genCol, next));
            prevGenCol := seg.genCol;
            carry := next;
            segments := segments + [seg];
        }
      }
      assert ParseSegments(parts[|parts|..], prevGenCol, carry) == Some(([], carry));
      assert segments + [] == segments;
      assert ParseLine(line, c) == Some((segments, carry));
    }
    r := Some((segments, carry));
  }

  method ParseMappingsLoop(mappings: string) returns (r: Option<seq<Line>>)
    ensures r == ParseMappings(mappings)
  {
    var lines: seq<Line> := [];
    var carry := START;
    var lineStrs := Split(mappings, ';');
    PrependLinesTwice([], [], ParseMappings(mappings));
    assert lineStrs[0..] == lineStrs;
    for i := 0 to |lineStrs|
      invariant ParseMappings(mappings) == PrependLines(lines, ParseLines(lineStrs[i..], carry))
    {
      var rest := lineStrs[i + 1..];
      assert lineStrs[i..][1..] == rest;
      var line := ParseLineLoop(lineStrs[i], carry);
      if line.None? {
        return None;
      }
      PrependLinesTwice(lines, [line.value.0], ParseLines(rest, line.value.1));
      carry := line.value.1;
      lines := lines + [line.value.0];
    }
    assert ParseLines(lineStrs[|lineStrs|..], carry) == Some([]);
    assert lines + [] == lines;
    r := Some(lines);
  }
  // ---------------------------------------------------------------- how many fields a piece may have

  /** How many fields a segment was read as having. */
  function FieldCount(seg: Segment): nat {
    match seg
    case Unmapped(_) => 1
    case Mapped(_, _, _, _) => 4
    case Named(_, _, _, _, _) => 5
  }

  /**
   * What a piece becomes depends on its number of fields alone. It is rejected when it does not decode
   * or has two or three fields, and read otherwise; the fields read are all there are exactly when there
   * are not six or more.
   */
  lemma PieceIff(part: string, prevGenCol: int, c: Carry)
    ensures
      var d := Vlq.Decode(part);
      var r := ReadPiece(part, prevGenCol, c);
      && (r.Blank? <==> part == "")
      && (r.Malformed? <==> d.Err? || 2 <= |d.value| <= 3)
      && (r.Read? ==> FieldCount(r.seg) == (if |d.value| >= 6 then 4 else |d.value|))
      && (r.Read? && |d.value| != 1 && |d.value| != 4 && |d.value| != 5 <==> d.Ok? && |d.value| >= 6)
  {
    Vlq.DecodeAccepts(part);
  }

  /** Fields from the fifth on are ignored when there are six or more: the piece reads like its first four. */
  lemma ExtraFieldsIgnored(part: string, prevGenCol: int, c: Carry)
    requires Vlq.Decode(part).Ok? && |Vlq.Decode(part).value| >= 6
    ensures ReadPiece(part, prevGenCol, c) == ReadPiece(Vlq.Encode(Vlq.Decode(part).value[..4]), prevGenCol, c)
  {
    var v := Vlq.Decode(part).value;
    Vlq.DecodedFits(part);
    Vlq.VlqRoundTrip(v[..4]);
    Vlq.EncodeChars(v[..4]);
    assert Vlq.Decode("") == Prelude.Ok([]);
  }

  /** A printed piece of six fields is accepted and read as its first four. */
  lemma SixFields(v: seq<int>)
    requires |v| == 6 && forall i :: 0 <= i < |v| ==> Vlq.Fits(v[i])
    ensures ReadPiece(Vlq.Encode(v), 0, START) == Read(Mapped(v[0], v[1], v[2], v[3]), Carry(v[1], v[2], v[3], 0))
  {
    Vlq.VlqRoundTrip(v);
    Vlq.EncodeChars(v);
  }

  /** For one: the fields 1 to 6. */
  lemma SixFieldsRead()
    ensures ReadPiece(Vlq.Encode([1, 2, 3, 4, 5, 6]), 0, START) == Read(Mapped(1, 2, 3, 4), Carry(2, 3, 4, 0))
  {
    SixFields([1, 2, 3, 4, 5, 6]);
  }

  // ---------------------------------------------------------------- the printer

  /** The fields a segment is written with: differences from the accumulators. */
  function Deltas(seg: Segment, prevGenCol: int, c: Carry): (ds: seq<int>)
    ensures |ds| == 1 || |ds| == 4 || |ds| == 5
  {
    match seg
    case Unmapped(g) => [g - prevGenCol]
    case Mapped(g, s, l, k) => [g - prevGenCol, s - c.sourceIdx, l - c.origLine, k - c.origCol]
    case Named(g, s, l, k, n) => [g - prevGenCol, s - c.sourceIdx, l - c.origLine, k - c.origCol, n - c.nameIdx]
  }

  function CarryPast(seg: Segment, c: Carry): Carry {
    match seg
    case Unmapped(_) => c
    case Mapped(_, s, l, k) => Carry(s, l, k, c.nameIdx)
    case Named(_, s, l, k, n) => Carry(s, l, k, n)
  }

  function CarryPastLine(segs: Line, c: Carry): Carry {
    if segs == [] then c else CarryPastLine(segs[1..], CarryPast(segs[0], c))
  }

  function PrintSegments(segs: Line, prevGenCol: int, c: Carry): (parts: seq<string>)
    ensures |parts| == |segs|
  {
    if segs == [] then []
    else [Vlq.Encode(Deltas(segs[0], prevGenCol, c))]
         + PrintSegments(segs[1..], segs[0].genCol, CarryPast(segs[0], c))
  }

  function PrintLines(lines: seq<Line>, c: Carry): (parts: seq<string>)
    ensures |parts| == |lines|
  {
    if lines == [] then []
    else [Join(PrintSegments(lines[0], 0, c), ',')] + PrintLines(lines[1..], CarryPastLine(lines[0], c))
  }

  /** The `mappings` text of the given lines. */
  function PrintMappings(lines: seq<Line>): string { Join(PrintLines(lines, START), ';') }

  predicate AllFit(ds: seq<int>) { forall i :: 0 <= i < |ds| ==> Vlq.Fits(ds[i]) }

  predicate LineFits(segs: Line, prevGenCol: int, c: Carry) {
    segs == [] || (AllFit(Deltas(segs[0], prevGenCol, c))
                   && LineFits(segs[1..], segs[0].genCol, CarryPast(segs[0], c)))
  }

  predicate LinesFit(lines: seq<Line>, c: Carry) {
    lines == [] || (LineFits(lines[0], 0, c) && LinesFit(lines[1..], CarryPastLine(lines[0], c)))
  }

  // ---------------------------------------------------------------- the round trip

  lemma OneSegment(seg: Segment, prevGenCol: int, c: Carry)
    ensures
      var ws := Vlq.WrappedAll(Deltas(seg, prevGenCol, c));
      var r := ApplyFields(ws, prevGenCol + ws[0], c);
      && r.Some?
      && (r.value.0 == seg <==> AllFit(Deltas(seg, prevGenCol, c)))
      && (r.value.0 == seg ==> r.value.1 == CarryPast(seg, c) && prevGenCol + ws[0] == seg.genCol)
  {
    var ds := Deltas(seg, prevGenCol, c);
    forall i | 0 <= i < |ds|
      ensures Vlq.WrappedAll(ds)[i] == ds[i] <==> Vlq.Fits(ds[i])
    {
      Vlq.WrappedIff(ds[i]);
    }
  }

  /** What parsing printed segments must give: the segments and the carry behind them exactly when every delta fits. */
  ghost predicate SegmentsBack(r: Option<(Line, Carry)>, segs: Line, prevGenCol: int, c: Carry) {
    if LineFits(segs, prevGenCol, c) then r == Some((segs, CarryPastLine(segs, c)))
    else r.Some? ==> r.value.0 != segs
  }

  /** One printed piece in front of others. */
  lemma FirstSegment(seg: Segment, prevGenCol: int, c: Carry, rest: seq<string>)
    ensures
      var ds := Deltas(seg, prevGenCol, c);
      var r := ParseSegments([Vlq.Encode(ds)] + rest, prevGenCol, c);
      if AllFit(ds) then r == Prepend([seg], ParseSegments(rest, seg.genCol, CarryPast(seg, c)))
      else r.Some? ==> r.value.0 != [] && r.value.0[0] != seg
  {
    var ds := Deltas(seg, prevGenCol, c);
    Vlq.DecodeEncoded(ds);
    Vlq.EncodeChars(ds);
    OneSegment(seg, prevGenCol, c);
    assert ([Vlq.Encode(ds)] + rest)[1..] == rest;
  }

  lemma {:induction false} SegmentsRoundTrip(segs: Line, prevGenCol: int, c: Carry)
    ensures SegmentsBack(ParseSegments(PrintSegments(segs, prevGenCol, c), prevGenCol, c), segs, prevGenCol, c)
  {
    if segs != [] {
      var seg, more := segs[0], segs[1..];
      var rest := PrintSegments(more, seg.genCol, CarryPast(seg, c));
      FirstSegment(seg, prevGenCol, c, rest);
      SegmentsRoundTrip(more, seg.genCol, CarryPast(seg, c));
      assert segs == [seg] + more;
    }
  }

  /** A printed piece: not empty, and free of both separators. */
  predicate Clean(part: string) { part != "" && ',' !in part && ';' !in part }

  lemma PrintedPieceIsClean(ds: seq<int>)
    requires ds != []
    ensures Clean(Vlq.Encode(ds))
  {
    Vlq.EncodeChars(ds);
    assert !Vlq.IsDigitChar(',') && !Vlq.IsDigitChar(';');
  }

  lemma {:induction false} PrintedSegmentsAreClean(segs: Line, prevGenCol: int, c: Carry)
    ensures
      var parts := PrintSegments(segs, prevGenCol, c);
      forall i :: 0 <= i < |parts| ==> Clean(parts[i])
  {
    if segs != [] {
      PrintedPieceIsClean(Deltas(segs[0], prevGenCol, c));
      PrintedSegmentsAreClean(segs[1..], segs[0].genCol, CarryPast(segs[0], c));
      var parts := PrintSegments(segs, prevGenCol, c);
      forall i | 0 <= i < |parts|
        ensures Clean(parts[i])
      {
        if i > 0 {
          assert parts[i] == PrintSegments(segs[1..], segs[0].genCol, CarryPast(segs[0], c))[i - 1];
        }
      }
    }
  }

  lemma {:induction false} JoinChars(parts: seq<string>, sep: char, ch: char)
    requires ch != sep && forall i :: 0 <= i < |parts| ==> ch !in parts[i]
    ensures ch !in Join(parts, sep)
  {
    if |parts| > 1 {
      JoinChars(parts[1..], sep, ch);
    }
  }

  lemma LineRoundTrip(segs: Line, c: Carry)
    ensures
      var r := ParseLine(Join(PrintSegments(segs, 0, c), ','), c);
      if LineFits(segs, 0, c) then r == Some((segs, CarryPastLine(segs, c)))
      else r.Some? ==> r.value.0 != segs
    ensures ';' !in Join(PrintSegments(segs, 0, c), ',')
  {
    var parts := PrintSegments(segs, 0, c);
    PrintedSegmentsAreClean(segs, 0, c);
    forall i | 0 <= i < |parts|
      ensures ';' !in parts[i] && ',' !in parts[i]
    {
      assert Clean(parts[i]);
    }
    JoinChars(parts, ',', ';');
    if segs != [] {
      SplitJoin(parts, ',');
      SegmentsRoundTrip(segs, 0, c);
      assert Join(parts, ',') != "" by {
        assert Clean(parts[0]);
      }
    }
  }

  /** One printed line in front of others. */
  lemma FirstLine(line: Line, c: Carry, rest: seq<string>)
    ensures
      var r := ParseLines([Join(PrintSegments(line, 0, c), ',')] + rest, c);
      if LineFits(line, 0, c) then r == PrependLines([line], ParseLines(rest, CarryPastLine(line, c)))
      else r.Some? ==> r.value != [] && r.value[0] != line
  {
    var text := Join(PrintSegments(line, 0, c), ',');
    LineRoundTrip(line, c);
    assert ([text] + rest)[0] == text && ([text] + rest)[1..] == rest;
  }

  lemma {:induction false} LinesRoundTrip(lines: seq<Line>, c: Carry)
    ensures ParseLines(PrintLines(lines, c), c) == Some(lines) <==> LinesFit(lines, c)
    ensures forall i :: 0 <= i < |lines| ==> ';' !in PrintLines(lines, c)[i]
  {
    if lines != [] {
      var line, more := lines[0], lines[1..];
      var rest := PrintLines(more, CarryPastLine(line, c));
      LineRoundTrip(line, c);
      FirstLine(line, c, rest);
      LinesRoundTrip(more, CarryPastLine(line, c));
      assert lines == [line] + more;
      var tail := ParseLines(rest, CarryPastLine(line, c));
      assert tail.Some? ==> ([line] + tail.value)[1..] == tail.value;
    }
  }

  /** Parsing the printed mappings gives the lines back exactly when there is a line and every delta is below 2^31. */
  lemma MappingsRoundTrip(lines: seq<Line>)
    ensures ParseMappings(PrintMappings(lines)) == Some(lines) <==> lines != [] && LinesFit(lines, START)
  {
    LinesRoundTrip(lines, START);
    if lines == [] {
      assert Split("", ';') == [""];
      assert ParseLine("", START) == Some(([], START));
      var none: seq<string> := [""][1..];
      assert none == [];
      assert |PrependLines([[]], ParseLines(none, START)).value| == 1;
    } else {
      SplitJoin(PrintLines(lines, START), ';');
    }
  }

  function JsonStrings(ss: seq<string>): Json {
    JArr(seq(|ss|, i requires 0 <= i < |ss| => JStr(ss[i])))
  }

  /** The JSON document of a map. */
  function PrintSourceMap(m: ParsedMap): Json {
    JObj(map["version" := JNum(3.0), "sources" := JsonStrings(m.sources),
             "names" := JsonStrings(m.names), "mappings" := JStr(PrintMappings(m.lines))])
  }

  /** `parseSourceMap` inverts printing, on every map with a line whose deltas all fit, and on no other. */
  lemma SourceMapRoundTrip(m: ParsedMap)
    ensures ParseSourceMap(PrintSourceMap(m)) == Some(m) <==> m.lines != [] && LinesFit(m.lines, START)
  {
    var raw := PrintSourceMap(m);
    MappingsRoundTrip(m.lines);
    assert Field(raw.fields, "sources") == Some(JsonStrings(m.sources));
    assert Field(raw.fields, "names") == Some(JsonStrings(m.names));
    assert Strings(Some(JsonStrings(m.sources))) == m.sources;
    assert Strings(Some(JsonStrings(m.names))) == m.names;
  }

  // ---------------------------------------------------------------- when a parsed line is sorted

  predicate InOrder(segs: Line, i: int) { 0 <= i < |segs| - 1 ==> segs[i].genCol <= segs[i + 1].genCol }

  predicate Sorted(segs: Line) { forall i :: 0 <= i < |segs| - 1 ==> InOrder(segs, i) }

  /** The first decoded field of every non-empty piece of a line. */
  function FirstDeltas(parts: seq<string>): seq<int> {
    if parts == [] then []
    else
      (match Vlq.Decode(parts[0])
       case Ok(v) => if v == [] then [] else [v[0]]
       case Err(_) => []) + FirstDeltas(parts[1..])
  }

  /** Segment by segment, the generated column moves by the first field. */
  ghost predicate Steps(segs: Line, prevGenCol: int, ds: seq<int>) {
    if segs == [] then ds == []
    else ds != [] && segs[0].genCol == prevGenCol + ds[0] && Steps(segs[1..], segs[0].genCol, ds[1..])
  }

  lemma {:induction false} FirstDeltasAreSteps(parts: seq<string>, prevGenCol: int, c: Carry)
    requires ParseSegments(parts, prevGenCol, c).Some?
    ensures Steps(ParseSegments(parts, prevGenCol, c).value.0, prevGenCol, FirstDeltas(parts))
  {
    if parts != [] {
      var rest := parts[1..];
      var decoded := Vlq.Decode(parts[0]);
      Vlq.DecodeAccepts(parts[0]);
      if parts[0] == "" {
        assert decoded == Prelude.Ok([]);
        FirstDeltasAreSteps(rest, prevGenCol, c);
        assert FirstDeltas(parts) == FirstDeltas(rest);
      } else {
        var v := decoded.value;
        var genCol := prevGenCol + v[0];
        var seg := ApplyFields(v, genCol, c).value;
        FirstDeltasAreSteps(rest, genCol, seg.1);
        var segs := ParseSegments(parts, prevGenCol, c).value.0;
        assert segs == [seg.0] + ParseSegments(rest, genCol, seg.1).value.0;
        assert segs[1..] == ParseSegments(rest, genCol, seg.1).value.0;
        var ds := FirstDeltas(parts);
        assert ds == [v[0]] + FirstDeltas(rest);
        assert ds[1..] == FirstDeltas(rest);
      }
    }
  }

  lemma {:induction false} StepsAt(segs: Line, prevGenCol: int, ds: seq<int>, i: nat)
    requires Steps(segs, prevGenCol, ds)
    requires i < |segs|
    ensures |ds| == |segs|
    ensures segs[i].genCol == (if i == 0 then prevGenCol else segs[i - 1].genCol) + ds[i]
  {
    if i > 0 {
      StepsAt(segs[1..], segs[0].genCol, ds[1..], i - 1);
    } else if |segs| > 1 {
      StepsAt(segs[1..], segs[0].genCol, ds[1..], 0);
    } else {
      assert segs[1..] == [] && ds[1..] == [];
    }
  }

  /** No first field after the first one is negative. */
  predicate AllForward(ds: seq<int>) { forall i :: 1 <= i < |ds| ==> ds[i] >= 0 }

  lemma {:induction false} StepsSorted(segs: Line, prevGenCol: int, ds: seq<int>)
    requires Steps(segs, prevGenCol, ds)
    ensures |ds| == |segs|
    ensures Sorted(segs) <==> AllForward(ds)
  {
    if segs != [] {
      StepsSorted(segs[1..], segs[0].genCol, ds[1..]);
    }
    if Sorted(segs) {
      forall i | 1 <= i < |ds|
        ensures ds[i] >= 0
      {
        StepsAt(segs, prevGenCol, ds, i);
        assert InOrder(segs, i - 1);
      }
    } else {
      var i :| 0 <= i < |segs| - 1 && !InOrder(segs, i);
      StepsAt(segs, prevGenCol, ds, i + 1);
    }
  }

  /** The parser does not sort: a line comes out sorted exactly when no first field after the first one is negative. */
  lemma SortedIffForward(line: string, c: Carry)
    requires ParseLine(line, c).Some?
    ensures
      var ds := FirstDeltas(Split(line, ','));
      Sorted(ParseLine(line, c).value.0) <==> AllForward(ds)
  {
    var parts := Split(line, ',');
    var ds := FirstDeltas(parts);
    if line == "" {
      assert Vlq.Decode("") == Prelude.Ok([]);
      assert FirstDeltas([""][1..]) == [];
      assert ds == [];
    } else {
      FirstDeltasAreSteps(parts, 0, c);
      var segs := ParseLine(line, c).value.0;
      StepsSorted(segs, 0, ds);
    }
  }

  // ---------------------------------------------------------------- lookup

  /** The last segment that starts at or before `col`, found by looking at each of them from the end. */
  function Scan(segs: Line, col: int): Option<Segment> {
    if segs == [] then None
    else if segs[|segs| - 1].genCol <= col then Some(segs[|segs| - 1])
    else Scan(segs[..|segs| - 1], col)
  }

  /** The scan misses only what starts too late, and stops at the very last segment that does not. */
  lemma {:induction false} ScanIsLast(segs: Line, col: int)
    ensures Scan(segs, col).None? <==> forall i :: 0 <= i < |segs| ==> segs[i].genCol > col
    ensures Scan(segs, col).Some? ==>
      exists i :: 0 <= i < |segs| && segs[i] == Scan(segs, col).value && segs[i].genCol <= col
                  && forall j :: i < j < |segs| ==> segs[j].genCol > col
  {
    if segs != [] && segs[|segs| - 1].genCol > col {
      ScanIsLast(segs[..|segs| - 1], col);
    }
  }

  /** The binary search, from the bounds `lo` and `hi` with `best` so far. */
  function Search(segs: Line, col: int, lo: nat, hi: int, best: Option<Segment>): Option<Segment>
    requires lo <= hi + 1 <= |segs|
    decreases hi - lo + 1
  {
    if lo > hi then best
    else
      var mid := (lo + hi) / 2;
      if segs[mid].genCol <= col then Search(segs, col, mid + 1, hi, Some(segs[mid]))
      else Search(segs, col, lo, mid - 1, best)
  }

  function Find(segs: Line, col: int): Option<Segment> { Search(segs, col, 0, |segs| - 1, None) }

  method FindSegment(segs: Line, col: int) returns (best: Option<Segment>)
    ensures best == Find(segs, col)
    ensures Sorted(segs) ==> best == Scan(segs, col)
  {
    best := None;
    if Sorted(segs) {
      FindIsScan(segs, col);
    }
    if |segs| == 0 {
      return;
    }
    var lo: nat := 0;
    var hi := |segs| - 1;
    while lo <= hi
      invariant lo <= hi + 1 <= |segs|
      invariant Search(segs, col, lo, hi, best) == Find(segs, col)
      decreases hi - lo + 1
    {
      var mid := (lo + hi) / 2;
      if segs[mid].genCol <= col {
        best := Some(segs[mid]);
        lo := mid + 1;
      } else {
        hi := mid - 1;
      }
    }
  }

  lemma {:induction false} SortedPairs(segs: Line, i: nat, j: nat)
    requires Sorted(segs) && i <= j < |segs|
    ensures segs[i].genCol <= segs[j].genCol
  {
    if i < j {
      SortedPairs(segs, i, j - 1);
      assert InOrder(segs, j - 1);
    }
  }

  /** Looking only at a prefix is enough when nothing behind it starts in time. */
  lemma {:induction false} ScanPrefix(segs: Line, col: int, n: nat)
    requires n <= |segs| && forall j :: n <= j < |segs| ==> segs[j].genCol > col
    ensures Scan(segs, col) == Scan(segs[..n], col)
    decreases |segs|
  {
    if n == |segs| {
      assert segs[..n] == segs;
    } else {
      ScanPrefix(segs[..|segs| - 1], col, n);
      assert segs[..|segs| - 1][..n] == segs[..n];
    }
  }

  /** What the search knows between its bounds: everything behind `hi` is too late, `best` stands before `lo`. */
  ghost predicate Narrowed(segs: Line, col: int, lo: nat, hi: int, best: Option<Segment>) {
    && lo <= hi + 1 <= |segs|
    && (forall j :: hi < j < |segs| ==> segs[j].genCol > col)
    && (if lo == 0 then best.None? else best == Some(segs[lo - 1]) && segs[lo - 1].genCol <= col)
  }

  lemma NarrowedToNothing(segs: Line, col: int, lo: nat, hi: int, best: Option<Segment>)
    requires Narrowed(segs, col, lo, hi, best) && lo > hi
    ensures best == Scan(segs, col)
  {
    ScanPrefix(segs, col, lo);
    if lo > 0 {
      assert segs[..lo][lo - 1] == segs[lo - 1];
    }
  }

  lemma NarrowLeft(segs: Line, col: int, lo: nat, hi: int, best: Option<Segment>, mid: nat)
    requires Sorted(segs) && Narrowed(segs, col, lo, hi, best) && lo <= mid <= hi && segs[mid].genCol > col
    ensures Narrowed(segs, col, lo, mid - 1, best)
  {
    forall j | mid <= j < |segs|
      ensures segs[j].genCol > col
    {
      SortedPairs(segs, mid, j);
    }
  }

  lemma NarrowRight(segs: Line, col: int, lo: nat, hi: int, best: Option<Segment>, mid: nat)
    requires Narrowed(segs, col, lo, hi, best) && lo <= mid <= hi && segs[mid].genCol <= col
    ensures Narrowed(segs, col, mid + 1, hi, Some(segs[mid]))
  {}

  lemma SearchStep(segs: Line, col: int, lo: nat, hi: int, best: Option<Segment>, mid: nat)
    requires lo <= hi < |segs| && mid == (lo + hi) / 2
    ensures lo <= mid <= hi
    ensures Search(segs, col, lo, hi, best)
         == if segs[mid].genCol <= col then Search(segs, col, mid + 1, hi, Some(segs[mid]))
           else Search(segs, col, lo, mid - 1, best)
  {}

  lemma {:induction false} SearchIsScan(segs: Line, col: int, lo: nat, hi: int, best: Option<Segment>)
    requires Sorted(segs) && Narrowed(segs, col, lo, hi, best)
    ensures Search(segs, col, lo, hi, best) == Scan(segs, col)
    decreases hi - lo + 1
  {
    if lo > hi {
      NarrowedToNothing(segs, col, lo, hi, best);
    } else {
      var mid: nat := (lo + hi) / 2;
      SearchStep(segs, col, lo, hi, best, mid);
      if segs[mid].genCol <= col {
        NarrowRight(segs, col, lo, hi, best, mid);
        SearchIsScan(segs, col, mid + 1, hi, Some(segs[mid]));
      } else {
        NarrowLeft(segs, col, lo, hi, best, mid);
        SearchIsScan(segs, col, lo, mid - 1, best);
      }
    }
  }

  /** On a sorted line the binary search finds what the scan finds, for every column, ties included. */
  lemma FindIsScan(segs: Line, col: int)
    requires Sorted(segs)
    ensures Find(segs, col) == Scan(segs, col)
  {
    SearchIsScan(segs, col, 0, |segs| - 1, None);
  }

  // ---------------------------------------------------------------- lookup by position, sorted or not

  /** The last position of the range that starts at or before `col`. */
  function LastAt(segs: Line, col: int, lo: nat, hi: int): (r: Option<nat>)
    requires lo <= hi + 1 <= |segs|
    ensures r.Some? ==> lo <= r.value <= hi && segs[r.value].genCol <= col
    ensures r.Some? ==> forall j :: r.value < j <= hi ==> segs[j].genCol > col
    ensures r.None? ==> forall j :: lo <= j <= hi ==> segs[j].genCol > col
    decreases hi - lo + 1
  {
    if lo > hi then None
    else if segs[hi].genCol <= col then Some(hi)
    else LastAt(segs, col, lo, hi - 1)
  }

  /** The position the binary search finds in the range. */
  function SearchAt(segs: Line, col: int, lo: nat, hi: int): (r: Option<nat>)
    requires lo <= hi + 1 <= |segs|
    ensures r.Some? ==> lo <= r.value <= hi && segs[r.value].genCol <= col
    decreases hi - lo + 1
  {
    if lo > hi then None
    else
      var mid := (lo + hi) / 2;
      if segs[mid].genCol <= col then
        var later := SearchAt(segs, col, mid + 1, hi);
        if later.Some? then later else Some(mid)
      else SearchAt(segs, col, lo, mid - 1)
  }

  lemma {:induction false} SearchIsAt(segs: Line, col: int, lo: nat, hi: int, best: Option<Segment>)
    requires lo <= hi + 1 <= |segs|
    ensures Search(segs, col, lo, hi, best)
         == var r := SearchAt(segs, col, lo, hi); if r.Some? then Some(segs[r.value]) else best
    decreases hi - lo + 1
  {
    if lo <= hi {
      var mid: nat := (lo + hi) / 2;
      if segs[mid].genCol <= col {
        SearchIsAt(segs, col, mid + 1, hi, Some(segs[mid]));
      } else {
        SearchIsAt(segs, col, lo, mid - 1, best);
      }
    }
  }

  lemma {:induction false} ScanIsAt(segs: Line, col: int, n: nat)
    requires n <= |segs|
    ensures Scan(segs[..n], col) == var r := LastAt(segs, col, 0, n - 1); if r.Some? then Some(segs[r.value]) else None
  {
    if n > 0 {
      ScanIsAt(segs, col, n - 1);
      assert segs[..n][..n - 1] == segs[..n - 1];
    }
  }

  /** The columns from `low` (if there is one) up to but not including `high` (if there is one). */
  datatype Window = Window(low: Option<int>, high: Option<int>)

  predicate InWindow(col: int, w: Window) {
    (w.low.Some? ==> w.low.value <= col) && (w.high.Some? ==> col < w.high.value)
  }

  function Before(w: Window, g: int): Window {
    w.(high := Some(if w.high.Some? && w.high.value < g then w.high.value else g))
  }

  function From(w: Window, g: int): Window {
    w.(low := Some(if w.low.Some? && w.low.value > g then w.low.value else g))
  }

  lemma WindowSplit(col: int, w: Window, g: int)
    ensures InWindow(col, Before(w, g)) <==> InWindow(col, w) && col < g
    ensures InWindow(col, From(w, g)) <==> InWindow(col, w) && g <= col
  {}

  /** Every segment of the range starts too late for the window. */
  predicate NoneStartsIn(segs: Line, from: nat, hi: int, w: Window)
    requires from <= hi + 1 <= |segs| && w.high.Some?
  {
    forall j :: from <= j <= hi ==> From(w, segs[j].genCol).low.value >= w.high.value
  }

  /**
   * What a line needs, at every midpoint the search can visit with a column of the window: when the
   * search turns left, no later segment of the range may start at or before the column.
   */
  predicate Navigable(segs: Line, lo: nat, hi: int, w: Window)
    requires lo <= hi + 1 <= |segs|
    decreases hi - lo + 1
  {
    lo > hi ||
    var mid: nat := (lo + hi) / 2;
    var left := Before(w, segs[mid].genCol);
    && NoneStartsIn(segs, mid + 1, hi, left)
    && Navigable(segs, lo, mid - 1, left)
    && Navigable(segs, mid + 1, hi, From(w, segs[mid].genCol))
  }

  /** Search and scan find the same position for every column of the window. */
  ghost predicate Agree(segs: Line, lo: nat, hi: int, w: Window)
    requires lo <= hi + 1 <= |segs|
  {
    forall col :: InWindow(col, w) ==> SearchAt(segs, col, lo, hi) == LastAt(segs, col, lo, hi)
  }

  /** The scan of a range, from the scans of its halves. */
  lemma LastAtSplit(segs: Line, col: int, lo: nat, mid: nat, hi: int)
    requires lo <= mid <= hi < |segs|
    ensures
      var later := LastAt(segs, col, mid + 1, hi);
      LastAt(segs, col, lo, hi)
      == if later.Some? then later else if segs[mid].genCol <= col then Some(mid) else LastAt(segs, col, lo, mid - 1)
  {
    var all, later, earlier :=
      LastAt(segs, col, lo, hi), LastAt(segs, col, mid + 1, hi), LastAt(segs, col, lo, mid - 1);
    LastAtUnique(segs, col, lo, hi, all,
      if later.Some? then later else if segs[mid].genCol <= col then Some(mid) else earlier);
  }

  ghost predicate IsLastAt(segs: Line, col: int, lo: nat, hi: int, r: Option<nat>)
    requires lo <= hi + 1 <= |segs|
  {
    match r
    case None => forall j :: lo <= j <= hi ==> segs[j].genCol > col
    case Some(k) => lo <= k <= hi && segs[k].genCol <= col && forall j :: k < j <= hi ==> segs[j].genCol > col
  }

  lemma LastAtUnique(segs: Line, col: int, lo: nat, hi: int, r: Option<nat>, r': Option<nat>)
    requires lo <= hi + 1 <= |segs| && IsLastAt(segs, col, lo, hi, r) && IsLastAt(segs, col, lo, hi, r')
    ensures r == r'
  {}

  /** At one midpoint, for one column. */
  lemma AgreeAtColumn(segs: Line, col: int, lo: nat, hi: int, mid: nat)
    requires lo <= hi < |segs| && mid == (lo + hi) / 2
    ensures lo <= mid <= hi
    ensures SearchAt(segs, col, lo, hi) == LastAt(segs, col, lo, hi)
       <==> if segs[mid].genCol <= col then SearchAt(segs, col, mid + 1, hi) == LastAt(segs, col, mid + 1, hi)
            else
              && LastAt(segs, col, mid + 1, hi).None?
              && SearchAt(segs, col, lo, mid - 1) == LastAt(segs, col, lo, mid - 1)
  {
    LastAtSplit(segs, col, lo, mid, hi);
  }

  /** The scan of a range finds nothing for any column of the window. */
  ghost predicate NoneFound(segs: Line, from: nat, hi: int, w: Window)
    requires from <= hi + 1 <= |segs|
  {
    forall col :: InWindow(col, w) ==> LastAt(segs, col, from, hi).None?
  }

  /** No later segment starts in time for a column of the window, whatever the column. */
  lemma NoneLaterIff(segs: Line, from: nat, hi: int, w: Window)
    requires from <= hi + 1 <= |segs| && w.high.Some?
    ensures NoneStartsIn(segs, from, hi, w) <==> NoneFound(segs, from, hi, w)
  {
    if !NoneStartsIn(segs, from, hi, w) {
      var j :| from <= j <= hi && From(w, segs[j].genCol).low.value < w.high.value;
      var col := From(w, segs[j].genCol).low.value;
      assert InWindow(col, w) && segs[j].genCol <= col;
      assert LastAt(segs, col, from, hi).Some?;
    }
  }

  /** At one midpoint, for the whole window. */
  lemma AgreeAtMid(segs: Line, lo: nat, hi: int, mid: nat, w: Window)
    requires lo <= hi < |segs| && mid == (lo + hi) / 2
    ensures
      var left, right := Before(w, segs[mid].genCol), From(w, segs[mid].genCol);
      && lo <= mid <= hi
      && (Agree(segs, lo, hi, w)
          <==> && NoneFound(segs, mid + 1, hi, left)
               && Agree(segs, lo, mid - 1, left) && Agree(segs, mid + 1, hi, right))
  {
    var left, right := Before(w, segs[mid].genCol), From(w, segs[mid].genCol);
    forall col
      ensures InWindow(col, left) <==> InWindow(col, w) && col < segs[mid].genCol
      ensures InWindow(col, right) <==> InWindow(col, w) && segs[mid].genCol <= col
      ensures SearchAt(segs, col, lo, hi) == LastAt(segs, col, lo, hi)
         <==> if segs[mid].genCol <= col then SearchAt(segs, col, mid + 1, hi) == LastAt(segs, col, mid + 1, hi)
              else
                && LastAt(segs, col, mid + 1, hi).None?
                && SearchAt(segs, col, lo, mid - 1) == LastAt(segs, col, lo, mid - 1)
    {
      WindowSplit(col, w, segs[mid].genCol);
      AgreeAtColumn(segs, col, lo, hi, mid);
    }
  }

  lemma AgreeStep(segs: Line, lo: nat, hi: int, mid: nat, w: Window)
    requires lo <= mid <= hi < |segs| && mid == (lo + hi) / 2
    requires
      var left, right := Before(w, segs[mid].genCol), From(w, segs[mid].genCol);
      && (Agree(segs, lo, mid - 1, left) <==> Navigable(segs, lo, mid - 1, left))
      && (Agree(segs, mid + 1, hi, right) <==> Navigable(segs, mid + 1, hi, right))
    ensures
      var left, right := Before(w, segs[mid].genCol), From(w, segs[mid].genCol);
      Agree(segs, lo, hi, w)
      <==> && NoneStartsIn(segs, mid + 1, hi, left)
           && Navigable(segs, lo, mid - 1, left) && Navigable(segs, mid + 1, hi, right)
  {
    AgreeAtMid(segs, lo, hi, mid, w);
    NoneLaterIff(segs, mid + 1, hi, Before(w, segs[mid].genCol));
  }

  /** Search and scan find the same position for every column of a window exactly when the line is navigable there. */
  lemma {:induction false} AgreeIff(segs: Line, lo: nat, hi: int, w: Window)
    requires lo <= hi + 1 <= |segs|
    ensures Agree(segs, lo, hi, w) <==> Navigable(segs, lo, hi, w)
    decreases hi - lo + 1
  {
    if lo <= hi {
      var mid: nat := (lo + hi) / 2;
      AgreeIff(segs, lo, mid - 1, Before(w, segs[mid].genCol));
      AgreeIff(segs, mid + 1, hi, From(w, segs[mid].genCol));
      AgreeStep(segs, lo, hi, mid, w);
    }
  }

  const ANY_COLUMN: Window := Window(None, None)

  /** The columns `resolveLocation` lets through. */
  const VALID_COLUMNS: Window := Window(Some(0), None)

  /** Search and scan of the whole line find the same position. */
  predicate SameSpot(segs: Line, col: int) {
    SearchAt(segs, col, 0, |segs| - 1) == LastAt(segs, col, 0, |segs| - 1)
  }

  lemma AgreeIsSameSpot(segs: Line, w: Window)
    ensures Agree(segs, 0, |segs| - 1, w) <==> forall col :: InWindow(col, w) ==> SameSpot(segs, col)
  {
    if forall col :: InWindow(col, w) ==> SameSpot(segs, col) {
      forall col | InWindow(col, w)
        ensures SearchAt(segs, col, 0, |segs| - 1) == LastAt(segs, col, 0, |segs| - 1)
      {
        assert SameSpot(segs, col);
      }
    }
  }

  /** By position, search and scan agree on every valid column if and only if the line is navigable there. */
  lemma LookupAgreesIff(segs: Line)
    ensures (forall col :: col >= 0 ==> SameSpot(segs, col)) <==> Navigable(segs, 0, |segs| - 1, VALID_COLUMNS)
  {
    AgreeIff(segs, 0, |segs| - 1, VALID_COLUMNS);
    AgreeIsSameSpot(segs, VALID_COLUMNS);
    assert forall col :: InWindow(col, VALID_COLUMNS) <==> col >= 0;
  }

  /** And on every column at all, in the same way. */
  lemma SearchAgreesIff(segs: Line)
    ensures (forall col :: SameSpot(segs, col)) <==> Navigable(segs, 0, |segs| - 1, ANY_COLUMN)
  {
    AgreeIff(segs, 0, |segs| - 1, ANY_COLUMN);
    AgreeIsSameSpot(segs, ANY_COLUMN);
    assert forall col :: InWindow(col, ANY_COLUMN);
  }

  /** On a navigable line the search finds what the scan finds. */
  lemma NavigableFindsLast(segs: Line, w: Window, col: int)
    requires Navigable(segs, 0, |segs| - 1, w) && InWindow(col, w)
    ensures Find(segs, col) == Scan(segs, col)
  {
    AgreeIff(segs, 0, |segs| - 1, w);
    AgreeIsSameSpot(segs, w);
    assert SameSpot(segs, col);
    SearchIsAt(segs, col, 0, |segs| - 1, None);
    ScanIsAt(segs, col, |segs|);
    assert segs[..|segs|] == segs;
  }

  lemma SortedStartsLater(segs: Line, mid: nat, hi: int, w: Window)
    requires Sorted(segs) && mid <= hi < |segs|
    ensures NoneStartsIn(segs, mid + 1, hi, Before(w, segs[mid].genCol))
  {
    forall j | mid < j <= hi ensures segs[mid].genCol <= segs[j].genCol {
      SortedPairs(segs, mid, j);
    }
  }

  /** Sorted lines are navigable, whatever the columns. */
  lemma {:induction false} SortedIsNavigable(segs: Line, lo: nat, hi: int, w: Window)
    requires Sorted(segs) && lo <= hi + 1 <= |segs|
    ensures Navigable(segs, lo, hi, w)
    decreases hi - lo + 1
  {
    if lo <= hi {
      var mid: nat := (lo + hi) / 2;
      SortedStartsLater(segs, mid, hi, w);
      SortedIsNavigable(segs, lo, mid - 1, Before(w, segs[mid].genCol));
      SortedIsNavigable(segs, mid + 1, hi, From(w, segs[mid].genCol));
    }
  }

  /** Lines need not be sorted to be navigable: a step back is harmless where the search never turns on it. */
  lemma UnsortedYetNavigable(a: int, b: int, c: int)
    requires b < a <= c
    ensures
      var segs := [Unmapped(a), Unmapped(b), Unmapped(c)];
      !Sorted(segs) && Navigable(segs, 0, 2, ANY_COLUMN)
  {
    var segs: Line := [Unmapped(a), Unmapped(b), Unmapped(c)];
    assert !InOrder(segs, 0);
    assert Navigable(segs, 0, 0, Before(ANY_COLUMN, b));
    assert Navigable(segs, 2, 2, From(ANY_COLUMN, b));
  }

  datatype Frame = Frame(source: string, line: int, column: int, name: Option<string>)

  predicate IsInteger(x: real) { x.Floor as real == x }

  /** From the segment of a line to the frame reported for it. */
  function FrameOf(m: ParsedMap, seg: Option<Segment>): Option<Frame> {
    if seg.None? || seg.value.Unmapped? then None
    else
      var s := seg.value;
      if !(0 <= s.sourceIdx < |m.sources|) then None
      else Some(Frame(m.sources[s.sourceIdx], s.origLine + 1, s.origCol,
                      if s.Named? && 0 <= s.nameIdx < |m.names| then Some(m.names[s.nameIdx]) else None))
  }

  /** `resolveLocation` with the segment lookup left open. */
  function ResolveBy(m: ParsedMap, line: real, column: real, find: (Line, int) -> Option<Segment>): Option<Frame> {
    if !IsInteger(line) || line < 1.0 then None
    else if !IsInteger(column) || column < 0.0 then None
    else
      var lineIdx := line.Floor - 1;
      if lineIdx >= |m.lines| then None
      else FrameOf(m, find(m.lines[lineIdx], column.Floor))
  }

  function Resolve(m: ParsedMap, line: real, column: real): Option<Frame> { ResolveBy(m, line, column, Find) }

  method ResolveLocation(m: ParsedMap, line: real, column: real) returns (r: Option<Frame>)
    ensures r == Resolve(m, line, column)
  {
    if !IsInteger(line) || line < 1.0 {
      return None;
    }
    if !IsInteger(column) || column < 0.0 {
      return None;
    }
    var lineIdx := line.Floor - 1;
    if lineIdx >= |m.lines| {
      return None;
    }
    var found := FindSegment(m.lines[lineIdx], column.Floor);
    if found.None? {
      return None;
    }
    var seg := found.value;
    if seg.Unmapped? {
      return None;
    }
    if !(0 <= seg.sourceIdx < |m.sources|) {
      return None;
    }
    var out := Frame(m.sources[seg.sourceIdx], seg.origLine + 1, seg.origCol, None);
    if seg.Named? {
      if 0 <= seg.nameIdx < |m.names| {
        out := out.(name := Some(m.names[seg.nameIdx]));
      }
    }
    r := Some(out);
  }

  /** Printing a map with sorted lines, parsing it and resolving in it is a linear scan of the lines printed. */
  lemma PrintedLookupIsScan(m: ParsedMap, line: real, column: real)
    requires m.lines != [] && LinesFit(m.lines, START)
    requires forall i :: 0 <= i < |m.lines| ==> Sorted(m.lines[i])
    ensures ParseSourceMap(PrintSourceMap(m)).Some?
    ensures Resolve(ParseSourceMap(PrintSourceMap(m)).value, line, column) == ResolveBy(m, line, column, Scan)
  {
    SourceMapRoundTrip(m);
    if IsInteger(line) && line >= 1.0 && line.Floor - 1 < |m.lines| {
      FindIsScan(m.lines[line.Floor - 1], column.Floor);
    }
  }

  /** For any parsed map at all: one sorted line is enough for every lookup on that line. */
  lemma LookupIsScan(raw: Json, line: real, column: real)
    requires ParseSourceMap(raw).Some?
    requires
      var lines := ParseSourceMap(raw).value.lines;
      1 <= line.Floor <= |lines| ==> Sorted(lines[line.Floor - 1])
    ensures
      var m := ParseSourceMap(raw).value;
      Resolve(m, line, column) == ResolveBy(m, line, column, Scan)
  {
    var m := ParseSourceMap(raw).value;
    if IsInteger(line) && line >= 1.0 && line.Floor - 1 < |m.lines| {
      FindIsScan(m.lines[line.Floor - 1], column.Floor);
    }
  }

  /** For any parsed map at all: on a line that is navigable at valid columns every lookup is a linear scan. */
  lemma NavigableLookupIsScan(raw: Json, line: real, column: real)
    requires ParseSourceMap(raw).Some?
    requires
      var lines := ParseSourceMap(raw).value.lines;
      1 <= line.Floor <= |lines| ==>
        Navigable(lines[line.Floor - 1], 0, |lines[line.Floor - 1]| - 1, VALID_COLUMNS)
    ensures
      var m := ParseSourceMap(raw).value;
      Resolve(m, line, column) == ResolveBy(m, line, column, Scan)
  {
    var m := ParseSourceMap(raw).value;
    if IsInteger(line) && line >= 1.0 && line.Floor - 1 < |m.lines| && IsInteger(column) && column >= 0.0 {
      NavigableFindsLast(m.lines[line.Floor - 1], VALID_COLUMNS, column.Floor);
    }
  }

  /**
   * A line that parses and is not navigable: its second segment steps back from column `a` to column
   * `b`, and the search at column `b` misses that segment.
   */
  lemma UnsortedLineIsMissed(a: int, b: int)
    requires 0 <= b < a && Vlq.Fits(a)
    ensures
      var segs := [Unmapped(a), Unmapped(b)];
      && ParseMappings(PrintMappings([segs])) == Some([segs])
      && !Navigable(segs, 0, 1, VALID_COLUMNS)
      && Find(segs, b) == None
      && Scan(segs, b) == Some(segs[1])
  {
    var segs: Line := [Unmapped(a), Unmapped(b)];
    var lines: seq<Line> := [segs];
    var none: Line := segs[1..][1..];
    assert none == [];
    assert LineFits(segs[1..], a, START);
    assert LineFits(segs, 0, START);
    assert |lines[1..]| == 0;
    MappingsRoundTrip(lines);
    assert Search(segs, b, 0, -1, None) == None;
    if Navigable(segs, 0, 1, VALID_COLUMNS) {
      NavigableFindsLast(segs, VALID_COLUMNS, b);
    }
  }
}
