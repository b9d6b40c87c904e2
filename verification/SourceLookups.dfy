/** Source maps seen from outside: which documents parse and to what, and which frame a location resolves to. */
module SourceLookups {
  import opened Prelude
  import opened SourceMap

  // ---------------------------------------------------------------- documents

  /** The value is an array of exactly these strings. */
  predicate Lists(v: Json, ss: seq<string>) {
    v.JArr? && |v.items| == |ss| && forall i :: 0 <= i < |ss| ==> v.items[i] == JStr(ss[i])
  }

  /** The fields of a version 3 document, and the map they stand for. Names that are not all strings count as none. */
  ghost predicate Describes(fields: map<string, Json>, m: ParsedMap) {
    && "version" in fields && fields["version"] == JNum(3.0)
    && "sources" in fields && Lists(fields["sources"], m.sources)
    && "mappings" in fields && fields["mappings"].JStr? && ParseMappings(fields["mappings"].s) == Some(m.lines)
    && (if "names" in fields && exists ss :: Lists(fields["names"], ss) then Lists(fields["names"], m.names)
        else m.names == [])
  }

  lemma StringsListed(v: Option<Json>)
    ensures IsStringArray(v) ==> Lists(v.value, Strings(v))
    ensures v.Some? ==> (IsStringArray(v) <==> exists ss :: Lists(v.value, ss))
    ensures IsStringArray(v) ==> forall ss :: Lists(v.value, ss) ==> ss == Strings(v)
  {
    if IsStringArray(v) {
      assert Lists(v.value, Strings(v));
      forall ss | Lists(v.value, ss) ensures ss == Strings(v) {
        forall i | 0 <= i < |ss| ensures ss[i] == Strings(v)[i] {
          assert v.value.items[i] == JStr(ss[i]);
        }
      }
    }
    if v.Some? {
      if ss :| Lists(v.value, ss) {
        forall i | 0 <= i < |v.value.items| ensures v.value.items[i].JStr? {
          assert v.value.items[i] == JStr(ss[i]);
        }
      }
    }
  }

  /** A document parses exactly when it has the fields of a version 3 map, and then to the map they describe. */
  lemma ParsesIff(raw: Json, m: ParsedMap)
    ensures ParseSourceMap(raw) == Some(m) <==> raw.JObj? && Describes(raw.fields, m)
  {
    if raw.JObj? {
      var sources, names := Field(raw.fields, "sources"), Field(raw.fields, "names");
      StringsListed(sources);
      StringsListed(names);
      if Describes(raw.fields, m) {
        assert Strings(sources) == m.sources;
        assert IsStringArray(names) ==> Strings(names) == m.names;
      }
      if ParseSourceMap(raw) == Some(m) {
        assert Lists(raw.fields["sources"], m.sources);
        assert IsStringArray(names) ==> Lists(raw.fields["names"], m.names);
      }
    }
  }

  // ---------------------------------------------------------------- lookups

  /** The last segment that starts at or before the column. */
  predicate LastUpTo(segs: Line, col: int, i: nat) {
    && i < |segs| && segs[i].genCol <= col
    && forall j :: i < j < |segs| ==> segs[j].genCol > col
  }

  /** The frame says where the segment comes from: its source, counted lines
   * from 1, its column, and its name if it has one. */
  predicate Tells(m: ParsedMap, seg: Segment, f: Frame) {
    match seg
    case Unmapped(_) => false
    case Mapped(_, source, line, column) =>
      && 0 <= source < |m.sources| && f.source == m.sources[source]
      && f.line == line + 1 && f.column == column && f.name == None
    case Named(_, source, line, column, name) =>
      && 0 <= source < |m.sources| && f.source == m.sources[source]
      && f.line == line + 1 && f.column == column
      && f.name == if 0 <= name < |m.names| then Some(m.names[name]) else None
  }

  /** The location is that of an integer line from 1 and an integer column from
   * 0, and the frame tells of its segment. */
  ghost predicate Located(m: ParsedMap, line: real, column: real, f: Frame) {
    && line.Floor as real == line && column.Floor as real == column
    && 1 <= line.Floor <= |m.lines| && column.Floor >= 0
    && TellsOf(m, m.lines[line.Floor - 1], column.Floor, f)
  }

  ghost predicate TellsOf(m: ParsedMap, segs: Line, col: int, f: Frame) {
    exists i: nat :: LastUpTo(segs, col, i) && Tells(m, segs[i], f)
  }

  /** On a navigable line the search answers with the last segment that starts at or before the column. */
  lemma FoundIff(segs: Line, col: int, seg: Segment)
    requires Navigable(segs, 0, |segs| - 1, VALID_COLUMNS) && col >= 0
    ensures Find(segs, col) == Some(seg) <==> exists i: nat :: LastUpTo(segs, col, i) && segs[i] == seg
  {
    NavigableFindsLast(segs, VALID_COLUMNS, col);
    ScanIsLast(segs, col);
    if i: nat :| LastUpTo(segs, col, i) && segs[i] == seg {
      var k: nat :| k < |segs| && segs[k] == Scan(segs, col).value && LastUpTo(segs, col, k);
      assert k == i;
    }
  }

  lemma FrameTells(m: ParsedMap, seg: Segment, f: Frame)
    ensures FrameOf(m, Some(seg)) == Some(f) <==> Tells(m, seg, f)
  {}

  lemma FrameFoundIff(m: ParsedMap, segs: Line, col: int, f: Frame)
    requires Navigable(segs, 0, |segs| - 1, VALID_COLUMNS) && col >= 0
    ensures FrameOf(m, Find(segs, col)) == Some(f) <==> TellsOf(m, segs, col, f)
  {
    var found := Find(segs, col);
    if found.Some? {
      FoundIff(segs, col, found.value);
      FrameTells(m, found.value, f);
      var i: nat :| LastUpTo(segs, col, i) && segs[i] == found.value;
      assert forall j: nat :: LastUpTo(segs, col, j) ==> j == i;
    } else if i: nat :| LastUpTo(segs, col, i) {
      FoundIff(segs, col, segs[i]);
    }
  }

  /**
   * A lookup answers with a frame exactly when line and column are integers in range and the last segment of
   * that line starting at or before the column is mapped to a source there is; the frame then tells of it.
   */
  lemma ResolvesIff(m: ParsedMap, line: real, column: real, f: Frame)
    requires 1 <= line.Floor <= |m.lines| ==>
               Navigable(m.lines[line.Floor - 1], 0, |m.lines[line.Floor - 1]| - 1, VALID_COLUMNS)
    ensures Resolve(m, line, column) == Some(f) <==> Located(m, line, column, f)
  {
    if 1 <= line.Floor <= |m.lines| && column.Floor >= 0 {
      FrameFoundIff(m, m.lines[line.Floor - 1], column.Floor, f);
    }
  }

  predicate NeverBack(segs: Line) { forall i, j :: 0 <= i < j < |segs| ==> segs[i].genCol <= segs[j].genCol }

  lemma NeverBackIsNavigable(segs: Line)
    requires NeverBack(segs)
    ensures Navigable(segs, 0, |segs| - 1, VALID_COLUMNS)
  {
    forall i | 0 <= i < |segs| - 1 ensures InOrder(segs, i) {
      assert segs[i].genCol <= segs[i + 1].genCol;
    }
    SortedIsNavigable(segs, 0, |segs| - 1, VALID_COLUMNS);
  }

  /** So for every document that parses, and every location on a line of it whose columns never step back. */
  lemma SortedResolvesIff(raw: Json, line: real, column: real, f: Frame)
    requires ParseSourceMap(raw).Some?
    requires
      var lines := ParseSourceMap(raw).value.lines;
      1 <= line.Floor <= |lines| ==> NeverBack(lines[line.Floor - 1])
    ensures
      var m := ParseSourceMap(raw).value;
      Resolve(m, line, column) == Some(f) <==> Located(m, line, column, f)
  {
    var m := ParseSourceMap(raw).value;
    if 1 <= line.Floor <= |m.lines| {
      NeverBackIsNavigable(m.lines[line.Floor - 1]);
    }
    ResolvesIff(m, line, column, f);
  }
}
