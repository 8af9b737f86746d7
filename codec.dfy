/** The small text formats the engine writes into its tag blobs and reads
    back from the evaluator's output: the `s:r:c` coordinates of a static
    record (`extractSRC`), the `##s:r:c##text` static record itself, the
    `##begin:s/r` block header, and the `text<<col>>` cell assignments of a
    range line (`parseRangeLine`). */
module Codec {
  import opened Outcomes
  import opened GoStrings

  /** tagSeparator: the marker between two lines of a blob. */
  const TagSeparator: string := "$$^~^$$"

  // ---------------------------------------------------------------------
  // extractSRC

  /** `str` holds a colon, and another one after it. */
  predicate HasTwoColons(str: string) {
    Contains(str, ":") && Contains(str[Index(str, ":") + 1..], ":")
  }

  /** extractSRC: "s:r:c" into three integers. Input with fewer than two
      colons is rejected as such; otherwise each of the three parts, the
      last one being the whole remainder, must be an integer. */
  function ExtractSRC(str: string): (r: Result<(int, int, int)>)
    ensures r == Err(BadCoordinates) <==> !HasTwoColons(str)
    ensures r.Err? ==> r.error == BadCoordinates || r.error.NotAnInteger?
    ensures r.Ok? ==>
      MinInt64 <= r.value.0 <= MaxInt64 && MinInt64 <= r.value.1 <= MaxInt64 &&
      MinInt64 <= r.value.2 <= MaxInt64
  {
    var val := SplitN(str, ":", 3);
    assert |val| == 3 <==> HasTwoColons(str) by {
      var i := Index(str, ":");
      if i >= 0 {
        assert val == [str[..i]] + SplitN(str[i + 1..], ":", 2);
      }
    }
    if |val| != 3 then Err(BadCoordinates)
    else
      match Atoi(val[0])
      case Err(e) => Err(e)
      case Ok(s) =>
        match Atoi(val[1])
        case Err(e) => Err(e)
        case Ok(row) =>
          match Atoi(val[2])
          case Err(e) => Err(e)
          case Ok(c) => Ok((s, row, c))
  }

  /** The text renderStatic writes for a cell position: fmt's "%d:%d:%d". */
  function Coordinates(s: nat, r: nat, c: nat): string {
    Decimal(s) + ":" + Decimal(r) + ":" + Decimal(c)
  }

  /** extractSRC reads back the position renderStatic printed. */
  lemma ExtractSRCRoundTrip(s: nat, r: nat, c: nat)
    requires s <= MaxInt64 && r <= MaxInt64 && c <= MaxInt64
    ensures ExtractSRC(Coordinates(s, r, c)) == Ok((s, r, c))
  {
    SplitNThree(Decimal(s), Decimal(r), Decimal(c));
    DecimalRoundTrip(s);
    DecimalRoundTrip(r);
    DecimalRoundTrip(c);
  }

  /** With the colons in place, the first part that is no integer is the
      error extractSRC reports, in the order sheet, row, column. */
  lemma ExtractSRCRejects(a: string, b: string, c: string)
    requires Lacks(a, ':') && Lacks(b, ':')
    ensures Atoi(a).Err? ==> ExtractSRC(a + ":" + b + ":" + c) == Err(NotAnInteger(a))
    ensures Atoi(a).Ok? && Atoi(b).Err? ==> ExtractSRC(a + ":" + b + ":" + c) == Err(NotAnInteger(b))
    ensures Atoi(a).Ok? && Atoi(b).Ok? && Atoi(c).Err? ==>
      ExtractSRC(a + ":" + b + ":" + c) == Err(NotAnInteger(c))
  {
    SplitNThree(a, b, c);
  }

  /** With the colons in place and all three parts integers, extractSRC
      returns those integers, the last part being everything after the
      second colon. */
  lemma ExtractSRCAccepts(a: string, b: string, c: string)
    requires Lacks(a, ':') && Lacks(b, ':')
    requires Atoi(a).Ok? && Atoi(b).Ok? && Atoi(c).Ok?
    ensures ExtractSRC(a + ":" + b + ":" + c) == Ok((Atoi(a).value, Atoi(b).value, Atoi(c).value))
  {
    SplitNThree(a, b, c);
  }

  // ---------------------------------------------------------------------
  // The static record "##s:r:c##text"

  datatype StaticLine =
    | Skip                                                  // not a record
    | Store(sheet: int, row: int, col: int, text: string)   // setValue(s, r, c, text)

  /** The record renderStatic writes for the placeholder `text` at (s, r, c). */
  function StaticRecord(s: nat, r: nat, c: nat, text: string): string {
    "##" + Coordinates(s, r, c) + "##" + text
  }

  /** How renderStatic reads one evaluated line: a line without the leading
      "##" is skipped; otherwise the closing "##" must follow, the
      coordinates before it must parse, and the text after it is what the
      cell receives. */
  function ParseStaticLine(line: string): (r: Result<StaticLine>)
    ensures !HasPrefix(line, "##") ==> r == Ok(Skip)
    ensures HasPrefix(line, "##") && !Contains(line[2..], "##") ==> r == Err(MissingClosingHashes)
    ensures r.Ok? && r.value.Store? ==>
      var body := line[2..];
      var k := Index(body, "##");
      HasPrefix(line, "##") && k >= 0 &&
      ExtractSRC(body[..k]) == Ok((r.value.sheet, r.value.row, r.value.col)) &&
      line == "##" + body[..k] + "##" + r.value.text
  {
    if !HasPrefix(line, "##") then Ok(Skip)
    else
      var body := line[2..];
      var k := Index(body, "##");
      if k < 0 then Err(MissingClosingHashes)
      else
        assert line == "##" + body[..k] + "##" + body[k + 2..] by {
          Reassemble(body, "##", k);
          assert line == line[..2] + body;
        }
        match ExtractSRC(body[..k])
        case Err(e) => Err(e)
        case Ok(src) => Ok(Store(src.0, src.1, src.2, body[k + 2..]))
  }

  /** Every record renderStatic writes is read back as the same position and
      text, whatever the text holds. */
  lemma StaticRecordRoundTrip(s: nat, r: nat, c: nat, text: string)
    requires s <= MaxInt64 && r <= MaxInt64 && c <= MaxInt64
    ensures ParseStaticLine(StaticRecord(s, r, c, text)) == Ok(Store(s, r, c, text))
  {
    var coords := Coordinates(s, r, c);
    var line := StaticRecord(s, r, c, text);
    assert line[..2] == "##";
    assert line[2..] == coords + "##" + text;
    IndexAfter(coords, "##", text, 0);
    assert (coords + "##" + text)[..|coords|] == coords;
    assert (coords + "##" + text)[|coords| + 2..] == text;
    ExtractSRCRoundTrip(s, r, c);
  }

  // ---------------------------------------------------------------------
  // The block header "##begin:s/r"

  const BeginPrefix: string := "##begin:"

  /** The header renderRange writes before a range row: fmt's "##begin:%d/%d". */
  function BeginLine(s: nat, r: nat): string {
    BeginPrefix + Decimal(s) + "/" + Decimal(r)
  }

  /** How the reconciliation loop reads a header: the text after the prefix
      is split at "/"; the sheet must parse, a second part must exist (Go
      indexes it unchecked), and the row must parse. */
  function ParseBegin(line: string): (r: Result<(int, int)>)
    requires HasPrefix(line, BeginPrefix)
    ensures r.Ok? ==> MinInt64 <= r.value.0 <= MaxInt64 && MinInt64 <= r.value.1 <= MaxInt64
    ensures r.Err? ==> r.error == Panic || r.error.NotAnInteger?
    ensures Lacks(line[8..], '/') ==> r.Err?
  {
    var tmp := Split(line[8..], "/");
    match Atoi(tmp[0])
    case Err(e) => Err(e)
    case Ok(s) =>
      if |tmp| < 2 then Err(Panic)
      else
        match Atoi(tmp[1])
        case Err(e) => Err(e)
        case Ok(row) => Ok((s, row))
  }

  /** The header the scanner writes is read back as the same sheet and row. */
  lemma BeginRoundTrip(s: nat, r: nat)
    requires s <= MaxInt64 && r <= MaxInt64
    ensures HasPrefix(BeginLine(s, r), BeginPrefix)
    ensures ParseBegin(BeginLine(s, r)) == Ok((s, r))
  {
    var line := BeginLine(s, r);
    assert line[..8] == BeginPrefix;
    assert line[8..] == Decimal(s) + "/" + Decimal(r);
    SplitTwo(Decimal(s), "/", Decimal(r));
    DecimalRoundTrip(s);
    DecimalRoundTrip(r);
  }

  // ---------------------------------------------------------------------
  // parseRangeLine: "t0<<c0>>t1<<c1>>..."

  /** Where the column of an assignment whose "<<" is at ib ends: as
      written, at the first ">>" of the remaining text; as intended, at the
      first ">>" after the "<<". */
  function CloseAt(layout: Layout, s: string, ib: nat): (ie: int)
    ensures ie == -1 || (0 <= ie && ie + 2 <= |s| && s[ie..ie + 2] == ">>")
    ensures layout == Intended && ie >= 0 ==> ie >= ib + 2
  {
    match layout
    case AsWritten => Index(s, ">>")
    case Intended => IndexFrom(s, ">>", ib + 2)
  }

  /** The map parseRangeLine builds from `s`, starting from `m`: while a
      "<<" remains, the text before it is stored under the column between it
      and its closing ">>" (CloseAt), and the scan resumes after that ">>". */
  function Assign(layout: Layout, s: string, m: map<int, string>): (r: Result<map<int, string>>)
    decreases |s|, 1
    ensures !Contains(s, "<<") ==> r == Ok(m)
    ensures r.Ok? ==> m.Keys <= r.value.Keys
    ensures r.Err? ==> r.error == Panic
  {
    var ib := Index(s, "<<");
    if ib < 0 then Ok(m) else AssignAt(layout, s, m, ib, CloseAt(layout, s, ib))
  }

  /** One assignment, the "<<" at ib and the ">>" at ie: a ">>" missing or
      before the column makes the slice panic, and so does a column that is
      no integer (`panic(err)`). */
  function AssignAt(layout: Layout, s: string, m: map<int, string>, ib: nat, ie: int): (r: Result<map<int, string>>)
    requires ib + 2 <= |s| && ie + 2 <= |s|
    decreases |s|, 0
    ensures r.Ok? ==> m.Keys <= r.value.Keys
    ensures r.Err? ==> r.error == Panic
  {
    if ie < ib + 2 then Err(Panic)
    else
      match Atoi(s[ib + 2..ie])
      case Err(_) => Err(Panic)
      case Ok(c) => Assign(layout, s[ie + 2..], m[c := s[..ib]])
  }

  /** parseRangeLine (rbuilder.go:392-421), reassigning the remaining text
      as the Go loop does. */
  method ParseRangeLine(line: string, layout: Layout) returns (res: Result<map<int, string>>)
    ensures res == Assign(layout, line, map[])
  {
    var m: map<int, string> := map[];
    var s := line;
    while true
      invariant Assign(layout, line, map[]) == Assign(layout, s, m)
      decreases |s|
    {
      var ib := Index(s, "<<");
      if ib < 0 {
        break;
      }
      var ie := if layout == AsWritten then Index(s, ">>") else IndexFrom(s, ">>", ib + 2);
      assert Assign(layout, s, m) == AssignAt(layout, s, m, ib, ie);
      if ie < ib + 2 {
        return Err(Panic);
      }
      var parsed := Atoi(s[ib + 2..ie]);
      if parsed.Err? {
        return Err(Panic);
      }
      m := m[parsed.value := s[..ib]];
      s := s[ie + 2..];
    }
    res := Ok(m);
  }

  /** One cell assignment of a range line: text `text` for column `col`. */
  datatype Entry = Entry(text: string, col: nat)

  /** What the scanner writes for a placeholder `text` in column `col`:
      fmt's "%s<<%d>>". */
  function Assignment(text: string, col: nat): string {
    text + "<<" + Decimal(col) + ">>"
  }

  /** The range line the scanner writes for a row: one assignment per
      placeholder cell. */
  function EncodeEntries(es: seq<Entry>): string {
    if es == [] then "" else Assignment(es[0].text, es[0].col) + EncodeEntries(es[1..])
  }

  /** The map the assignments build, a later column overriding an earlier one. */
  function Collect(es: seq<Entry>, m: map<int, string>): map<int, string> {
    if es == [] then m else Collect(es[1..], m[es[0].col := es[0].text])
  }

  /** Text that reads back as itself: as written, neither '<' nor '>' may
      occur in it; as intended, only '<' may not. */
  predicate Readable(layout: Layout, text: string) {
    Lacks(text, '<') && (layout == AsWritten ==> Lacks(text, '>'))
  }

  /** Reading one assignment `text<<d>>` whose column d parses: the text
      goes to that column and the scan resumes right after the ">>". */
  lemma AssignPiece(layout: Layout, text: string, d: string, rest: string, m: map<int, string>, c: int)
    requires Readable(layout, text) && Lacks(d, '>') && Atoi(d) == Ok(c)
    ensures Assign(layout, text + "<<" + d + ">>" + rest, m) == Assign(layout, rest, m[c := text])
  {
    var s := text + "<<" + d + ">>" + rest;
    assert s == text + "<<" + (d + ">>" + rest);
    IndexAfter(text, "<<", d + ">>" + rest, 0);
    var pre := text + "<<" + d;
    assert s == pre + ">>" + rest;
    if layout == AsWritten {
      IndexAfter(pre, ">>", rest, 0);
    } else {
      IndexAfter(pre, ">>", rest, |text| + 2);
    }
    assert s[|text| + 2..|pre|] == d;
    assert s[..|text|] == text;
    assert s[|pre| + 2..] == rest;
    assert Assign(layout, s, m) == AssignAt(layout, s, m, |text|, |pre|);
  }

  /** Reading one entry: its text goes to its column and the scan resumes
      right after it. */
  lemma AssignEntry(layout: Layout, e: Entry, rest: string, m: map<int, string>)
    requires Readable(layout, e.text) && e.col <= MaxInt64
    ensures Assign(layout, Assignment(e.text, e.col) + rest, m) == Assign(layout, rest, m[e.col := e.text])
  {
    DecimalRoundTrip(e.col);
    AssignPiece(layout, e.text, Decimal(e.col), rest, m, e.col);
  }

  /** parseRangeLine reads back every assignment of an encoded range line
      whose texts are readable, whatever trailing text holds no "<<". */
  lemma {:induction false} AssignRoundTrip(layout: Layout, es: seq<Entry>, tail: string, m: map<int, string>)
    requires forall k :: 0 <= k < |es| ==> Readable(layout, es[k].text) && es[k].col <= MaxInt64
    requires !Contains(tail, "<<")
    ensures Assign(layout, EncodeEntries(es) + tail, m) == Ok(Collect(es, m))
    decreases |es|
  {
    if es != [] {
      var e := es[0];
      assert EncodeEntries(es) + tail == Assignment(e.text, e.col) + (EncodeEntries(es[1..]) + tail);
      AssignEntry(layout, e, EncodeEntries(es[1..]) + tail, m);
      AssignRoundTrip(layout, es[1..], tail, m[e.col := e.text]);
    } else {
      assert EncodeEntries(es) + tail == tail;
    }
  }

  /** A cell "{{.A}}>>" (a merge end marker in a range row) evaluated to
      "a" gives the line "a>><<0>>": the code as written slices s[5:1] and
      panics, where the intended reading assigns "a>>" to column 0. */
  lemma EndMarkerInRangeRowPanics()
    ensures Assign(AsWritten, "a>><<0>>", map[]) == Err(Panic)
    ensures Assign(Intended, "a>><<0>>", map[]) == Ok(map[0 := "a>>"])
  {
    var s := "a>><<0>>";
    var e := Entry("a>>", 0);
    assert Decimal(0) == "0";
    assert s == Assignment(e.text, e.col) + "";
    assert s[0..2] == "a>";
    assert s[1..3] == ">>";
    assert s[2..4] == "><";
    assert s[3..5] == "<<";
    assert Index(s, "<<") == 3;
    assert Index(s, ">>") == 1;
    assert Assign(AsWritten, s, map[]) == AssignAt(AsWritten, s, map[], 3, 1);
    AssignEntry(Intended, e, "", map[]);
  }
}
