/** Reading the outline of a region from a file in the Osmosis polygon filter
    format: documents made of a title, sections of points, and END lines. */
module PolyFile {
  import opened Coords
  import opened Geometry
  import opened Lines
  import opened Text

  /** The outcome of extracting one number from a stream of characters. */
  datatype Scan = Scan(ok: bool, value: int, rest: string)

  // ---------- one line at a time ----------

  /** The two numbers of a point line, longitude first. A number that cannot be
      read, and whatever follows it, is zero. */
  function ReadPoint(line: string, scan: string -> Scan): Coordinates {
    var lng := scan(line);
    if !lng.ok then Coordinates(0, 0) else
      var lat := scan(lng.rest);
      Coordinates(if lat.ok then lat.value else 0, lng.value)
  }

  predicate IsBlank(line: string) {
    Trim(line) == ""
  }

  datatype Parser = Parser(depth: int, rname: string, output: Ring)

  const START := Parser(0, "", [])

  function ReadLine(p: Parser, line: string, name: string, scan: string -> Scan): Parser {
    if IsBlank(line) then p
    else if !StartsWith(line, " ") then
      if StartsWith(line, "END") then
        var depth := Max(0, p.depth - 1);
        p.(depth := depth, rname := if depth == 0 then "" else p.rname)
      else
        p.(depth := p.depth + 1, rname := if p.depth == 0 then Trim(line) else p.rname)
    else if p.depth == 2 && IEquals(p.rname, name) then
      p.(output := p.output + [ReadPoint(line, scan)])
    else p
  }

  function ReadLines(p: Parser, ls: seq<string>, name: string, scan: string -> Scan): Parser
    decreases |ls|
  {
    if ls == [] then p else ReadLines(ReadLine(p, ls[0], name, scan), ls[1..], name, scan)
  }

  function Polygon(text: string, name: string, scan: string -> Scan): Ring {
    ReadLines(START, AllLines(text), name, scan).output
  }

  // ---------- the reading loop ----------

  method ToPolygon(text: string, name: string, scan: string -> Scan) returns (output: Ring)
    ensures output == Polygon(text, name, scan)
  {
    var rname, depth := "", 0;
    output := [];
    var stream := new TextStream(text);
    ghost var all := ReadLines(START, AllLines(text), name, scan);
    var line := stream.GetLine();
    while !stream.fail
      invariant stream.Valid()
      invariant all == ReadLines(Parser(depth, rname, output),
                                 (if stream.fail then [] else [line]) + AllLines(stream.Rest()), name, scan)
      invariant stream.fail ==> stream.Rest() == ""
      invariant stream.eof ==> stream.Rest() == ""
      decreases |stream.Rest()|, !stream.fail
    {
      ghost var here := Parser(depth, rname, output);
      assert ([line] + AllLines(stream.Rest()))[1..] == AllLines(stream.Rest());
      if Trim(line) != "" {
        if !StartsWith(line, " ") {
          if StartsWith(line, "END") {
            depth := Max(0, depth - 1);
            if depth == 0 {
              rname := "";
            }
          } else {
            if depth == 0 {
              rname := Trim(line);
            }
            depth := depth + 1;
          }
        } else if depth == 2 && IEquals(rname, name) {
          output := output + [ReadPoint(line, scan)];
        }
      }
      assert Parser(depth, rname, output) == ReadLine(here, line, name, scan);
      line := stream.GetLine();
    }
  }

  // ---------- what every file keeps ----------

  /** Depth never goes below zero, surplus END lines included, and outside any
      document no region name is remembered. */
  ghost predicate Sane(p: Parser) {
    p.depth >= 0 && (p.depth == 0 ==> p.rname == "")
  }

  lemma {:induction false} StaysSane(p: Parser, ls: seq<string>, name: string, scan: string -> Scan)
    requires Sane(p)
    ensures Sane(ReadLines(p, ls, name, scan))
    decreases |ls|
  {
    if ls != [] {
      StaysSane(ReadLine(p, ls[0], name, scan), ls[1..], name, scan);
    }
  }

  lemma {:induction false} ReadLinesAppend(p: Parser, a: seq<string>, b: seq<string>, name: string, scan: string -> Scan)
    ensures ReadLines(p, a + b, name, scan) == ReadLines(ReadLines(p, a, name, scan), b, name, scan)
    decreases |a|
  {
    if a == [] {
      assert a + b == b;
    } else {
      assert (a + b)[1..] == a[1..] + b;
      ReadLinesAppend(ReadLine(p, a[0], name, scan), a[1..], b, name, scan);
    }
  }

  /** What was read before only stands in front. */
  lemma {:induction false} OutputAppends(p: Parser, ls: seq<string>, name: string, scan: string -> Scan)
    ensures var fromHere := ReadLines(p.(output := []), ls, name, scan);
            ReadLines(p, ls, name, scan) == fromHere.(output := p.output + fromHere.output)
    decreases |ls|
  {
    if ls != [] {
      var q, r := ReadLine(p, ls[0], name, scan), ReadLine(p.(output := []), ls[0], name, scan);
      OutputAppends(q, ls[1..], name, scan);
      OutputAppends(r, ls[1..], name, scan);
      assert q.output == p.output + r.output;
      assert q.(output := []) == r.(output := []);
    }
  }

  ghost predicate Balanced(ls: seq<string>, name: string, scan: string -> Scan) {
    ReadLines(START, ls, name, scan).depth == 0
  }

  /** After a balanced part the parser starts afresh. */
  lemma BalancedComposes(a: seq<string>, b: seq<string>, name: string, scan: string -> Scan)
    requires Balanced(a, name, scan)
    ensures ReadLines(START, a + b, name, scan).output
            == ReadLines(START, a, name, scan).output + ReadLines(START, b, name, scan).output
    ensures Balanced(a + b, name, scan) <==> Balanced(b, name, scan)
  {
    ReadLinesAppend(START, a, b, name, scan);
    StaysSane(START, a, name, scan);
    OutputAppends(ReadLines(START, a, name, scan), b, name, scan);
  }

  lemma {:induction false} TerminatedAppend(a: string, b: string)
    requires Remainder(a) == ""
    ensures Terminated(a + b) == Terminated(a) + Terminated(b) && Remainder(a + b) == Remainder(b)
  {
    LinesRebuildText(a);
    LinesRebuildText(b);
    LinesAreLines(a);
    LinesAreLines(b);
    UnlinesAppend(Terminated(a), Terminated(b));
    assert a + b == Unlines(Terminated(a) + Terminated(b)) + Remainder(b);
    LinesOfUnlines(Terminated(a) + Terminated(b), Remainder(b));
  }

  lemma AllLinesAppend(a: string, b: string)
    requires Remainder(a) == ""
    ensures AllLines(a + b) == AllLines(a) + AllLines(b)
  {
    TerminatedAppend(a, b);
    Regroup(Terminated(a), Terminated(b), if Remainder(b) == [] then [] else [Remainder(b)]);
  }

  lemma Regroup(a: seq<string>, b: seq<string>, last: seq<string>)
    ensures (a + b) + last == (a + []) + (b + last)
  {
  }

  lemma {:induction false} UnlinesAppend(a: seq<string>, b: seq<string>)
    ensures Unlines(a + b) == Unlines(a) + Unlines(b)
  {
    if a == [] {
      assert a + b == b;
    } else {
      assert (a + b)[1..] == a[1..] + b;
      UnlinesAppend(a[1..], b);
    }
  }

  /** A file whose documents are all closed can be extended by any text. */
  lemma ClosedTextComposes(a: string, b: string, name: string, scan: string -> Scan)
    requires Remainder(a) == "" && Balanced(AllLines(a), name, scan)
    ensures Polygon(a + b, name, scan) == Polygon(a, name, scan) + Polygon(b, name, scan)
  {
    AllLinesAppend(a, b);
    BalancedComposes(AllLines(a), AllLines(b), name, scan);
  }

  function NonBlank(ls: seq<string>): seq<string> {
    if ls == [] then []
    else if IsBlank(ls[0]) then NonBlank(ls[1..])
    else [ls[0]] + NonBlank(ls[1..])
  }

  lemma {:induction false} BlanksAreSkipped(p: Parser, ls: seq<string>, name: string, scan: string -> Scan)
    ensures ReadLines(p, ls, name, scan) == ReadLines(p, NonBlank(ls), name, scan)
    decreases |ls|
  {
    if ls != [] {
      BlanksAreSkipped(ReadLine(p, ls[0], name, scan), ls[1..], name, scan);
      if !IsBlank(ls[0]) {
        assert NonBlank(ls)[1..] == NonBlank(ls[1..]);
      }
    }
  }

  /** Files that differ in blank lines only describe the same polygon. */
  lemma BlankLinesDoNotMatter(a: string, b: string, name: string, scan: string -> Scan)
    requires NonBlank(AllLines(a)) == NonBlank(AllLines(b))
    ensures Polygon(a, name, scan) == Polygon(b, name, scan)
  {
    BlanksAreSkipped(START, AllLines(a), name, scan);
    BlanksAreSkipped(START, AllLines(b), name, scan);
  }

  /** Where a line says nothing: a point outside a section (or in a part nested
      inside one), and an END when everything is closed already. */
  ghost predicate IsNeutral(before: seq<string>, line: string, name: string, scan: string -> Scan) {
    var depth := ReadLines(START, before, name, scan).depth;
    (StartsWith(line, " ") && depth != 2) || (StartsWith(line, "END") && depth == 0)
  }

  /** Such a line can be put in or taken out anywhere. */
  lemma NeutralLinesDoNotMatter(before: seq<string>, line: string, after: seq<string>, name: string, scan: string -> Scan)
    requires IsNeutral(before, line, name, scan)
    ensures ReadLines(START, before + [line] + after, name, scan) == ReadLines(START, before + after, name, scan)
  {
    var p := ReadLines(START, before, name, scan);
    StaysSane(START, before, name, scan);
    NeutralStep(p, line, name, scan);
    ReadLinesAppend(START, before + [line], after, name, scan);
    ReadLinesAppend(START, before, [line], name, scan);
    ReadLinesAppend(START, before, after, name, scan);
  }

  lemma NeutralStep(p: Parser, line: string, name: string, scan: string -> Scan)
    requires Sane(p) && ((StartsWith(line, " ") && p.depth != 2) || (StartsWith(line, "END") && p.depth == 0))
    ensures ReadLines(p, [line], name, scan) == p
  {
    assert ReadLines(p, [line], name, scan) == ReadLine(p, line, name, scan);
    if StartsWith(line, "END") {
      assert line[0] == 'E';
    }
  }

  // ---------- printing ----------

  datatype Section = Section(title: string, points: seq<Coordinates>, end: string)

  datatype Document = Document(title: string, sections: seq<Section>, end: string)

  /** A title line: not mistaken for a point, an END or an empty line. */
  ghost predicate IsTitle(line: string) {
    IsLine(line) && !IsBlank(line) && line != "" && line[0] != ' ' && !("END" <= line)
  }

  /** A closing line: END, and whatever may follow it. */
  ghost predicate IsEnd(line: string) {
    IsLine(line) && |line| >= 3 && line[0] == 'E' && line[1] == 'N' && line[2] == 'D'
  }

  ghost predicate WellFormedSection(s: Section) {
    IsTitle(s.title) && IsEnd(s.end)
  }

  ghost predicate WellFormed(d: Document) {
    IsTitle(d.title) && IsEnd(d.end) && forall s :: s in d.sections ==> WellFormedSection(s)
  }

  function PointLine(p: Coordinates, show: int -> string): string {
    " " + show(p.longitude) + " " + show(p.latitude)
  }

  function PointLines(ps: seq<Coordinates>, show: int -> string): seq<string> {
    seq(|ps|, i requires 0 <= i < |ps| => PointLine(ps[i], show))
  }

  function SectionLines(s: Section, show: int -> string): seq<string> {
    [s.title] + PointLines(s.points, show) + [s.end]
  }

  function AllSectionLines(ss: seq<Section>, show: int -> string): seq<string> {
    if ss == [] then [] else SectionLines(ss[0], show) + AllSectionLines(ss[1..], show)
  }

  function DocumentLines(d: Document, show: int -> string): seq<string> {
    [d.title] + AllSectionLines(d.sections, show) + [d.end]
  }

  function FileLines(ds: seq<Document>, show: int -> string): seq<string> {
    if ds == [] then [] else DocumentLines(ds[0], show) + FileLines(ds[1..], show)
  }

  function SectionPoints(ss: seq<Section>): Ring {
    if ss == [] then [] else ss[0].points + SectionPoints(ss[1..])
  }

  /** The points of every section of every document of that name. */
  function PointsOf(ds: seq<Document>, name: string): Ring {
    if ds == [] then []
    else (if IEquals(Trim(ds[0].title), name) then SectionPoints(ds[0].sections) else []) + PointsOf(ds[1..], name)
  }

  // ---------- printing and reading back ----------

  /** The number format: a printed number after a blank is read back, up to the
      next blank or the end of the line. */
  ghost predicate ReadsBack(show: int -> string, scan: string -> Scan) {
    && (forall n :: IsLine(show(n)) && show(n) != "" && !IsSpace(show(n)[0]))
    && (forall n, rest: string {:trigger scan(" " + show(n) + rest)} ::
          rest == "" || rest[0] == ' ' ==> scan(" " + show(n) + rest) == Scan(true, n, rest))
  }

  lemma PointReadsBack(p: Coordinates, show: int -> string, scan: string -> Scan)
    requires ReadsBack(show, scan)
    ensures ReadPoint(PointLine(p, show), scan) == p
    ensures IsLine(PointLine(p, show)) && !IsBlank(PointLine(p, show)) && StartsWith(PointLine(p, show), " ")
  {
    var line, rest := PointLine(p, show), " " + show(p.latitude);
    assert line == " " + show(p.longitude) + rest;
    assert rest == " " + show(p.latitude) + "";
    assert line[1] == show(p.longitude)[0];
    assert IsLine(show(p.longitude)) && IsLine(show(p.latitude));
    SolidIsNotBlank(line, 1);
  }

  /** A number that cannot be read, and whatever follows it, is zero. */
  lemma UnreadableIsZero(line: string, scan: string -> Scan)
    ensures !scan(line).ok ==> ReadPoint(line, scan) == Coordinates(0, 0)
    ensures scan(line).ok && !scan(scan(line).rest).ok ==> ReadPoint(line, scan) == Coordinates(0, scan(line).value)
  {
  }

  lemma SolidIsNotBlank(s: string, k: nat)
    requires k < |s| && !IsSpace(s[k])
    ensures !IsBlank(s)
  {
    var before, after := TrimMeaning(s);
  }

  lemma {:induction false} PointsReadBack(p: Parser, ps: seq<Coordinates>, name: string, show: int -> string, scan: string -> Scan)
    requires ReadsBack(show, scan) && p.depth == 2
    ensures ReadLines(p, PointLines(ps, show), name, scan)
            == p.(output := p.output + if IEquals(p.rname, name) then ps else [])
    decreases |ps|
  {
    if ps == [] {
      assert p.output + [] == p.output;
    } else {
      PointReadsBack(ps[0], show, scan);
      var next := ReadLine(p, PointLine(ps[0], show), name, scan);
      assert PointLines(ps, show)[1..] == PointLines(ps[1..], show);
      PointsReadBack(next, ps[1..], name, show, scan);
      assert p.output + ps == p.output + [ps[0]] + ps[1..];
    }
  }

  lemma EndCloses(p: Parser, end: string, name: string, scan: string -> Scan)
    requires IsEnd(end)
    ensures ReadLine(p, end, name, scan)
            == p.(depth := if p.depth <= 1 then 0 else p.depth - 1, rname := if p.depth <= 1 then "" else p.rname)
  {
    SolidIsNotBlank(end, 0);
    assert end[..3] == "END";
  }

  lemma SectionReadsBack(p: Parser, s: Section, name: string, show: int -> string, scan: string -> Scan)
    requires ReadsBack(show, scan) && WellFormedSection(s) && p.depth == 1
    ensures ReadLines(p, SectionLines(s, show), name, scan)
            == p.(output := p.output + if IEquals(p.rname, name) then s.points else [])
  {
    var begun := p.(depth := 2);
    assert ReadLine(p, s.title, name, scan) == begun;
    var points := PointLines(s.points, show);
    var read := ReadLines(begun, points, name, scan);
    PointsReadBack(begun, s.points, name, show, scan);
    EndCloses(read, s.end, name, scan);
    assert SectionLines(s, show)[1..] == points + [s.end];
    ReadLinesAppend(begun, points, [s.end], name, scan);
    assert ReadLines(read, [s.end], name, scan) == ReadLine(read, s.end, name, scan);
  }

  lemma {:induction false} PointsAreIgnored(p: Parser, ps: seq<Coordinates>, name: string, show: int -> string, scan: string -> Scan)
    requires p.depth != 2
    ensures ReadLines(p, PointLines(ps, show), name, scan) == p
    decreases |ps|
  {
    if ps != [] {
      assert PointLines(ps, show)[1..] == PointLines(ps[1..], show);
      assert PointLine(ps[0], show)[0] == ' ';
      PointsAreIgnored(p, ps[1..], name, show, scan);
    }
  }

  /** A part nested inside a section, at any depth, says nothing. */
  lemma NestedPartsAreIgnored(p: Parser, s: Section, name: string, show: int -> string, scan: string -> Scan)
    requires WellFormedSection(s) && p.depth >= 2
    ensures ReadLines(p, SectionLines(s, show), name, scan) == p
  {
    var begun := p.(depth := p.depth + 1);
    assert ReadLine(p, s.title, name, scan) == begun;
    var points := PointLines(s.points, show);
    PointsAreIgnored(begun, s.points, name, show, scan);
    EndCloses(begun, s.end, name, scan);
    assert SectionLines(s, show)[1..] == points + [s.end];
    ReadLinesAppend(begun, points, [s.end], name, scan);
    assert ReadLines(begun, [s.end], name, scan) == ReadLine(begun, s.end, name, scan);
  }

  lemma {:induction false} SectionsReadBack(p: Parser, ss: seq<Section>, name: string, show: int -> string, scan: string -> Scan)
    requires ReadsBack(show, scan) && (forall s :: s in ss ==> WellFormedSection(s)) && p.depth == 1
    ensures ReadLines(p, AllSectionLines(ss, show), name, scan)
            == p.(output := p.output + if IEquals(p.rname, name) then SectionPoints(ss) else [])
    decreases |ss|
  {
    if ss == [] {
      assert p.output + [] == p.output;
    } else {
      SectionReadsBack(p, ss[0], name, show, scan);
      var next := ReadLines(p, SectionLines(ss[0], show), name, scan);
      ReadLinesAppend(p, SectionLines(ss[0], show), AllSectionLines(ss[1..], show), name, scan);
      SectionsReadBack(next, ss[1..], name, show, scan);
      assert p.output + SectionPoints(ss) == p.output + ss[0].points + SectionPoints(ss[1..]);
    }
  }

  lemma DocumentReadsBack(d: Document, name: string, show: int -> string, scan: string -> Scan)
    requires ReadsBack(show, scan) && WellFormed(d)
    ensures ReadLines(START, DocumentLines(d, show), name, scan)
            == START.(output := if IEquals(Trim(d.title), name) then SectionPoints(d.sections) else [])
  {
    var begun := Parser(1, Trim(d.title), []);
    assert ReadLine(START, d.title, name, scan) == begun;
    var sections := AllSectionLines(d.sections, show);
    var read := ReadLines(begun, sections, name, scan);
    SectionsReadBack(begun, d.sections, name, show, scan);
    EndCloses(read, d.end, name, scan);
    assert DocumentLines(d, show)[1..] == sections + [d.end];
    ReadLinesAppend(begun, sections, [d.end], name, scan);
    assert ReadLines(read, [d.end], name, scan) == ReadLine(read, d.end, name, scan);
  }

  lemma {:induction false} FileReadsBack(ds: seq<Document>, name: string, show: int -> string, scan: string -> Scan)
    requires ReadsBack(show, scan) && forall d :: d in ds ==> WellFormed(d)
    ensures ReadLines(START, FileLines(ds, show), name, scan) == START.(output := PointsOf(ds, name))
    decreases |ds|
  {
    if ds != [] {
      DocumentReadsBack(ds[0], name, show, scan);
      FileReadsBack(ds[1..], name, show, scan);
      ReadLinesAppend(START, DocumentLines(ds[0], show), FileLines(ds[1..], show), name, scan);
      OutputAppends(ReadLines(START, DocumentLines(ds[0], show), name, scan), FileLines(ds[1..], show), name, scan);
    }
  }

  lemma {:induction false} FileLinesAreLines(ds: seq<Document>, show: int -> string, scan: string -> Scan)
    requires ReadsBack(show, scan) && forall d :: d in ds ==> WellFormed(d)
    ensures forall l :: l in FileLines(ds, show) ==> IsLine(l)
  {
    if ds != [] {
      assert WellFormed(ds[0]);
      FileLinesAreLines(ds[1..], show, scan);
      SectionLinesAreLines(ds[0].sections, show, scan);
    }
  }

  lemma {:induction false} SectionLinesAreLines(ss: seq<Section>, show: int -> string, scan: string -> Scan)
    requires ReadsBack(show, scan) && forall s :: s in ss ==> WellFormedSection(s)
    ensures forall l :: l in AllSectionLines(ss, show) ==> IsLine(l)
  {
    if ss != [] {
      assert WellFormedSection(ss[0]);
      SectionLinesAreLines(ss[1..], show, scan);
      forall l | l in PointLines(ss[0].points, show) ensures IsLine(l) {
        var i :| 0 <= i < |ss[0].points| && l == PointLine(ss[0].points[i], show);
        PointReadsBack(ss[0].points[i], show, scan);
      }
    }
  }

  /** Printing documents and reading the file for a name gives exactly the points
      of the documents of that name, whatever the case it is written in. */
  lemma PrintThenRead(ds: seq<Document>, name: string, show: int -> string, scan: string -> Scan)
    requires ReadsBack(show, scan) && forall d :: d in ds ==> WellFormed(d)
    ensures Polygon(Unlines(FileLines(ds, show)), name, scan) == PointsOf(ds, name)
  {
    var text := Unlines(FileLines(ds, show));
    FileLinesAreLines(ds, show, scan);
    LinesOfUnlines(FileLines(ds, show), "");
    assert text + "" == text;
    assert AllLines(text) == FileLines(ds, show);
    FileReadsBack(ds, name, show, scan);
  }
}
