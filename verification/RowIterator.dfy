/** Iterating over the rows of a region's address book: a text of lines whose
    cells are separated by semicolons. */
module RowIterator {
  import opened Coords
  import opened Lines
  import opened Trip
  import opened Wrappers

  /** The number conversions that may throw. */
  datatype Cast = Cast(toInteger: string -> Option<int>, toDegrees: string -> Option<int>)

  // ---------- cells ----------

  function SemicolonAt(s: string): (k: nat)
    ensures k <= |s| && (forall i :: 0 <= i < k ==> s[i] != ';') && (k < |s| ==> s[k] == ';')
  {
    if s == [] || s[0] == ';' then 0 else 1 + SemicolonAt(s[1..])
  }

  /** The cells of a line. Nothing after the last semicolon is no cell. */
  function Cells(line: string): seq<string> {
    if line == "" then [] else
      var k := SemicolonAt(line);
      if k == |line| then [line] else [line[..k]] + Cells(line[k + 1..])
  }

  ghost predicate IsCell(s: string) {
    forall i :: 0 <= i < |s| ==> s[i] != ';'
  }

  function JoinCells(cells: seq<string>): string {
    if cells == [] then "" else cells[0] + ";" + JoinCells(cells[1..])
  }

  /** Cells written out, each closed by a semicolon or all but a last, non-empty
      one, are read back. */
  lemma {:induction false} CellsOfJoined(cells: seq<string>, last: string)
    requires (forall i :: 0 <= i < |cells| ==> IsCell(cells[i])) && IsCell(last)
    ensures Cells(JoinCells(cells) + last) == cells + if last == "" then [] else [last]
  {
    var s := JoinCells(cells) + last;
    if cells == [] {
      assert s == last;
      FirstSemicolon(s, |s|);
    } else {
      assert IsCell(cells[0]);
      CellsOfJoined(cells[1..], last);
      FirstCell(cells[0], JoinCells(cells[1..]) + last);
      JoinedCellsBegin(cells[0], JoinCells(cells[1..]), last);
      assert cells == [cells[0]] + cells[1..];
    }
  }

  lemma JoinedCellsBegin(cell: string, joined: string, last: string)
    ensures (cell + ";" + joined) + last == cell + ";" + (joined + last)
  {
  }

  lemma FirstCell(cell: string, rest: string)
    requires IsCell(cell)
    ensures Cells(cell + ";" + rest) == [cell] + Cells(rest)
  {
    var s := cell + ";" + rest;
    FirstSemicolon(s, |cell|);
    assert s[..|cell|] == cell && s[|cell| + 1..] == rest;
  }

  lemma FirstSemicolon(s: string, n: nat)
    requires n <= |s| && (forall i :: 0 <= i < n ==> s[i] != ';') && (n < |s| ==> s[n] == ';')
    ensures SemicolonAt(s) == n
  {
  }

  method SplitCells(line: string) returns (chunks: seq<string>)
    ensures chunks == Cells(line)
  {
    chunks := [];
    var rest := line;
    while rest != ""
      invariant Cells(line) == chunks + Cells(rest)
      decreases |rest|
    {
      ghost var before := chunks;
      var cell;
      cell, rest := GetCell(rest);
      chunks := chunks + [cell];
      assert before + ([cell] + Cells(rest)) == chunks + Cells(rest);
    }
  }

  /** std::getline up to a semicolon, on a stream that is not at its end. */
  method GetCell(s: string) returns (cell: string, rest: string)
    requires s != ""
    ensures Cells(s) == [cell] + Cells(rest) && |rest| < |s|
  {
    var k := 0;
    while k < |s| && s[k] != ';'
      invariant k <= |s| && forall i :: 0 <= i < k ==> s[i] != ';'
    {
      k := k + 1;
    }
    CutCell(s, k);
    cell, rest := s[..k], if k == |s| then "" else s[k + 1..];
  }

  lemma CutCell(s: string, k: nat)
    requires s != "" && k <= |s| && (forall i :: 0 <= i < k ==> s[i] != ';') && (k < |s| ==> s[k] == ';')
    ensures Cells(s) == [s[..k]] + Cells(if k == |s| then "" else s[k + 1..])
  {
    FirstSemicolon(s, k);
    if k == |s| {
      assert s[..k] == s;
    }
  }

  // ---------- rows ----------

  predicate IsComplete(b: Building) {
    !b.coords.IsEmpty() && b.city != "" && b.street != "" && b.number != ""
  }

  /** The building a row describes, if it is complete and its numbers convert. */
  function ParseRow(line: string, cast: Cast): (b: Option<Building>)
    ensures b.Some? ==> IsComplete(b.value)
  {
    var chunks := Cells(line);
    if |chunks| != 8 then None else
      var id, lat, lng := cast.toInteger(chunks[0]), cast.toDegrees(chunks[1]), cast.toDegrees(chunks[2]);
      if id.None? || lat.None? || lng.None? then None else
        var temp := Building(id.value, Coordinates(lat.value, lng.value), chunks[3], chunks[4], chunks[5], chunks[6], chunks[7]);
        if temp.coords.IsEmpty() || temp.city == "" || temp.street == "" || temp.number == "" then None
        else Some(temp)
  }

  /** A building as a row: id, latitude, longitude, country, city, zip code, street
      and number. */
  function RowLine(b: Building, showId: int -> string, showDegrees: int -> string): string {
    JoinCells([showId(b.id), showDegrees(b.coords.latitude), showDegrees(b.coords.longitude), b.country, b.city,
               b.zipcode, b.street]) + b.number
  }

  /** A building written as a row is read back, or skipped if it is incomplete. */
  lemma RowReadsBack(b: Building, cast: Cast, showId: int -> string, showDegrees: int -> string)
    requires IsCell(b.country) && IsCell(b.city) && IsCell(b.zipcode) && IsCell(b.street) && IsCell(b.number)
    requires forall n :: IsCell(showId(n)) && cast.toInteger(showId(n)) == Some(n)
    requires forall n :: IsCell(showDegrees(n)) && cast.toDegrees(showDegrees(n)) == Some(n)
    ensures ParseRow(RowLine(b, showId, showDegrees), cast)
            == if && b.city != "" && b.street != "" && b.number != "" && (b.coords.latitude > 0 || b.coords.longitude > 0)
               then Some(b) else None
  {
    var cells := [showId(b.id), showDegrees(b.coords.latitude), showDegrees(b.coords.longitude), b.country, b.city,
                  b.zipcode, b.street];
    CellsOfJoined(cells, b.number);
    var chunks := Cells(RowLine(b, showId, showDegrees));
    assert b.number != "" ==> chunks == cells + [b.number];
    assert b.number == "" ==> |chunks| == 7;
  }

  /** Which lines are rows, and of which buildings: those of exactly eight cells with
      three numbers in front, a city, a street, a house number and a place. */
  lemma IsRowIff(line: string, cast: Cast, b: Building)
    ensures ParseRow(line, cast) == Some(b) <==>
              var cells := Cells(line);
              && |cells| == 8
              && cast.toInteger(cells[0]) == Some(b.id)
              && cast.toDegrees(cells[1]) == Some(b.coords.latitude) && cast.toDegrees(cells[2]) == Some(b.coords.longitude)
              && cells[3..] == [b.country, b.city, b.zipcode, b.street, b.number]
              && b.city != "" && b.street != "" && b.number != "" && (b.coords.latitude > 0 || b.coords.longitude > 0)
  {
    var cells := Cells(line);
    if |cells| == 8 {
      assert cells[3..][0] == cells[3] && cells[3..][1] == cells[4] && cells[3..][2] == cells[5] && cells[3..][3] == cells[6]
             && cells[3..][4] == cells[7];
    }
  }

  function Rows(ls: seq<string>, cast: Cast): seq<Building> {
    if ls == [] then []
    else (if ParseRow(ls[0], cast).Some? then [ParseRow(ls[0], cast).value] else []) + Rows(ls[1..], cast)
  }

  /** The rows of a file: its newline-terminated lines that parse, in order. */
  function RowsOf(text: string, cast: Cast): seq<Building> {
    Rows(Terminated(text), cast)
  }

  lemma {:induction false} RowsAppend(a: seq<string>, b: seq<string>, cast: Cast)
    ensures Rows(a + b, cast) == Rows(a, cast) + Rows(b, cast)
  {
    if a == [] {
      assert a + b == b;
    } else {
      assert (a + b)[1..] == a[1..] + b;
      RowsAppend(a[1..], b, cast);
    }
  }

  function RowLines(bs: seq<Building>, showId: int -> string, showDegrees: int -> string): seq<string> {
    seq(|bs|, i requires 0 <= i < |bs| => RowLine(bs[i], showId, showDegrees))
  }

  function OnlyComplete(bs: seq<Building>): seq<Building> {
    if bs == [] then [] else (if IsComplete(bs[0]) then [bs[0]] else []) + OnlyComplete(bs[1..])
  }

  /** Buildings written out as rows are read back, all that are complete and in
      their order. */
  lemma {:induction false} RowsReadBack(bs: seq<Building>, cast: Cast, showId: int -> string, showDegrees: int -> string)
    requires forall b :: b in bs ==>
               IsCell(b.country) && IsCell(b.city) && IsCell(b.zipcode) && IsCell(b.street) && IsCell(b.number)
    requires forall n :: IsCell(showId(n)) && cast.toInteger(showId(n)) == Some(n)
    requires forall n :: IsCell(showDegrees(n)) && cast.toDegrees(showDegrees(n)) == Some(n)
    ensures Rows(RowLines(bs, showId, showDegrees), cast) == OnlyComplete(bs)
  {
    if bs != [] {
      assert RowLines(bs, showId, showDegrees)[1..] == RowLines(bs[1..], showId, showDegrees);
      RowReadsBack(bs[0], cast, showId, showDegrees);
      RowsReadBack(bs[1..], cast, showId, showDegrees);
    }
  }

  /** A line that is no row can be put in or taken out anywhere. */
  lemma NoRowDoesNotMatter(before: seq<string>, line: string, after: seq<string>, cast: Cast)
    requires ParseRow(line, cast).None?
    ensures Rows(before + [line] + after, cast) == Rows(before + after, cast)
  {
    RowsAppend(before + [line], after, cast);
    RowsAppend(before, [line], cast);
    RowsAppend(before, after, cast);
    assert Rows([line], cast) == [];
  }

  /** Whatever follows the last newline is never read. */
  lemma UnterminatedLineIsIgnored(ls: seq<string>, tail: string, cast: Cast)
    requires (forall l :: l in ls ==> IsLine(l)) && IsLine(tail)
    ensures RowsOf(Unlines(ls) + tail, cast) == Rows(ls, cast)
  {
    LinesOfUnlines(ls, tail);
  }

  // ---------- the iterator ----------

  class BuildingRecordIterator {
    const cast: Cast
    var value: Option<Building>
    var stream: TextStream?

    ghost predicate Valid()
      reads this, stream
    {
      && (stream != null ==> stream.Valid() && stream.Good())
      && (stream != null <==> value.Some?)
    }

    /** What is still to come after the current value. */
    ghost function Remaining(): string
      reads this, stream
      requires Valid()
    {
      if stream == null then "" else stream.Rest()
    }

    /** The rows from the current value on. */
    ghost function Upcoming(): seq<Building>
      reads this, stream
      requires Valid()
    {
      if value.None? then [] else [value.value] + RowsOf(Remaining(), cast)
    }

    predicate IsOk()
      reads this, stream
    {
      stream != null && stream.Good()
    }

    /** Opens the file's text and reads up to the first row. */
    constructor (text: string, cast: Cast)
      ensures Valid() && (stream != null ==> fresh(stream))
      ensures this.cast == cast && Upcoming() == RowsOf(text, cast)
    {
      this.cast := cast;
      value := None;
      stream := new TextStream(text);
      new;
      Step();
    }

    /** Reads lines until one is a row, or the stream is no longer good. */
    method Step()
      requires stream != null && stream.Valid() && stream.Good()
      modifies this, stream
      ensures Valid() && (stream != null ==> stream == old(stream))
      ensures Upcoming() == RowsOf(old(stream.Rest()), cast)
      ensures stream != null ==> |stream.Rest()| < |old(stream.Rest())|
    {
      ghost var all := RowsOf(stream.Rest(), cast);
      while true
        invariant stream == old(stream) && stream.Valid() && stream.Good()
        invariant RowsOf(stream.Rest(), cast) == all
        invariant |stream.Rest()| <= |old(stream.Rest())|
        decreases |stream.Rest()|
      {
        ghost var before := stream.Rest();
        var line := stream.GetLine();
        if !IsOk() {
          value := None;
          stream := null;
          return;
        }
        RowsAppend([line], Terminated(stream.Rest()), cast);
        var chunks := SplitCells(line);
        if |chunks| != 8 {
          continue;
        }
        var id, lat, lng := cast.toInteger(chunks[0]), cast.toDegrees(chunks[1]), cast.toDegrees(chunks[2]);
        if id.None? || lat.None? || lng.None? {
          continue;
        }
        var temp := Building(id.value, Coordinates(lat.value, lng.value), chunks[3], chunks[4], chunks[5], chunks[6], chunks[7]);
        if temp.coords.IsEmpty() || temp.city == "" || temp.street == "" || temp.number == "" {
          continue;
        }
        value := Some(temp);
        return;
      }
    }

    /** The increment operator: from one row to the next. */
    method Next()
      requires Valid() && IsOk()
      modifies this, stream
      ensures Valid() && (stream != null ==> stream == old(stream))
      ensures Upcoming() == old(Upcoming())[1..]
      ensures stream != null ==> |stream.Rest()| < |old(stream.Rest())|
    {
      ghost var rest := RowsOf(stream.Rest(), cast);
      assert Upcoming()[1..] == rest;
      Step();
    }
  }

  /** A loop over the iterator sees every row of the file, in order, and only
      complete buildings. */
  method ReadAll(text: string, cast: Cast) returns (rows: seq<Building>)
    ensures rows == RowsOf(text, cast)
    ensures forall b :: b in rows ==> IsComplete(b)
  {
    rows := [];
    ghost var all := RowsOf(text, cast);
    var it := new BuildingRecordIterator(text, cast);
    while it.IsOk()
      invariant it.Valid() && fresh(it) && (it.stream != null ==> fresh(it.stream))
      invariant it.cast == cast
      invariant rows + it.Upcoming() == all
      decreases if it.stream == null then 0 else 1 + |it.stream.Rest()|
    {
      ghost var upcoming := it.Upcoming();
      ShiftOne(rows, upcoming);
      rows := rows + [it.value.value];
      it.Next();
    }
    RowsAreComplete(Terminated(text), cast);
  }

  lemma ShiftOne<T>(done: seq<T>, upcoming: seq<T>)
    requires upcoming != []
    ensures done + upcoming == (done + [upcoming[0]]) + upcoming[1..]
  {
  }

  lemma {:induction false} RowsAreComplete(ls: seq<string>, cast: Cast)
    ensures forall b :: b in Rows(ls, cast) ==> IsComplete(b)
  {
    if ls != [] {
      RowsAreComplete(ls[1..], cast);
    }
  }
}
