/** Which rows of a Legal file become events, and what is written about the others. */
module LegalParsing {
  import opened Collections

  type CsvRow = seq<string>

  /** datetime.fromisoformat: None if the text is not ISO-8601. */
  datatype Timestamp = Timestamp(at: int, hasZone: bool)
  type IsoParser = string -> Option<Timestamp>

  datatype RowError =
    | WrongColumnCount(got: nat)
    | UserIdEmpty
    | WriterIdEmpty
    | NotIso(text: string)
    | NoTimezone(text: string)

  datatype LegalEvent = LegalEvent(userId: string, writerId: string, requestedAt: int, batch: string)

  datatype Parsed = Built(event: LegalEvent) | Failed(error: RowError)

  /** str.isspace for one character. */
  predicate IsSpace(c: char) {
    var n := c as int;
    || 0x09 <= n <= 0x0d || 0x1c <= n <= 0x20 || n == 0x85 || n == 0xa0 || n == 0x1680
    || 0x2000 <= n <= 0x200a || n == 0x2028 || n == 0x2029 || n == 0x202f || n == 0x205f || n == 0x3000
  }

  function StripSpace(s: string): string {
    Strip(IsSpace, s)
  }

  /** `build_event`; the generated ids are left out. */
  function BuildEvent(row: CsvRow, batch: string, iso: IsoParser): Parsed {
    if |row| != 3 then Failed(WrongColumnCount(|row|)) else
      var user, writer, text := StripSpace(row[0]), StripSpace(row[1]), StripSpace(row[2]);
      if user == "" then Failed(UserIdEmpty)
      else if writer == "" then Failed(WriterIdEmpty)
      else match iso(text)
        case None => Failed(NotIso(text))
        case Some(t) =>
          if !t.hasZone then Failed(NoTimezone(text)) else Built(LegalEvent(user, writer, t.at, batch))
  }

  predicate AllSpace(s: string) {
    All(IsSpace, s)
  }

  lemma StrippedAwayIffAllSpace(s: string)
    ensures StripSpace(s) == "" <==> AllSpace(s)
  {
    StrippedAwayIffAll(IsSpace, s);
  }

  /** A row is usable when it has three columns, two of them not blank, and a time with a zone. */
  predicate IsUsable(row: CsvRow, iso: IsoParser) {
    && |row| == 3 && !AllSpace(row[0]) && !AllSpace(row[1])
    && iso(StripSpace(row[2])).Some? && iso(StripSpace(row[2])).value.hasZone
  }

  /** Exactly the usable rows become events, with the columns trimmed and the file recorded. */
  lemma UsableRowsBecomeEvents(row: CsvRow, batch: string, iso: IsoParser)
    ensures BuildEvent(row, batch, iso).Built? <==> IsUsable(row, iso)
    ensures IsUsable(row, iso) ==>
              BuildEvent(row, batch, iso).event
              == LegalEvent(StripSpace(row[0]), StripSpace(row[1]), iso(StripSpace(row[2])).value.at, batch)
  {
    if |row| == 3 {
      StrippedAwayIffAllSpace(row[0]);
      StrippedAwayIffAllSpace(row[1]);
    }
  }

  /** Cells are trimmed and not changed otherwise: whatever white space is around the three texts, the event
      holds the two ids as they are, the time that the third text stands for, and the name of the file. */
  lemma CellsBecomeTheirTexts(before: seq<string>, texts: seq<string>, after: seq<string>, batch: string,
                              iso: IsoParser)
    requires |before| == |texts| == |after| == 3
    requires forall i :: 0 <= i < 3 ==> AllSpace(before[i]) && AllSpace(after[i]) && IsTrimmed(texts[i])
    requires iso(texts[2]).Some? && iso(texts[2]).value.hasZone
    ensures
      var row := [before[0] + texts[0] + after[0], before[1] + texts[1] + after[1], before[2] + texts[2] + after[2]];
      BuildEvent(row, batch, iso) == Built(LegalEvent(texts[0], texts[1], iso(texts[2]).value.at, batch))
  {
    StripsToTheMiddle(IsSpace, before[0], texts[0], after[0]);
    StripsToTheMiddle(IsSpace, before[1], texts[1], after[1]);
    StripsToTheMiddle(IsSpace, before[2], texts[2], after[2]);
  }

  /** A text with something in it and no white space around it. */
  predicate IsTrimmed(s: string) {
    s != "" && !IsSpace(s[0]) && !IsSpace(s[|s| - 1])
  }

  /** The white space of Python's `str.strip`: twenty-nine code points. */
  lemma SpacesAreThese(c: char)
    ensures IsSpace(c) <==>
              c as int in {9, 10, 11, 12, 13, 28, 29, 30, 31, 32, 133, 160, 5760,
                           8192, 8193, 8194, 8195, 8196, 8197, 8198, 8199, 8200, 8201, 8202,
                           8232, 8233, 8239, 8287, 12288}
  {
  }

  /** The reported reason is that of the first test the row fails. */
  lemma TheFirstFailureIsReported(row: CsvRow, batch: string, iso: IsoParser)
    requires !IsUsable(row, iso)
    ensures
      BuildEvent(row, batch, iso) == Failed(
        if |row| != 3 then WrongColumnCount(|row|)
        else if AllSpace(row[0]) then UserIdEmpty
        else if AllSpace(row[1]) then WriterIdEmpty
        else if iso(StripSpace(row[2])).None? then NotIso(StripSpace(row[2]))
        else NoTimezone(StripSpace(row[2])))
  {
    if |row| == 3 {
      StrippedAwayIffAllSpace(row[0]);
      StrippedAwayIffAllSpace(row[1]);
    }
  }

  /******* Whole files *******/

  datatype Reject = Reject(line: nat, row: CsvRow, error: RowError)

  /** A message of one file, by the line its event came from. */
  datatype Message = Message(batch: string, line: nat, event: LegalEvent)

  /** The data rows of a file; reading raises after them if `broken`. */
  datatype File = File(rows: seq<CsvRow>, broken: bool)

  const FIRST_LINE: nat := 2

  function RejectsOf(name: string, rows: seq<CsvRow>, iso: IsoParser): seq<Reject> {
    if rows == [] then [] else
      var last := |rows| - 1;
      var rest := RejectsOf(name, rows[..last], iso);
      match BuildEvent(rows[last], name, iso)
      case Built(_) => rest
      case Failed(error) => rest + [Reject(last + FIRST_LINE, rows[last], error)]
  }

  function MessagesOf(name: string, rows: seq<CsvRow>, iso: IsoParser): seq<Message> {
    if rows == [] then [] else
      var last := |rows| - 1;
      var rest := MessagesOf(name, rows[..last], iso);
      match BuildEvent(rows[last], name, iso)
      case Built(event) => rest + [Message(name, last + FIRST_LINE, event)]
      case Failed(_) => rest
  }

  lemma {:induction false} RowsAreSplit(name: string, rows: seq<CsvRow>, iso: IsoParser)
    ensures |RejectsOf(name, rows, iso)| + |MessagesOf(name, rows, iso)| == |rows|
    ensures forall m :: m in MessagesOf(name, rows, iso) ==> m.batch == name && m.line < |rows| + FIRST_LINE
    decreases |rows|
  {
    if rows != [] {
      RowsAreSplit(name, rows[..|rows| - 1], iso);
    }
  }

  /** Line by line: a row is rejected under its own line number and with its own error, or sent under it; the
      header is line one. */
  lemma {:induction false} EveryRowIsAccountedFor(name: string, rows: seq<CsvRow>, iso: IsoParser, i: nat)
    requires i < |rows|
    ensures IsUsable(rows[i], iso) <==> exists m :: m in MessagesOf(name, rows, iso) && m.line == i + 2
    ensures IsUsable(rows[i], iso) ==>
              BuildEvent(rows[i], name, iso).Built? &&
              Message(name, i + 2, BuildEvent(rows[i], name, iso).event) in MessagesOf(name, rows, iso)
    ensures !IsUsable(rows[i], iso) ==>
              BuildEvent(rows[i], name, iso).Failed? &&
              Reject(i + 2, rows[i], BuildEvent(rows[i], name, iso).error) in RejectsOf(name, rows, iso)
    decreases |rows|
  {
    var last := |rows| - 1;
    var before := rows[..last];
    RowsAreSplit(name, before, iso);
    UsableRowsBecomeEvents(rows[i], name, iso);
    if i < last {
      EveryRowIsAccountedFor(name, before, iso, i);
      assert before[i] == rows[i];
      if IsUsable(rows[i], iso) {
        var m :| m in MessagesOf(name, before, iso) && m.line == i + FIRST_LINE;
        assert m in MessagesOf(name, rows, iso);
      }
    } else if BuildEvent(rows[i], name, iso).Built? {
      var m := Message(name, i + FIRST_LINE, BuildEvent(rows[i], name, iso).event);
      assert m in MessagesOf(name, rows, iso);
    }
  }

  lemma {:induction false} LinesAreDistinct(name: string, rows: seq<CsvRow>, iso: IsoParser)
    ensures Distinct(MessagesOf(name, rows, iso))
    decreases |rows|
  {
    if rows != [] {
      LinesAreDistinct(name, rows[..|rows| - 1], iso);
      RowsAreSplit(name, rows[..|rows| - 1], iso);
    }
  }

  /** One more row adds its reject or its message, and nothing else. */
  lemma OneMoreRow(name: string, rows: seq<CsvRow>, iso: IsoParser, read: nat)
    requires read < |rows|
    ensures
      match BuildEvent(rows[read], name, iso)
      case Failed(error) =>
        && MessagesOf(name, rows[..read + 1], iso) == MessagesOf(name, rows[..read], iso)
        && RejectsOf(name, rows[..read + 1], iso)
           == RejectsOf(name, rows[..read], iso) + [Reject(read + FIRST_LINE, rows[read], error)]
      case Built(event) =>
        && MessagesOf(name, rows[..read + 1], iso)
           == MessagesOf(name, rows[..read], iso) + [Message(name, read + FIRST_LINE, event)]
        && RejectsOf(name, rows[..read + 1], iso) == RejectsOf(name, rows[..read], iso)
  {
    assert rows[..read + 1][..read] == rows[..read];
  }

  /** Reading on only adds messages. */
  lemma {:induction false} MessagesGrow(name: string, rows: seq<CsvRow>, iso: IsoParser, n: nat)
    requires n <= |rows|
    ensures MessagesOf(name, rows[..n], iso) <= MessagesOf(name, rows, iso)
    decreases |rows|
  {
    if n < |rows| {
      MessagesGrow(name, rows[..|rows| - 1], iso, n);
      assert rows[..|rows| - 1][..n] == rows[..n];
    } else {
      assert rows[..n] == rows;
    }
  }
}
