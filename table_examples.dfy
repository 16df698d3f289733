/**
 * Worked examples of `TableSpec.ParseTable`, each for every parser that
 * rejects what `Double.valueOf` rejects and reads the few numerals the
 * example prints. The `...Printed` lemmas establish how the example's lines
 * split into tokens; the rest follow from the general lemmas.
 */
module TableExamples {
  import opened Wrappers
  import opened Tokenizer
  import opened TableSpec
  import opened TableLemmas

  /** What `Double.valueOf` gives for the numerals of the examples. */
  ghost predicate ReadsNumerals(parse: string -> Option<Cell>) {
    && IsDoubleParser(parse)
    && parse("1.0") == Some(Num(1.0)) && parse("2.0") == Some(Num(2.0)) && parse("3.0") == Some(Num(3.0))
    && parse("4.0") == Some(Num(4.0))
  }

  /** "1.0 2.0" and "3.0 4.0" are the printed forms of their tokens. */
  lemma TwoLinesPrinted(lines: seq<string>)
    requires lines == ["1.0 2.0", "3.0 4.0"]
    ensures lines == Printed([["1.0", "2.0"], ["3.0", "4.0"]]) && PrintedRows([["1.0", "2.0"], ["3.0", "4.0"]])
  {
    var rows := [["1.0", "2.0"], ["3.0", "4.0"]];
    assert Join(rows[0]) == "1.0 2.0";
    assert Join(rows[1]) == "3.0 4.0";
  }

  /** Two rows of numbers come back as they were printed. */
  lemma TwoLines(parse: string -> Option<Cell>, lines: seq<string>)
    requires ReadsNumerals(parse)
    requires lines == ["1.0 2.0", "3.0 4.0"]
    ensures ParseTable(parse, lines, 0) == Ok([[Num(1.0), Num(2.0)], [Num(3.0), Num(4.0)]])
  {
    var rows := [["1.0", "2.0"], ["3.0", "4.0"]];
    TwoLinesPrinted(lines);
    ReadBack(parse, rows, 0);
    TwoRows(parse, rows);
  }

  /** `TwoLines` over the tokens of each line. */
  lemma TwoRows(parse: string -> Option<Cell>, rows: seq<seq<string>>)
    requires ReadsNumerals(parse)
    requires rows == [["1.0", "2.0"], ["3.0", "4.0"]]
    ensures Expected(parse, rows, 0) == Ok([[Num(1.0), Num(2.0)], [Num(3.0), Num(4.0)]])
  {
    assert PrintedRows(rows);
    ExpectedNumeric(parse, rows);
    var t := Expected(parse, rows, 0).value;
    assert t[0] == [Num(1.0), Num(2.0)];
    assert t[1] == [Num(3.0), Num(4.0)];
    assert t == [[Num(1.0), Num(2.0)], [Num(3.0), Num(4.0)]];
  }

  /** What `Double.valueOf` gives for the numerals of the time-stamped example. */
  ghost predicate ReadsHalves(parse: string -> Option<Cell>) {
    IsDoubleParser(parse) && parse("1.5") == Some(Num(1.5)) && parse("2.5") == Some(Num(2.5))
  }

  /** "0:01:02 1.5 2.5" splits into its three tokens. */
  lemma TimeLinePrinted(lines: seq<string>)
    requires lines == ["0:01:02 1.5 2.5"]
    ensures Tokenised(lines) == [["0:01:02", "1.5", "2.5"]]
  {
    var rows := [["0:01:02", "1.5", "2.5"]];
    assert Join(rows[0]) == "0:01:02 1.5 2.5";
    assert Printed(rows) == lines;
    assert PrintedRows(rows);
    TokenisedPrinted(rows);
  }

  /** The line loop over the time-stamped line: the stamp becomes NaN and column 0 is the time column. */
  lemma TimeLineRead(parse: string -> Option<Cell>, rows: seq<seq<string>>)
    requires ReadsHalves(parse)
    requires rows == [["0:01:02", "1.5", "2.5"]]
    ensures ReadLines(parse, rows, 1) == Ok(ReadState([[NaN, Num(1.5), Num(2.5)]], 0, 1, Some(rows[0])))
  {
    assert ':' in rows[0][0];
    assert parse(rows[0][0]) == None;
    assert Coerce(parse, rows[0][0]) == Some(Coerced(NaN, Time));
    assert Coerce(parse, rows[0][1]) == Some(Coerced(Num(1.5), Number));
    assert Coerce(parse, rows[0][2]) == Some(Coerced(Num(2.5), Number));
    var ls := CoercePrefix(parse, rows[0], 3, -1, 0);
    assert CoercePrefix(parse, rows[0], 0, -1, 0) == Some(LineState([], -1, 0));
    assert [] + [NaN] == [NaN];
    assert CoercePrefix(parse, rows[0], 1, -1, 0) == Some(LineState([NaN], 0, 1));
    assert [NaN] + [Num(1.5)] == [NaN, Num(1.5)];
    assert CoercePrefix(parse, rows[0], 2, -1, 0) == Some(LineState([NaN, Num(1.5)], 0, 1));
    assert [NaN, Num(1.5)] + [Num(2.5)] == [NaN, Num(1.5), Num(2.5)];
    assert ls == Some(LineState([NaN, Num(1.5), Num(2.5)], 0, 1));
    assert ReadLines(parse, rows, 0) == Ok(ReadState([], -1, 0, None));
    assert [] + [[NaN, Num(1.5), Num(2.5)]] == [[NaN, Num(1.5), Num(2.5)]];
  }

  /** The two copies of the row NaN, 1.5, 2.5 with its time column 0 and width 2. */
  lemma TimeRowCopies(results: seq<seq<Cell>>)
    requires results == [[NaN, Num(1.5), Num(2.5)]]
    ensures Materialise(results, 0, 2) == Ok([[Num(1.5), Zero]])
    ensures MaterialiseIntended(results, 0, 2) == Ok([[Num(1.5), Num(2.5)]])
  {
    assert FirstShortRow(results, 2) == 1;
    assert OutRow(results[0], 0, 2) == [Num(1.5), Zero];
    var m := Materialise(results, 0, 2).value;
    assert m[0] == [Num(1.5), Zero];
    assert m == [[Num(1.5), Zero]];
    assert FirstShortRow(results, 3) == 1;
    assert DropColumn(results[0], 0, 2) == [Num(1.5), Num(2.5)];
    var d := MaterialiseIntended(results, 0, 2).value;
    assert d[0] == [Num(1.5), Num(2.5)];
    assert d == [[Num(1.5), Num(2.5)]];
  }

  /**
   * The time column as written: "0:01:02 1.5 2.5" gives the row 1.5, 0.0;
   * the 2.5 is lost.
   */
  lemma TimeColumnAsWritten(parse: string -> Option<Cell>, lines: seq<string>)
    requires ReadsHalves(parse)
    requires lines == ["0:01:02 1.5 2.5"]
    ensures ParseTable(parse, lines, 0) == Ok([[Num(1.5), Zero]])
  {
    TimeLinePrinted(lines);
    var rows := Tokenised(lines);
    TimeLineRead(parse, rows);
    var st := ReadState([[NaN, Num(1.5), Num(2.5)]], 0, 1, Some(rows[0]));
    assert ParseTable(parse, lines, 0) == Finish(st, 0);
    assert Finish(st, 0) == Materialise(st.results, 0, 2);
    TimeRowCopies(st.results);
  }

  /** The intended copy of the same line keeps both values: 1.5, 2.5. */
  lemma TimeColumnIntended(parse: string -> Option<Cell>, lines: seq<string>)
    requires ReadsHalves(parse)
    requires lines == ["0:01:02 1.5 2.5"]
    ensures ParseTableIntended(parse, lines, 0) == Ok([[Num(1.5), Num(2.5)]])
  {
    TimeLinePrinted(lines);
    var rows := Tokenised(lines);
    TimeLineRead(parse, rows);
    var st := ReadState([[NaN, Num(1.5), Num(2.5)]], 0, 1, Some(rows[0]));
    assert ParseTableIntended(parse, lines, 0) == FinishIntended(st, 0);
    assert FinishIntended(st, 0) == MaterialiseIntended(st.results, 0, 2);
    TimeRowCopies(st.results);
  }

  /** Printed lines read back through the closed form of the line loop. */
  lemma ReadBack(parse: string -> Option<Cell>, rows: seq<seq<string>>, exitStatus: int)
    requires IsDoubleParser(parse) && PrintedRows(rows)
    ensures ParseTable(parse, Printed(rows), exitStatus) == Expected(parse, rows, exitStatus)
  {
    TokenisedPrinted(rows);
    ParseTableIsExpected(parse, Printed(rows), exitStatus);
  }

  /** "1.0 - 3.0" is the printed form of its tokens. */
  lemma DashLinePrinted(lines: seq<string>)
    requires lines == ["1.0 - 3.0"]
    ensures lines == Printed([["1.0", "-", "3.0"]]) && PrintedRows([["1.0", "-", "3.0"]])
  {
    assert Join(["1.0", "-", "3.0"]) == "1.0 - 3.0";
  }

  /** "-" is WFDB's missing value: it becomes NaN. */
  lemma DashIsNaN(parse: string -> Option<Cell>, lines: seq<string>)
    requires ReadsNumerals(parse)
    requires lines == ["1.0 - 3.0"]
    ensures ParseTable(parse, lines, 0) == Ok([[Num(1.0), NaN, Num(3.0)]])
  {
    var rows := [["1.0", "-", "3.0"]];
    DashLinePrinted(lines);
    ReadBack(parse, rows, 0);
    DashRow(parse, rows);
  }

  /** `DashIsNaN` over the tokens of the line. */
  lemma DashRow(parse: string -> Option<Cell>, rows: seq<seq<string>>)
    requires ReadsNumerals(parse)
    requires rows == [["1.0", "-", "3.0"]]
    ensures Expected(parse, rows, 0) == Ok([[Num(1.0), NaN, Num(3.0)]])
  {
    assert PrintedRows(rows);
    ExpectedNumeric(parse, rows);
    var t := Expected(parse, rows, 0).value;
    assert t[0] == [Num(1.0), NaN, Num(3.0)];
    assert t == [[Num(1.0), NaN, Num(3.0)]];
  }

  lemma RaggedLinesPrinted(lines: seq<string>, rows: seq<seq<string>>)
    requires lines == ["1.0 2.0", "3.0"] && rows == [["1.0", "2.0"], ["3.0"]]
    ensures lines == Printed(rows) && PrintedRows(rows)
  {
    assert Join(rows[0]) == "1.0 2.0";
  }

  /** The width comes from the last line: a shorter last line truncates every row before it. */
  lemma LastLineSetsWidth(parse: string -> Option<Cell>, lines: seq<string>)
    requires ReadsNumerals(parse)
    requires lines == ["1.0 2.0", "3.0"]
    ensures ParseTable(parse, lines, 0) == Ok([[Num(1.0)], [Num(3.0)]])
  {
    var rows := [["1.0", "2.0"], ["3.0"]];
    RaggedLinesPrinted(lines, rows);
    ReadBack(parse, rows, 0);
    RaggedRows(parse, rows);
  }

  /** `LastLineSetsWidth` over the tokens of each line. */
  lemma RaggedRows(parse: string -> Option<Cell>, rows: seq<seq<string>>)
    requires ReadsNumerals(parse)
    requires rows == [["1.0", "2.0"], ["3.0"]]
    ensures Expected(parse, rows, 0) == Ok([[Num(1.0)], [Num(3.0)]])
  {
    assert FirstBlank(rows, 2) == 2;
    assert !NoNumber(parse, rows[0][0]);
    assert TimeColumn(rows, 2) == -1;
    assert Width(rows) == 1;
    ExpectedTable(parse, rows, 0);
    var t := Expected(parse, rows, 0).value;
    assert t[0] == OutRow(LineCells(parse, rows[0]), -1, 1) == [Num(1.0)];
    assert t[1] == OutRow(LineCells(parse, rows[1]), -1, 1) == [Num(3.0)];
    assert t == [[Num(1.0)], [Num(3.0)]];
  }

  /** "3.0" then "1.0 2.0" are the printed forms of their tokens. */
  lemma ShortFirstLinePrinted(lines: seq<string>, rows: seq<seq<string>>)
    requires lines == ["3.0", "1.0 2.0"] && rows == [["3.0"], ["1.0", "2.0"]]
    ensures lines == Printed(rows) && PrintedRows(rows)
  {
    assert Join(rows[1]) == "1.0 2.0";
  }

  /** A last line wider than an earlier one: the copy reads past the end of the earlier row. */
  lemma WiderLastLineThrows(parse: string -> Option<Cell>, lines: seq<string>)
    requires ReadsNumerals(parse)
    requires lines == ["3.0", "1.0 2.0"]
    ensures ParseTable(parse, lines, 0) == Err(RowTooShort(0))
  {
    var rows := [["3.0"], ["1.0", "2.0"]];
    ShortFirstLinePrinted(lines, rows);
    ReadBack(parse, rows, 0);
    WiderRows(parse, rows);
  }

  /** `WiderLastLineThrows` over the tokens of each line. */
  lemma WiderRows(parse: string -> Option<Cell>, rows: seq<seq<string>>)
    requires ReadsNumerals(parse)
    requires rows == [["3.0"], ["1.0", "2.0"]]
    ensures Expected(parse, rows, 0) == Err(RowTooShort(0))
  {
    assert FirstBlank(rows, 2) == 2;
    assert !NoNumber(parse, rows[0][0]);
    assert TimeColumn(rows, 2) == -1;
    var cells := ReadOutcome(parse, rows, 2).value.0;
    assert |cells[0]| == 1;
    assert FirstShortRow(cells, 2) == 0;
  }

  /** What `Double.valueOf` does with the annotation codes of the examples: it throws. */
  ghost predicate RejectsCodes(parse: string -> Option<Cell>) {
    parse("N") == None && parse("V") == None
  }

  /** A line printed from tokens splits back into them, and is not blank. */
  lemma PrintedLine(line: string, toks: seq<string>)
    requires |toks| >= 1 && forall k :: 0 <= k < |toks| ==> IsPrintedToken(toks[k])
    requires line == Join(toks)
    ensures Tokens(line) == toks && !IsBlank(line)
  {
    WordsOfJoin(toks);
    TokensOfJoin(toks);
  }

  /** A first line of codes only, a header, is rejected as holding no data. */
  lemma HeaderIsNoData(parse: string -> Option<Cell>, lines: seq<string>)
    requires ReadsNumerals(parse) && RejectsCodes(parse)
    requires lines == ["N V", "1.0 2.0"]
    ensures ParseTable(parse, lines, 0) == Err(NoData)
  {
    assert Join(["N", "V"]) == lines[0];
    PrintedLine(lines[0], ["N", "V"]);
    NoDataIff(parse, lines, 0);
    assert HoldsNoData(parse, Tokens(lines[0]));
  }

  /** An empty line after data throws, and the lines after it are never read. */
  lemma BlankLineThrows(parse: string -> Option<Cell>, lines: seq<string>)
    requires ReadsNumerals(parse)
    requires lines == ["1.0 2.0", "", "3.0 4.0"]
    ensures ParseTable(parse, lines, 0) == Err(ConversionError(1))
  {
    assert Join(["1.0", "2.0"]) == lines[0];
    PrintedLine(lines[0], ["1.0", "2.0"]);
    assert !NoNumber(parse, Tokens(lines[0])[0]);
    FirstBlankLineThrows(parse, lines, 0, 1);
  }

  /** A failing tool is reported by its exit status, even when its output converts. */
  lemma FailingTool(parse: string -> Option<Cell>, lines: seq<string>)
    requires ReadsNumerals(parse)
    requires lines == ["1.0 2.0"]
    ensures ParseTable(parse, lines, 2) == Err(NonZeroExit(2))
  {
    assert Join(["1.0", "2.0"]) == lines[0];
    PrintedLine(lines[0], ["1.0", "2.0"]);
    assert !NoNumber(parse, Tokens(lines[0])[0]);
    NonZeroExitAfterReading(parse, lines, 2);
  }

  /** A code after data is the code of its first character: 'N' is 78. */
  lemma CodeAfterData(parse: string -> Option<Cell>, rows: seq<seq<string>>)
    requires ReadsNumerals(parse) && RejectsCodes(parse)
    requires rows == [["1.0", "N"]]
    ensures Expected(parse, rows, 0) == Ok([[Num(1.0), Num(78.0)]])
  {
    assert FirstBlank(rows, 1) == 1;
    assert !NoNumber(parse, rows[0][0]);
    assert ':' !in rows[0][1];
    assert TimeColumn(rows, 1) == -1;
    assert Width(rows) == 2;
    ExpectedTable(parse, rows, 0);
    assert CellOf(parse, "N") == Num(78.0);
    var t := Expected(parse, rows, 0).value;
    assert t[0] == LineCells(parse, rows[0]) == [Num(1.0), Num(78.0)];
    assert t == [[Num(1.0), Num(78.0)]];
  }
}
