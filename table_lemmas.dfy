/**
 * What `Wfdbexec.execToDoubleArray` promises, proved of `TableSpec.ParseTable`
 * for every parser that behaves like `Double.valueOf` on the strings it must
 * reject. The line loop is restated in closed form, one line at a time and
 * without its running state: a line's cells depend on that line alone, the
 * time column is the first column holding ':' in the first line that has one,
 * the first blank line throws, and only the first line can be rejected as
 * holding no data.
 */
module TableLemmas {
  import opened Wrappers
  import opened Tokenizer
  import opened TableSpec

  /** The value token `tok` gets (a token none of the fallbacks converts gets none: `Zero` stands in). */
  function CellOf(parse: string -> Option<Cell>, tok: string): Cell {
    match Coerce(parse, tok)
    case Some(c) => c.cell
    case None => Zero
  }

  /** A token that is neither a number nor "-": a time stamp or a character code, the tokens `dataCheck` counts. */
  predicate NoNumber(parse: string -> Option<Cell>, tok: string) {
    tok != "-" && parse(tok).None?
  }

  /** A line `trim()` empties: it splits into the one empty token. */
  predicate IsBlank(line: string) {
    forall i :: 0 <= i < |line| ==> IsTrimmed(line[i])
  }

  /** The first of the first `k` tokens holding ':', or -1. */
  function FirstColon(toks: seq<string>, k: nat): (c: int)
    requires k <= |toks|
    ensures -1 <= c < k
    ensures c == -1 <==> forall j :: 0 <= j < k ==> ':' !in toks[j]
    ensures c >= 0 ==> ':' in toks[c] && forall j :: 0 <= j < c ==> ':' !in toks[j]
  {
    if k == 0 then -1
    else if FirstColon(toks, k - 1) >= 0 then FirstColon(toks, k - 1)
    else if ':' in toks[k - 1] then k - 1
    else -1
  }

  /** The time column of the first `n` rows: where ':' first appears in the first row that has one, or -1. */
  function TimeColumn(rows: seq<seq<string>>, n: nat): (t: int)
    requires n <= |rows|
    ensures t == -1 <==> forall i :: 0 <= i < n ==> FirstColon(rows[i], |rows[i]|) == -1
    ensures t >= 0 ==> exists i :: (0 <= i < n && t == FirstColon(rows[i], |rows[i]|)
      && forall i' :: 0 <= i' < i ==> FirstColon(rows[i'], |rows[i']|) == -1)
  {
    if n == 0 then -1
    else if TimeColumn(rows, n - 1) >= 0 then TimeColumn(rows, n - 1)
    else FirstColon(rows[n - 1], |rows[n - 1]|)
  }

  /** The index of the first of the first `n` rows holding an empty token (a blank line), or `n`. */
  function FirstBlank(rows: seq<seq<string>>, n: nat): (b: nat)
    requires n <= |rows|
    ensures b <= n
    ensures forall i :: 0 <= i < b ==> "" !in rows[i]
    ensures b < n ==> "" in rows[b]
  {
    if n == 0 then 0
    else if FirstBlank(rows, n - 1) < n - 1 then FirstBlank(rows, n - 1)
    else if "" in rows[n - 1] then n - 1
    else n
  }

  /** What `trim().split("\\s+")` gives for every line: one empty token, or tokens none of which is empty. */
  predicate WellTokenised(rows: seq<seq<string>>) {
    forall i :: 0 <= i < |rows| ==> |rows[i]| >= 1 && ("" in rows[i] ==> rows[i] == [""])
  }

  /** The first line is rejected as "Cannot convert": every token of it is a time stamp or a character code. */
  predicate HoldsNoData(parse: string -> Option<Cell>, toks: seq<string>) {
    forall j :: 0 <= j < |toks| ==> NoNumber(parse, toks[j])
  }

  /** Each token's own value. */
  function LineCells(parse: string -> Option<Cell>, toks: seq<string>): (r: seq<Cell>)
    ensures |r| == |toks|
    ensures forall j :: 0 <= j < |toks| ==> r[j] == CellOf(parse, toks[j])
  {
    seq(|toks|, j requires 0 <= j < |toks| => CellOf(parse, toks[j]))
  }

  /**
   * The line loop over the first `n` rows of tokens in closed form: "Cannot
   * convert" if the first line is not blank and holds no data, else the first
   * blank line throws, else each line's own cells and the time column.
   */
  function ReadOutcome(parse: string -> Option<Cell>, rows: seq<seq<string>>, n: nat)
    : Result<(seq<seq<Cell>>, int), ParseError>
    requires n <= |rows|
  {
    var b := FirstBlank(rows, n);
    if b > 0 && HoldsNoData(parse, rows[0]) then Err(NoData)
    else if b < n then Err(ConversionError(b))
    else Ok((seq(n, i requires 0 <= i < n => LineCells(parse, rows[i])), TimeColumn(rows, n)))
  }

  /**
   * `execToDoubleArray` in closed form, over the tokens of each line: the
   * line loop's outcome, then the exit status, then a non-empty output, then
   * the copy with the width taken from the last line.
   */
  function Expected(parse: string -> Option<Cell>, rows: seq<seq<string>>, exitStatus: int)
    : Result<seq<seq<Cell>>, ParseError>
    requires WellTokenised(rows)
  {
    match ReadOutcome(parse, rows, |rows|)
    case Err(e) => Err(e)
    case Ok((cells, t)) =>
      if exitStatus != 0 then Err(NonZeroExit(exitStatus))
      else if |rows| == 0 then Err(EmptyOutput)
      else Materialise(cells, t, |rows[|rows| - 1]| - (if t > -1 then 1 else 0))
  }

  /** The column loop over the first `k` tokens throws exactly when one of them is empty. */
  lemma {:induction false} CoercePrefixThrows(
    parse: string -> Option<Cell>, toks: seq<string>, k: nat, isTime: int, dataCheck: nat)
    requires IsDoubleParser(parse)
    requires k <= |toks|
    ensures CoercePrefix(parse, toks, k, isTime, dataCheck).Some? <==> forall j :: 0 <= j < k ==> toks[j] != ""
  {
    if k > 0 {
      CoercePrefixThrows(parse, toks, k - 1, isTime, dataCheck);
      assert Coerce(parse, toks[k - 1]).None? <==> toks[k - 1] == "";
    }
  }

  /**
   * When it does not throw, each cell is its own token's value, and the time
   * column is kept if one was known and is else the first token with ':'.
   */
  lemma {:induction false} CoercePrefixCells(
    parse: string -> Option<Cell>, toks: seq<string>, k: nat, isTime: int, dataCheck: nat)
    requires IsDoubleParser(parse)
    requires k <= |toks| && isTime >= -1
    requires CoercePrefix(parse, toks, k, isTime, dataCheck).Some?
    ensures CoercePrefix(parse, toks, k, isTime, dataCheck).value.cells == seq(k, j requires 0 <= j < k => CellOf(parse, toks[j]))
    ensures CoercePrefix(parse, toks, k, isTime, dataCheck).value.isTime == (if isTime >= 0 then isTime else FirstColon(toks, k))
  {
    if k > 0 {
      CoercePrefixCells(parse, toks, k - 1, isTime, dataCheck);
      var st := CoercePrefix(parse, toks, k - 1, isTime, dataCheck).value;
      var tok := toks[k - 1];
      var c := Coerce(parse, tok).value;
      assert c.cell == CellOf(parse, tok);
      assert c.kind == Time <==> ':' in tok;
      assert CoercePrefix(parse, toks, k, isTime, dataCheck).value.cells == st.cells + [c.cell];
    }
  }

  /**
   * When it does not throw, `dataCheck` grows by at most `k`, and by exactly
   * `k` when no token is a number or "-".
   */
  lemma {:induction false} CoercePrefixCount(
    parse: string -> Option<Cell>, toks: seq<string>, k: nat, isTime: int, dataCheck: nat)
    requires IsDoubleParser(parse)
    requires k <= |toks|
    requires CoercePrefix(parse, toks, k, isTime, dataCheck).Some?
    ensures CoercePrefix(parse, toks, k, isTime, dataCheck).value.dataCheck <= dataCheck + k
    ensures CoercePrefix(parse, toks, k, isTime, dataCheck).value.dataCheck == dataCheck + k
      <==> forall j :: 0 <= j < k ==> NoNumber(parse, toks[j])
  {
    if k > 0 {
      CoercePrefixCount(parse, toks, k - 1, isTime, dataCheck);
      var tok := toks[k - 1];
      assert NoNumber(parse, tok) <==> IsFallback(Coerce(parse, tok).value.kind);
    }
  }

  /** One more line: the first blank line throws, only the first line can hold no data, the others add their cells. */
  lemma ReadOutcomeStep(parse: string -> Option<Cell>, rows: seq<seq<string>>, n: nat)
    requires 0 < n <= |rows|
    ensures ReadOutcome(parse, rows, n) ==
      match ReadOutcome(parse, rows, n - 1)
      case Err(e) => Err(e)
      case Ok((cells, t)) =>
        if "" in rows[n - 1] then Err(ConversionError(n - 1))
        else if n == 1 && HoldsNoData(parse, rows[0]) then Err(NoData)
        else Ok((cells + [LineCells(parse, rows[n - 1])], if t >= 0 then t else FirstColon(rows[n - 1], |rows[n - 1]|)))
  {
    var b := FirstBlank(rows, n - 1);
    if b < n - 1 {
      assert FirstBlank(rows, n) == b;
    } else if "" in rows[n - 1] {
      assert FirstBlank(rows, n) == n - 1;
    } else {
      assert FirstBlank(rows, n) == n;
      if !(n == 1 && HoldsNoData(parse, rows[0])) {
        assert n > 1 ==> b > 0;
        assert seq(n, i requires 0 <= i < n => LineCells(parse, rows[i]))
          == seq(n - 1, i requires 0 <= i < n - 1 => LineCells(parse, rows[i])) + [LineCells(parse, rows[n - 1])];
      }
    }
  }

  /** One line read by the model, told through the closed form: it throws as `ReadOutcomeStep` says, or adds what it says. */
  lemma ReadLineFacts(parse: string -> Option<Cell>, st: ReadState, toks: seq<string>, lineNo: nat)
    requires IsDoubleParser(parse)
    requires st.isTime >= -1 && (st.results == [] ==> st.dataCheck == 0)
    requires |toks| >= 1 && ("" in toks ==> toks == [""])
    ensures "" in toks ==> ReadLine(parse, st, toks, lineNo) == Err(ConversionError(lineNo))
    ensures "" !in toks && st.results == [] && HoldsNoData(parse, toks) ==> ReadLine(parse, st, toks, lineNo) == Err(NoData)
    ensures "" !in toks && !(st.results == [] && HoldsNoData(parse, toks)) ==>
      && ReadLine(parse, st, toks, lineNo).Ok?
      && ReadLine(parse, st, toks, lineNo).value.results == st.results + [LineCells(parse, toks)]
      && ReadLine(parse, st, toks, lineNo).value.isTime == (if st.isTime >= 0 then st.isTime else FirstColon(toks, |toks|))
  {
    CoercePrefixThrows(parse, toks, |toks|, st.isTime, st.dataCheck);
    if CoercePrefix(parse, toks, |toks|, st.isTime, st.dataCheck).Some? {
      CoercePrefixCells(parse, toks, |toks|, st.isTime, st.dataCheck);
      CoercePrefixCount(parse, toks, |toks|, st.isTime, st.dataCheck);
    }
    if "" in toks {
      assert toks[0] == "";
    } else {
      assert LineCells(parse, toks) == seq(|toks|, j requires 0 <= j < |toks| => CellOf(parse, toks[j]));
    }
  }

  /** The line loop over the first `n` rows is `ReadOutcome`: the same exception, or the same rows and time column. */
  lemma {:induction false} ReadLinesFacts(parse: string -> Option<Cell>, rows: seq<seq<string>>, n: nat)
    requires IsDoubleParser(parse)
    requires n <= |rows| && WellTokenised(rows)
    ensures ReadLines(parse, rows, n).Err? <==> ReadOutcome(parse, rows, n).Err?
    ensures ReadLines(parse, rows, n).Err? ==> ReadLines(parse, rows, n).error == ReadOutcome(parse, rows, n).error
    ensures ReadLines(parse, rows, n).Ok? ==>
      ReadOutcome(parse, rows, n).value == (ReadLines(parse, rows, n).value.results, ReadLines(parse, rows, n).value.isTime)
  {
    if n > 0 {
      ReadLinesFacts(parse, rows, n - 1);
      ReadOutcomeStep(parse, rows, n);
      var prev := ReadLines(parse, rows, n - 1);
      if prev.Err? {
        assert ReadLines(parse, rows, n) == prev;
        assert ReadOutcome(parse, rows, n) == ReadOutcome(parse, rows, n - 1);
      } else {
        var st := prev.value;
        assert n - 1 == 0 ==> st.dataCheck == 0;
        assert st.results == [] <==> n == 1;
        assert ReadOutcome(parse, rows, n - 1) == Ok((st.results, st.isTime));
        assert ReadLines(parse, rows, n) == ReadLine(parse, st, rows[n - 1], n - 1);
        ReadLineFacts(parse, st, rows[n - 1], n - 1);
      }
    } else {
      assert ReadOutcome(parse, rows, 0).value.0 == [];
    }
  }

  /** What follows the line loop agrees with `Expected` too: the exit status, then the empty output, then the copy. */
  lemma FinishIsExpected(parse: string -> Option<Cell>, rows: seq<seq<string>>, exitStatus: int)
    requires IsDoubleParser(parse) && WellTokenised(rows)
    ensures ReadLines(parse, rows, |rows|).Err? ==> Expected(parse, rows, exitStatus) == Err(ReadLines(parse, rows, |rows|).error)
    ensures ReadLines(parse, rows, |rows|).Ok? ==> Expected(parse, rows, exitStatus) == Finish(ReadLines(parse, rows, |rows|).value, exitStatus)
  {
    ReadLinesFacts(parse, rows, |rows|);
    var r := ReadLines(parse, rows, |rows|);
    var o := ReadOutcome(parse, rows, |rows|);
    if r.Err? {
      assert o == Err(r.error);
    } else {
      var st := r.value;
      assert o == Ok((st.results, st.isTime));
      if exitStatus == 0 && |rows| > 0 {
        assert st.last == Some(rows[|rows| - 1]);
      }
    }
  }

  /** For a parser that rejects what `Double.valueOf` rejects, the model of `execToDoubleArray` is `Expected`. */
  lemma ParseTableIsExpected(parse: string -> Option<Cell>, lines: seq<string>, exitStatus: int)
    requires IsDoubleParser(parse)
    ensures ParseTable(parse, lines, exitStatus) == Expected(parse, Tokenised(lines), exitStatus)
  {
    FinishIsExpected(parse, Tokenised(lines), exitStatus);
  }

  /** A line is blank exactly when its tokens hold the empty token. */
  lemma BlankRows(lines: seq<string>)
    ensures forall i :: 0 <= i < |lines| ==> ("" in Tokenised(lines)[i] <==> IsBlank(lines[i]))
  {
    forall i | 0 <= i < |lines| ensures "" in Tokenised(lines)[i] <==> IsBlank(lines[i]) {
      TokenisedAt(lines, i);
      EmptyTokenIffBlank(lines[i]);
    }
  }

  /**
   * Lines 235-240: the first blank line throws, whatever follows it and
   * whatever the exit status, unless an earlier first line was already
   * rejected for holding no data.
   */
  lemma FirstBlankLineThrows(parse: string -> Option<Cell>, lines: seq<string>, exitStatus: int, i: nat)
    requires IsDoubleParser(parse)
    requires i < |lines| && IsBlank(lines[i])
    requires forall i' :: 0 <= i' < i ==> !IsBlank(lines[i'])
    requires i > 0 ==> !HoldsNoData(parse, Tokens(lines[0]))
    ensures ParseTable(parse, lines, exitStatus) == Err(ConversionError(i))
  {
    ParseTableIsExpected(parse, lines, exitStatus);
    BlankRows(lines);
    var rows := Tokenised(lines);
    assert FirstBlank(rows, |rows|) == i;
    TokenisedAt(lines, 0);
  }

  /**
   * Lines 246-249: "Cannot convert" is thrown exactly when the first line is
   * not blank and each of its tokens is a time stamp or a character code;
   * "-" and numbers count as data, and no later line is checked.
   */
  lemma NoDataIff(parse: string -> Option<Cell>, lines: seq<string>, exitStatus: int)
    requires IsDoubleParser(parse)
    ensures ParseTable(parse, lines, exitStatus) == Err(NoData) <==>
      |lines| > 0 && !IsBlank(lines[0]) && HoldsNoData(parse, Tokens(lines[0]))
  {
    var rows := Tokenised(lines);
    ParseTableIsExpected(parse, lines, exitStatus);
    ExpectedNoData(parse, rows, exitStatus);
    if |lines| > 0 {
      TokenisedAt(lines, 0);
      EmptyTokenIffBlank(lines[0]);
    }
  }

  /** `NoDataIff` over the tokens of each line. */
  lemma ExpectedNoData(parse: string -> Option<Cell>, rows: seq<seq<string>>, exitStatus: int)
    requires WellTokenised(rows)
    ensures Expected(parse, rows, exitStatus) == Err(NoData) <==> |rows| > 0 && "" !in rows[0] && HoldsNoData(parse, rows[0])
  {
    var b := FirstBlank(rows, |rows|);
    if |rows| > 0 {
      assert b > 0 <==> "" !in rows[0];
    }
    if !(b > 0 && HoldsNoData(parse, rows[0])) && b == |rows| && exitStatus == 0 && |rows| > 0 {
      var r := ReadOutcome(parse, rows, |rows|).value;
      MaterialiseFacts(r.0, r.1, Width(rows));
    }
  }

  /**
   * Lines 256-258: the exit status is looked at only once every line has
   * been read, so a failing tool whose output converts (or that printed
   * nothing) is reported by its exit status.
   */
  lemma NonZeroExitAfterReading(parse: string -> Option<Cell>, lines: seq<string>, exitStatus: int)
    requires IsDoubleParser(parse)
    requires exitStatus != 0
    requires forall i :: 0 <= i < |lines| ==> !IsBlank(lines[i])
    requires |lines| > 0 ==> !HoldsNoData(parse, Tokens(lines[0]))
    ensures ParseTable(parse, lines, exitStatus) == Err(NonZeroExit(exitStatus))
  {
    ParseTableIsExpected(parse, lines, exitStatus);
    BlankRows(lines);
    var rows := Tokenised(lines);
    if |lines| > 0 {
      TokenisedAt(lines, 0);
    }
    assert FirstBlank(rows, |rows|) == |rows|;
  }

  /** Lines 255-261: a tool that exits normally without printing leaves `tmpStr` null. */
  lemma NoOutputIsEmpty(parse: string -> Option<Cell>)
    ensures ParseTable(parse, [], 0) == Err(EmptyOutput)
    ensures forall e :: e != 0 ==> ParseTable(parse, [], e) == Err(NonZeroExit(e))
  {
    assert Tokenised([]) == [];
  }

  /** The width of the table: the last line's token count, less the time column if there is one. */
  function Width(rows: seq<seq<string>>): nat
    requires |rows| > 0 && |rows[|rows| - 1]| >= 1
  {
    |rows[|rows| - 1]| - (if TimeColumn(rows, |rows|) > -1 then 1 else 0)
  }

  /** The copy succeeds exactly when no row is narrower than the width, and then copies each row by `OutRow`. */
  lemma MaterialiseFacts(cells: seq<seq<Cell>>, isTime: int, n: nat)
    ensures Materialise(cells, isTime, n).Err? ==> Materialise(cells, isTime, n).error.RowTooShort?
    ensures Materialise(cells, isTime, n).Ok? <==> forall i :: 0 <= i < |cells| ==> |cells[i]| >= n
    ensures Materialise(cells, isTime, n).Ok? ==>
      && |Materialise(cells, isTime, n).value| == |cells|
      && forall i :: 0 <= i < |cells| ==> Materialise(cells, isTime, n).value[i] == OutRow(cells[i], isTime, n)
  {
  }

  /** `AcceptedTable` over the tokens of each line. */
  lemma ExpectedTable(parse: string -> Option<Cell>, rows: seq<seq<string>>, exitStatus: int)
    requires WellTokenised(rows)
    ensures Expected(parse, rows, exitStatus).Ok? <==>
      && exitStatus == 0 && |rows| > 0
      && FirstBlank(rows, |rows|) == |rows|
      && !HoldsNoData(parse, rows[0])
      && forall i :: 0 <= i < |rows| ==> |rows[i]| >= Width(rows)
    ensures Expected(parse, rows, exitStatus).Ok? ==>
      var t := Expected(parse, rows, exitStatus).value;
      && |t| == |rows|
      && forall i :: 0 <= i < |rows| ==>
        t[i] == OutRow(LineCells(parse, rows[i]), TimeColumn(rows, |rows|), Width(rows))
  {
    if exitStatus == 0 && |rows| > 0 && FirstBlank(rows, |rows|) == |rows| && !HoldsNoData(parse, rows[0]) {
      var cells := seq(|rows|, i requires 0 <= i < |rows| => LineCells(parse, rows[i]));
      var t := TimeColumn(rows, |rows|);
      assert ReadOutcome(parse, rows, |rows|) == Ok((cells, t));
      assert Expected(parse, rows, exitStatus) == Materialise(cells, t, Width(rows));
      MaterialiseFacts(cells, t, Width(rows));
      assert forall i :: 0 <= i < |rows| ==> cells[i] == LineCells(parse, rows[i]);
    }
  }

  /** No line is blank exactly when no row of tokens holds the empty token. */
  lemma NoBlankLine(lines: seq<string>)
    ensures FirstBlank(Tokenised(lines), |lines|) == |lines| <==> forall i :: 0 <= i < |lines| ==> !IsBlank(lines[i])
  {
    BlankRows(lines);
  }

  /**
   * A table is returned exactly when the exit status is 0, some line was
   * printed, none is blank, the first holds data and no line is narrower
   * than the width.
   */
  lemma AcceptedIff(parse: string -> Option<Cell>, lines: seq<string>, exitStatus: int)
    requires IsDoubleParser(parse)
    ensures ParseTable(parse, lines, exitStatus).Ok? <==>
      && exitStatus == 0 && |lines| > 0
      && (forall i :: 0 <= i < |lines| ==> !IsBlank(lines[i]))
      && !HoldsNoData(parse, Tokenised(lines)[0])
      && forall i :: 0 <= i < |lines| ==> |Tokenised(lines)[i]| >= Width(Tokenised(lines))
  {
    ParseTableIsExpected(parse, lines, exitStatus);
    NoBlankLine(lines);
    ExpectedAccepted(parse, Tokenised(lines), exitStatus);
  }

  /** `AcceptedIff` over the tokens of each line, the blank lines told by their empty token. */
  lemma ExpectedAccepted(parse: string -> Option<Cell>, rows: seq<seq<string>>, exitStatus: int)
    requires WellTokenised(rows)
    ensures Expected(parse, rows, exitStatus).Ok? <==>
      && exitStatus == 0 && |rows| > 0
      && FirstBlank(rows, |rows|) == |rows|
      && !HoldsNoData(parse, rows[0])
      && forall i :: 0 <= i < |rows| ==> |rows[i]| >= Width(rows)
  {
    ExpectedTable(parse, rows, exitStatus);
  }

  /**
   * What a returned table is: one row per line, row `i` the cells of line
   * `i` copied as lines 269-290 copy them, at the width of the last line.
   */
  lemma AcceptedTable(parse: string -> Option<Cell>, lines: seq<string>, exitStatus: int)
    requires IsDoubleParser(parse)
    requires ParseTable(parse, lines, exitStatus).Ok?
    ensures |lines| > 0 && |ParseTable(parse, lines, exitStatus).value| == |lines|
    ensures forall i :: 0 <= i < |lines| ==>
      (|Tokenised(lines)[i]| >= Width(Tokenised(lines)) && ParseTable(parse, lines, exitStatus).value[i]
        == OutRow(LineCells(parse, Tokenised(lines)[i]), TimeColumn(Tokenised(lines), |lines|), Width(Tokenised(lines))))
  {
    ParseTableIsExpected(parse, lines, exitStatus);
    ExpectedTable(parse, Tokenised(lines), exitStatus);
  }

  /** The lines a tool prints for a table of tokens: one line per row, one space between tokens. */
  function Printed(toks: seq<seq<string>>): (lines: seq<string>)
    ensures |lines| == |toks|
    ensures forall i :: 0 <= i < |toks| ==> lines[i] == Join(toks[i])
  {
    seq(|toks|, i requires 0 <= i < |toks| => Join(toks[i]))
  }

  /** Every row of printed tokens: at least one token, each one printable. */
  predicate PrintedRows(toks: seq<seq<string>>) {
    forall i :: 0 <= i < |toks| ==> |toks[i]| >= 1 && forall j :: 0 <= j < |toks[i]| ==> IsPrintedToken(toks[i][j])
  }

  /** Reading back printed lines gives the printed tokens. */
  lemma TokenisedPrinted(toks: seq<seq<string>>)
    requires PrintedRows(toks)
    ensures Tokenised(Printed(toks)) == toks
  {
    var lines := Printed(toks);
    forall i | 0 <= i < |toks| ensures Tokenised(lines)[i] == toks[i] {
      TokenisedAt(lines, i);
      TokensOfJoin(toks[i]);
    }
  }

  /** A token a tool prints for a value: "-" or a number. */
  predicate IsValueToken(parse: string -> Option<Cell>, tok: string) {
    tok == "-" || parse(tok).Some?
  }

  /** The value a value token stands for. */
  function ValueOf(parse: string -> Option<Cell>, tok: string): Cell
    requires IsValueToken(parse, tok)
  {
    if tok == "-" then NaN else parse(tok).value
  }

  /**
   * Round trip of the ordinary case: a tool that exits normally after
   * printing rows of equal width whose tokens are numbers or "-" yields
   * those numbers, "-" as NaN, in the same rows and columns.
   */
  lemma NumericTable(parse: string -> Option<Cell>, toks: seq<seq<string>>)
    requires IsDoubleParser(parse)
    requires |toks| > 0 && PrintedRows(toks)
    requires forall i :: 0 <= i < |toks| ==> |toks[i]| == |toks[0]|
    requires forall i, j :: 0 <= i < |toks| && 0 <= j < |toks[i]| ==> IsValueToken(parse, toks[i][j])
    ensures ParseTable(parse, Printed(toks), 0).Ok?
    ensures var t := ParseTable(parse, Printed(toks), 0).value;
      && |t| == |toks|
      && forall i :: 0 <= i < |toks| ==> |t[i]| == |toks[i]| && forall j :: 0 <= j < |toks[i]| ==>
        t[i][j] == ValueOf(parse, toks[i][j])
  {
    TokenisedPrinted(toks);
    ParseTableIsExpected(parse, Printed(toks), 0);
    ExpectedNumeric(parse, toks);
  }

  /** `NumericTable` over the tokens of each line. */
  lemma ExpectedNumeric(parse: string -> Option<Cell>, toks: seq<seq<string>>)
    requires IsDoubleParser(parse)
    requires |toks| > 0 && PrintedRows(toks)
    requires forall i :: 0 <= i < |toks| ==> |toks[i]| == |toks[0]|
    requires forall i, j :: 0 <= i < |toks| && 0 <= j < |toks[i]| ==> IsValueToken(parse, toks[i][j])
    ensures WellTokenised(toks) && Expected(parse, toks, 0).Ok?
    ensures var t := Expected(parse, toks, 0).value;
      && |t| == |toks|
      && forall i :: 0 <= i < |toks| ==> |t[i]| == |toks[i]| && forall j :: 0 <= j < |toks[i]| ==>
        t[i][j] == ValueOf(parse, toks[i][j])
  {
    ValueRowsShape(parse, toks);
    ExpectedTable(parse, toks, 0);
    assert !NoNumber(parse, toks[0][0]);
    assert TimeColumn(toks, |toks|) == -1;
    assert Width(toks) == |toks[0]|;
    forall i, j | 0 <= i < |toks| && 0 <= j < |toks[i]|
      ensures LineCells(parse, toks[i])[j] == ValueOf(parse, toks[i][j])
    {
    }
  }

  /** Rows of printed value tokens hold no empty token and no time stamp. */
  lemma ValueRowsShape(parse: string -> Option<Cell>, toks: seq<seq<string>>)
    requires IsDoubleParser(parse) && PrintedRows(toks)
    requires forall i, j :: 0 <= i < |toks| && 0 <= j < |toks[i]| ==> IsValueToken(parse, toks[i][j])
    ensures WellTokenised(toks)
    ensures forall i :: 0 <= i < |toks| ==> "" !in toks[i] && FirstColon(toks[i], |toks[i]|) == -1
  {
    forall i | 0 <= i < |toks| ensures "" !in toks[i] && FirstColon(toks[i], |toks[i]|) == -1 {
      forall j | 0 <= j < |toks[i]| ensures toks[i][j] != "" && ':' !in toks[i][j] {
        assert IsPrintedToken(toks[i][j]);
        if toks[i][j] == "-" {
          assert ':' !in "-";
        }
      }
    }
  }

  /**
   * The time-column copy as written, for a row of `n + 1` cells whose time
   * column `t` lies inside the table: the last column is never written and
   * keeps 0.0, and when `t > 0` column `t - 1` receives the time stamp's NaN.
   * The intended copy keeps the last value.
   */
  lemma TimeRowLosesLastValue(r: seq<Cell>, t: nat, n: nat)
    requires t < n && n >= 2 && |r| >= n + 1
    ensures TimeRow(r, t, n)[n - 1] == Zero
    ensures t > 0 ==> TimeRow(r, t, n)[t - 1] == r[t]
    ensures DropColumn(r, t, n)[n - 1] == r[n]
    ensures TimeRow(r, t, n) == DropColumn(r, t, n) ==> r[n] == Zero && (t > 0 ==> r[t] == r[t - 1])
  {
  }

  /** When the time column is the last of the row, the copy as written drops just that column, as intended. */
  lemma TimeColumnLast(r: seq<Cell>, n: nat)
    requires |r| >= n + 1
    ensures TimeRow(r, n, n) == r[..n]
    ensures TimeRow(r, n, n) == DropColumn(r, n, n)
  {
  }

  /** Without a time column the intended copy is the copy as written. */
  lemma IntendedWithoutTimeColumn(parse: string -> Option<Cell>, lines: seq<string>, exitStatus: int)
    requires IsDoubleParser(parse)
    requires NoTimeStamp(Tokenised(lines))
    ensures ParseTableIntended(parse, lines, exitStatus) == ParseTable(parse, lines, exitStatus)
  {
    NoTimeColumnRead(parse, Tokenised(lines));
  }

  /** No token holds ':'. */
  predicate NoTimeStamp(rows: seq<seq<string>>) {
    forall i, j :: 0 <= i < |rows| && 0 <= j < |rows[i]| ==> ':' !in rows[i][j]
  }

  /** Without a token holding ':' the line loop leaves `isTime` at -1. */
  lemma NoTimeColumnRead(parse: string -> Option<Cell>, rows: seq<seq<string>>)
    requires IsDoubleParser(parse) && WellTokenised(rows)
    requires NoTimeStamp(rows)
    ensures ReadLines(parse, rows, |rows|).Ok? ==> ReadLines(parse, rows, |rows|).value.isTime == -1
  {
    ReadLinesFacts(parse, rows, |rows|);
    assert forall i :: 0 <= i < |rows| ==> FirstColon(rows[i], |rows[i]|) == -1;
  }

  /** The intended copy succeeds exactly when every row has its `n + 1` cells, and then drops the time column of each. */
  lemma MaterialiseIntendedFacts(cells: seq<seq<Cell>>, t: nat, n: nat)
    requires t <= n
    ensures MaterialiseIntended(cells, t, n).Ok? <==> forall i :: 0 <= i < |cells| ==> |cells[i]| >= n + 1
    ensures MaterialiseIntended(cells, t, n).Ok? ==>
      && |MaterialiseIntended(cells, t, n).value| == |cells|
      && forall i :: 0 <= i < |cells| ==> MaterialiseIntended(cells, t, n).value[i] == DropColumn(cells[i], t, n)
  {
  }
}
