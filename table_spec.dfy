/**
 * The reference semantics of `Wfdbexec.execToDoubleArray`: how the lines a
 * WFDB tool prints become a table of doubles, or an exception.
 *
 * `Double.valueOf` is an input, `parse`; the lemmas assume only what
 * `IsDoubleParser` says of it. Each stage is a function over a prefix of its
 * input (the first `k` tokens, the first `n` lines, the first `i` rows), so
 * that the loops of `TableExec.ParseOutput` can be checked against it one
 * iteration at a time.
 */
module TableSpec {
  import opened Wrappers
  import opened Tokenizer

  /** A double of the table: a number, or Java's `Double.NaN`. */
  datatype Cell = Num(value: real) | NaN

  /** The value a `double[][]` element has before it is assigned. */
  const Zero: Cell := Num(0.0)

  /**
   * What every `Double.valueOf` does: it throws `NumberFormatException` on the
   * empty string, on "-" and on any string containing ':'.
   */
  ghost predicate IsDoubleParser(parse: string -> Option<Cell>) {
    && parse("") == None
    && parse("-") == None
    && forall s :: ':' in s ==> parse(s) == None
  }

  /** Which rule of the fallback chain gave a token its value. */
  datatype Kind = Number | Dash | Time | Code

  datatype Coerced = Coerced(cell: Cell, kind: Kind)

  /** `(double) c` for a `char`. */
  function CharCode(c: char): real {
    c as int as real
  }

  /**
   * One token through the fallback chain: `Double.valueOf`; else "-" is NaN;
   * else a token with ':' is a time stamp, NaN; else the code of its first
   * character. `None` is the exception `toCharArray()[0]` throws on "".
   */
  function Coerce(parse: string -> Option<Cell>, tok: string): Option<Coerced> {
    match parse(tok)
    case Some(c) => Some(Coerced(c, Number))
    case None =>
      if tok == "-" then Some(Coerced(NaN, Dash))
      else if ':' in tok then Some(Coerced(NaN, Time))
      else if tok != [] then Some(Coerced(Num(CharCode(tok[0])), Code))
      else None
  }

  /** The fallbacks that increment `dataCheck`: a time stamp or a character code. */
  predicate IsFallback(k: Kind) {
    k == Time || k == Code
  }

  /** The state the column loop carries: the row so far, `isTime` and `dataCheck`. */
  datatype LineState = LineState(cells: seq<Cell>, isTime: int, dataCheck: nat)

  /** The column loop after its first `k` tokens, from `isTime` and `dataCheck` on entry; `None` once a token has thrown. */
  function CoercePrefix(parse: string -> Option<Cell>, toks: seq<string>, k: nat, isTime: int, dataCheck: nat)
    : (r: Option<LineState>)
    requires k <= |toks|
    ensures r.Some? ==> |r.value.cells| == k
    ensures r.Some? ==> r.value.isTime == isTime || (isTime < 0 && 0 <= r.value.isTime < k)
  {
    if k == 0 then Some(LineState([], isTime, dataCheck))
    else
      match CoercePrefix(parse, toks, k - 1, isTime, dataCheck)
      case None => None
      case Some(st) =>
        match Coerce(parse, toks[k - 1])
        case None => None
        case Some(c) =>
          Some(LineState(
            st.cells + [c.cell],
            if c.kind == Time && st.isTime < 0 then k - 1 else st.isTime,
            if IsFallback(c.kind) then st.dataCheck + 1 else st.dataCheck))
  }

  /** The exceptions `execToDoubleArray` lets escape. */
  datatype ParseError =
    | ConversionError(line: nat)   // a token none of the fallbacks converts
    | NoData                       // "Cannot convert": the first line holds no real data
    | NonZeroExit(status: int)     // "Command exited with error!"
    | EmptyOutput                  // no line was read, so `tmpStr` is still null
    | RowTooShort(row: nat)        // the copy loop reads past the end of this row

  /** The state the line loop carries: `results`, `isTime`, `dataCheck` and the last line's tokens `tmpStr`. */
  datatype ReadState = ReadState(results: seq<seq<Cell>>, isTime: int, dataCheck: nat, last: Option<seq<string>>)

  /** One pass of the line loop, over the tokens `toks` of line number `lineNo` (counted from 0). */
  function ReadLine(parse: string -> Option<Cell>, st: ReadState, toks: seq<string>, lineNo: nat)
    : (r: Result<ReadState, ParseError>)
    ensures r.Ok? ==> |r.value.results| == |st.results| + 1 && r.value.last == Some(toks)
    ensures r.Ok? && st.isTime >= -1 ==> r.value.isTime >= -1
  {
    match CoercePrefix(parse, toks, |toks|, st.isTime, st.dataCheck)
    case None => Err(ConversionError(lineNo))
    case Some(ls) =>
      if st.results == [] && ls.dataCheck == |toks| then Err(NoData)
      else Ok(ReadState(st.results + [ls.cells], ls.isTime, ls.dataCheck, Some(toks)))
  }

  /**
   * The tokens of every line, as `trim().split("\\s+")` gives them: never an
   * empty row, and the empty token only as the whole row of a blank line.
   */
  function Tokenised(lines: seq<string>): (r: seq<seq<string>>)
    ensures |r| == |lines|
    ensures forall i :: 0 <= i < |r| ==> |r[i]| >= 1 && ("" in r[i] ==> r[i] == [""])
  {
    if lines == [] then []
    else
      EmptyTokenIffBlank(lines[0]);
      [Tokens(lines[0])] + Tokenised(lines[1..])
  }

  /** Row `i` of `Tokenised(lines)` is the tokens of line `i`. */
  lemma {:induction false} TokenisedAt(lines: seq<string>, i: nat)
    requires i < |lines|
    ensures Tokenised(lines)[i] == Tokens(lines[i])
  {
    if i > 0 {
      TokenisedAt(lines[1..], i - 1);
    }
  }

  /** The line loop after its first `n` lines, given the tokens of each. */
  function ReadLines(parse: string -> Option<Cell>, rows: seq<seq<string>>, n: nat): (r: Result<ReadState, ParseError>)
    requires n <= |rows|
    ensures r.Ok? ==> |r.value.results| == n
    ensures r.Ok? ==> (r.value.last.None? <==> n == 0)
    ensures r.Ok? && n > 0 ==> r.value.last == Some(rows[n - 1])
    ensures r.Ok? ==> r.value.isTime >= -1
  {
    if n == 0 then Ok(ReadState([], -1, 0, None))
    else
      match ReadLines(parse, rows, n - 1)
      case Err(e) => Err(e)
      case Ok(st) => ReadLine(parse, st, rows[n - 1], n - 1)
  }

  /**
   * Row `r` as the time-column copy loop leaves it, for time column `t` and
   * table width `n`: a literal reading of lines 272-279, whose loop stops
   * before the row's last cell, whose assignment is outside the `if` and
   * whose `index` is never reset.
   */
  function TimeRow(r: seq<Cell>, t: nat, n: nat): seq<Cell>
    requires |r| >= n
  {
    seq(n, j requires 0 <= j < n =>
      if t >= n || j < t - 1 then r[j]
      else if j < n - 1 then r[j + 1]
      else if n == 1 then r[0]
      else Zero)
  }

  /** Output row for parsed row `r`: a plain copy of its first `n` cells when there is no time column. */
  function OutRow(r: seq<Cell>, isTime: int, n: nat): seq<Cell>
    requires |r| >= n
  {
    if isTime < 0 then r[..n] else TimeRow(r, isTime, n)
  }

  /** The index of the first row with fewer than `n` cells, or `|rows|` when there is none. */
  function FirstShortRow(rows: seq<seq<Cell>>, n: nat): (k: nat)
    ensures k <= |rows|
    ensures forall i :: 0 <= i < k ==> |rows[i]| >= n
    ensures k < |rows| ==> |rows[k]| < n
  {
    if rows == [] then 0
    else if |rows[0]| < n then 0
    else 1 + FirstShortRow(rows[1..], n)
  }

  /** The copy into `double[rows][n]`: the first short row throws. */
  function Materialise(rows: seq<seq<Cell>>, isTime: int, n: nat): Result<seq<seq<Cell>>, ParseError> {
    var k := FirstShortRow(rows, n);
    if k < |rows| then Err(RowTooShort(k))
    else Ok(seq(|rows|, i requires 0 <= i < |rows| => OutRow(rows[i], isTime, n)))
  }

  /**
   * `execToDoubleArray` for output `lines` and exit status `exitStatus`: read
   * every line, then check the exit status, then take the width from the
   * LAST line read (one less when a time column was seen) and copy.
   */
  function ParseTable(parse: string -> Option<Cell>, lines: seq<string>, exitStatus: int)
    : Result<seq<seq<Cell>>, ParseError>
  {
    var rows := Tokenised(lines);
    match ReadLines(parse, rows, |rows|)
    case Err(e) => Err(e)
    case Ok(st) => Finish(st, exitStatus)
  }

  /** What follows the line loop: the exit status, the null check on `tmpStr`, the width and the copy. */
  function Finish(st: ReadState, exitStatus: int): Result<seq<seq<Cell>>, ParseError>
    requires st.last.Some? ==> |st.last.value| >= 1
  {
    if exitStatus != 0 then Err(NonZeroExit(exitStatus))
    else if st.last.None? then Err(EmptyOutput)
    else Materialise(st.results, st.isTime, |st.last.value| - (if st.isTime > -1 then 1 else 0))
  }

  /**
   * Row `r` with its time column `t` removed, as the comment of line 226
   * intends: the `n + 1` cells of the row less cell `t`, in order.
   */
  function DropColumn(r: seq<Cell>, t: nat, n: nat): (d: seq<Cell>)
    requires t <= n && |r| >= n + 1
    ensures |d| == n
    ensures forall j :: 0 <= j < n ==> d[j] == r[if j < t then j else j + 1]
  {
    r[..t] + r[t + 1..n + 1]
  }

  /** The copy of lines 269-280 as intended: every row needs its `n + 1` cells, and loses only the time column. */
  function MaterialiseIntended(rows: seq<seq<Cell>>, isTime: int, n: nat): Result<seq<seq<Cell>>, ParseError> {
    if isTime < 0 || isTime > n then Materialise(rows, isTime, n)
    else
      var k := FirstShortRow(rows, n + 1);
      if k < |rows| then Err(RowTooShort(k))
      else Ok(seq(|rows|, i requires 0 <= i < |rows| => DropColumn(rows[i], isTime, n)))
  }

  /** `Finish` with the intended copy. */
  function FinishIntended(st: ReadState, exitStatus: int): Result<seq<seq<Cell>>, ParseError>
    requires st.last.Some? ==> |st.last.value| >= 1
  {
    if exitStatus != 0 then Err(NonZeroExit(exitStatus))
    else if st.last.None? then Err(EmptyOutput)
    else MaterialiseIntended(st.results, st.isTime, |st.last.value| - (if st.isTime > -1 then 1 else 0))
  }

  /** `ParseTable` with the intended copy. */
  function ParseTableIntended(parse: string -> Option<Cell>, lines: seq<string>, exitStatus: int)
    : Result<seq<seq<Cell>>, ParseError>
  {
    var rows := Tokenised(lines);
    match ReadLines(parse, rows, |rows|)
    case Err(e) => Err(e)
    case Ok(st) => FinishIntended(st, exitStatus)
  }

  /** Once a token has thrown, the rest of the line does not matter. */
  lemma {:induction false} CoercePrefixNoneStays(
    parse: string -> Option<Cell>, toks: seq<string>, k: nat, m: nat, isTime: int, dataCheck: nat)
    requires k <= m <= |toks|
    requires CoercePrefix(parse, toks, k, isTime, dataCheck).None?
    ensures CoercePrefix(parse, toks, m, isTime, dataCheck).None?
    decreases m
  {
    if k < m {
      CoercePrefixNoneStays(parse, toks, k, m - 1, isTime, dataCheck);
    }
  }

  /** Once a line has thrown, the lines after it are never read. */
  lemma {:induction false} ReadLinesErrStays(parse: string -> Option<Cell>, rows: seq<seq<string>>, n: nat, m: nat)
    requires n <= m <= |rows|
    requires ReadLines(parse, rows, n).Err?
    ensures ReadLines(parse, rows, m) == ReadLines(parse, rows, n)
    decreases m
  {
    if n < m {
      ReadLinesErrStays(parse, rows, n, m - 1);
    }
  }
}
