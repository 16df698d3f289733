/**
 * The body of `Wfdbexec.execToDoubleArray` as the code runs it: a loop over
 * the output lines with a loop over each line's tokens, then the copy of the
 * rows into a freshly allocated `double[rows][N]`, here an `array2<Cell>`.
 * The process itself is not started: its output lines and exit status are
 * inputs.
 */
module TableExec {
  import opened Wrappers
  import opened Tokenizer
  import opened TableSpec

  /** The array holds table `t`, row by row. */
  ghost predicate Holds(a: array2<Cell>, t: seq<seq<Cell>>)
    reads a
  {
    && a.Length0 == |t|
    && (forall i :: 0 <= i < |t| ==> |t[i]| == a.Length1)
    && forall i, j :: 0 <= i < |t| && 0 <= j < a.Length1 ==> a[i, j] == t[i][j]
  }

  /** The value of `index` after the first `k` passes of the time-column copy loop over one row, entered with `p`. */
  ghost function IndexAfter(t: nat, p: int, k: nat): int {
    if k == 0 then p
    else if k - 1 < t then k - 1
    else if k - 1 == t then (if t == 0 then p else t - 1)
    else k - 2
  }

  /** Cell `j` of the output row after the first `k` passes of the time-column copy loop, entered with `index == p`. */
  ghost function PartialCell(r: seq<Cell>, t: nat, p: int, k: nat, j: nat): Cell
    requires k <= |r|
  {
    if j < t - 1 then (if j < k then r[j] else Zero)
    else if j == t - 1 then (if k > t then r[t] else if k > j then r[j] else Zero)
    else if j + 1 < k then r[j + 1]
    else if t == 0 && j == p && k > 0 then r[0]
    else Zero
  }

  /** The value of `index` between rows: zero before the first, and never the last column when the time column lies inside a row of two or more. */
  ghost predicate IndexBetweenRows(index: int, t: nat, n: nat) {
    && 0 <= index
    && (index < n || index == 0)
    && (t < n && n >= 2 ==> index < n - 1)
  }

  /** Pass `k` writes `r[k]` at the new `index` and changes nothing else. */
  lemma PartialCellStep(r: seq<Cell>, t: nat, p: int, k: nat, j: nat)
    requires k < |r|
    ensures PartialCell(r, t, p, k + 1, j) ==
      if j == IndexAfter(t, p, k + 1) then r[k] else PartialCell(r, t, p, k, j)
  {
  }

  /** After a whole row the passes have produced `TimeRow`, and `index` is again fit for the next row. */
  lemma PartialCellComplete(r: seq<Cell>, t: nat, p: int, n: nat)
    requires n <= |r|
    requires IndexBetweenRows(p, t, n)
    ensures forall j :: 0 <= j < n ==> PartialCell(r, t, p, n, j) == TimeRow(r, t, n)[j]
    ensures IndexBetweenRows(IndexAfter(t, p, n), t, n)
  {
  }

  /**
   * Lines 272-279, the time-column copy of row `i`: `tmpData[k]` goes to
   * column `index` for every `k < n`, `index` being updated only when `k` is
   * not the time column. False when the row is too short (the Java code
   * throws).
   */
  method CopyTimeRow(data: array2<Cell>, i: nat, tmpData: seq<Cell>, isTime: nat, n: nat, index0: int)
    returns (index: int, ok: bool)
    modifies data
    requires i < data.Length0 && data.Length1 == n
    requires IndexBetweenRows(index0, isTime, n)
    requires forall j :: 0 <= j < n ==> data[i, j] == Zero
    ensures ok <==> |tmpData| >= n
    ensures forall i', j :: 0 <= i' < data.Length0 && i' != i && 0 <= j < n ==> data[i', j] == old(data[i', j])
    ensures ok ==> IndexBetweenRows(index, isTime, n)
    ensures ok ==> forall j :: 0 <= j < n ==> data[i, j] == TimeRow(tmpData, isTime, n)[j]
  {
    index := index0;
    for k := 0 to n
      invariant k <= |tmpData|
      invariant index == IndexAfter(isTime, index0, k)
      invariant forall j :: 0 <= j < n ==> data[i, j] == PartialCell(tmpData, isTime, index0, k, j)
      invariant forall i', j :: 0 <= i' < data.Length0 && i' != i && 0 <= j < n ==> data[i', j] == old(data[i', j])
    {
      if k >= |tmpData| {
        return index, false;
      }
      if k != isTime {
        index := if k > isTime then k - 1 else k;
      }
      forall j | 0 <= j < n {
        PartialCellStep(tmpData, isTime, index0, k, j);
      }
      data[i, index] := tmpData[k];
    }
    PartialCellComplete(tmpData, isTime, index0, n);
    ok := true;
  }

  /** Lines 286-288, the plain copy of row `i`; false when the row is too short. */
  method CopyPlainRow(data: array2<Cell>, i: nat, tmpData: seq<Cell>, n: nat) returns (ok: bool)
    modifies data
    requires i < data.Length0 && data.Length1 == n
    ensures ok <==> |tmpData| >= n
    ensures forall i', j :: 0 <= i' < data.Length0 && i' != i && 0 <= j < n ==> data[i', j] == old(data[i', j])
    ensures ok ==> forall j :: 0 <= j < n ==> data[i, j] == tmpData[j]
  {
    for k := 0 to n
      invariant k <= |tmpData|
      invariant forall j :: 0 <= j < k ==> data[i, j] == tmpData[j]
      invariant forall i', j :: 0 <= i' < data.Length0 && i' != i && 0 <= j < n ==> data[i', j] == old(data[i', j])
    {
      if k >= |tmpData| {
        return false;
      }
      data[i, k] := tmpData[k];
    }
    ok := true;
  }

  /** Lines 269-289: allocate `double[rows][n]` and copy, dropping or not the time column. */
  method FillTable(results: seq<seq<Cell>>, isTime: int, n: nat) returns (r: Result<array2<Cell>, ParseError>)
    requires isTime >= -1
    ensures Materialise(results, isTime, n).Err? ==> r == Err(Materialise(results, isTime, n).error)
    ensures Materialise(results, isTime, n).Ok? ==>
      r.Ok? && fresh(r.value) && Holds(r.value, Materialise(results, isTime, n).value)
  {
    var data := new Cell[|results|, n]((_, _) => Zero);
    var index := 0;
    for i := 0 to |results|
      invariant isTime > -1 ==> IndexBetweenRows(index, isTime, n)
      invariant forall i' :: 0 <= i' < i ==> |results[i']| >= n
      invariant forall i', j :: 0 <= i' < i && 0 <= j < n ==> data[i', j] == OutRow(results[i'], isTime, n)[j]
      invariant forall i', j :: i <= i' < |results| && 0 <= j < n ==> data[i', j] == Zero
    {
      var ok;
      if isTime > -1 {
        index, ok := CopyTimeRow(data, i, results[i], isTime, n, index);
      } else {
        ok := CopyPlainRow(data, i, results[i], n);
      }
      if !ok {
        assert FirstShortRow(results, n) == i;
        return Err(RowTooShort(i));
      }
    }
    r := Ok(data);
  }

  /**
   * Lines 211-244: the tokens of one line through the fallback chain into a
   * fresh `Double[]`, updating `isTime` and `dataCheck`; `None` when a token
   * throws.
   */
  method CoerceLine(parse: string -> Option<Cell>, toks: seq<string>, isTime: int, dataCheck: nat)
    returns (r: Option<LineState>)
    ensures r == CoercePrefix(parse, toks, |toks|, isTime, dataCheck)
  {
    var tmpArr := new Cell[|toks|];
    var time, check := isTime, dataCheck;
    for colInd := 0 to |toks|
      invariant CoercePrefix(parse, toks, colInd, isTime, dataCheck) == Some(LineState(tmpArr[..colInd], time, check))
    {
      var tok := toks[colInd];
      match parse(tok) {
        case Some(c) =>
          tmpArr[colInd] := c;
        case None =>
          if tok == "-" {
            tmpArr[colInd] := NaN;
          } else if ':' in tok {
            tmpArr[colInd] := NaN;
            if time < 0 {
              time := colInd;
            }
            check := check + 1;
          } else {
            if tok == [] {
              // `toCharArray()[0]` throws and the handler rethrows
              CoercePrefixNoneStays(parse, toks, colInd + 1, |toks|, isTime, dataCheck);
              return None;
            }
            tmpArr[colInd] := Num(CharCode(tok[0]));
            check := check + 1;
          }
      }
      assert tmpArr[..colInd + 1] == tmpArr[..colInd] + [tmpArr[colInd]];
    }
    assert tmpArr[..|toks|] == tmpArr[..];
    r := Some(LineState(tmpArr[..], time, check));
  }

  lemma ParseTableFinishes(parse: string -> Option<Cell>, lines: seq<string>, exitStatus: int, st: ReadState)
    requires ReadLines(parse, Tokenised(lines), |lines|) == Ok(st)
    ensures ParseTable(parse, lines, exitStatus) == Finish(st, exitStatus)
  {
  }

  lemma ParseTableOfReadError(parse: string -> Option<Cell>, lines: seq<string>, exitStatus: int)
    requires ReadLines(parse, Tokenised(lines), |lines|).Err?
    ensures ParseTable(parse, lines, exitStatus) == Err(ReadLines(parse, Tokenised(lines), |lines|).error)
  {
  }

  lemma FinishWidth(st: ReadState, n: nat)
    requires st.last.Some? && |st.last.value| >= 1
    requires n == |st.last.value| - (if st.isTime > -1 then 1 else 0)
    ensures Finish(st, 0) == Materialise(st.results, st.isTime, n)
  {
  }

  /**
   * Lines 211-252, one pass of the line loop: the line's tokens through
   * `CoerceLine`, then the check that the first line holds real data, then
   * the append to `results`.
   */
  method ReadLineStep(parse: string -> Option<Cell>, st: ReadState, toks: seq<string>, lineNo: nat)
    returns (r: Result<ReadState, ParseError>)
    ensures r == ReadLine(parse, st, toks, lineNo)
  {
    var line := CoerceLine(parse, toks, st.isTime, st.dataCheck);
    if line.None? {
      // the exception of lines 238-240 escapes
      return Err(ConversionError(lineNo));
    }
    var tmpArr := line.value.cells;
    var isTime, dataCheck := line.value.isTime, line.value.dataCheck;
    if st.results == [] && dataCheck == |toks| {
      // "Cannot convert"
      return Err(NoData);
    }
    r := Ok(ReadState(st.results + [tmpArr], isTime, dataCheck, Some(toks)));
  }

  /**
   * Lines 255-290, once every line has been read into `results`: the exit
   * status, the width `N` from the last line's tokens `tmpStr`, and the copy.
   */
  method Finalise(parse: string -> Option<Cell>, lines: seq<string>, exitStatus: int,
                  results: seq<seq<Cell>>, isTime: int, dataCheck: nat, tmpStr: Option<seq<string>>)
    returns (r: Result<array2<Cell>, ParseError>)
    requires ReadLines(parse, Tokenised(lines), |lines|) == Ok(ReadState(results, isTime, dataCheck, tmpStr))
    ensures ParseTable(parse, lines, exitStatus).Err? ==> r == Err(ParseTable(parse, lines, exitStatus).error)
    ensures ParseTable(parse, lines, exitStatus).Ok? ==>
      r.Ok? && fresh(r.value) && Holds(r.value, ParseTable(parse, lines, exitStatus).value)
  {
    ghost var st := ReadState(results, isTime, dataCheck, tmpStr);
    ParseTableFinishes(parse, lines, exitStatus, st);
    if exitStatus != 0 {
      return Err(NonZeroExit(exitStatus));
    }
    if tmpStr.None? {
      return Err(EmptyOutput);
    }
    var n := |tmpStr.value|;
    if isTime > -1 {
      n := n - 1;
    }
    FinishWidth(st, n);
    r := FillTable(results, isTime, n);
  }

  /**
   * Lines 191-252, the loop over the lines the process printed: every line
   * read in turn, stopping at the first exception.
   */
  method ReadAll(parse: string -> Option<Cell>, lines: seq<string>) returns (r: Result<ReadState, ParseError>)
    ensures r == ReadLines(parse, Tokenised(lines), |lines|)
  {
    var results: seq<seq<Cell>> := [];
    var isTime := -1;
    var tmpStr: Option<seq<string>> := None;
    var dataCheck: nat := 0;
    var lineNo := 0;
    ghost var rows := Tokenised(lines);
    while lineNo < |lines|
      invariant 0 <= lineNo <= |lines|
      invariant ReadLines(parse, rows, lineNo) == Ok(ReadState(results, isTime, dataCheck, tmpStr))
    {
      var toks := Tokens(lines[lineNo]);
      TokenisedAt(lines, lineNo);
      var step := ReadLineStep(parse, ReadState(results, isTime, dataCheck, tmpStr), toks, lineNo);
      assert ReadLines(parse, rows, lineNo + 1) == step;
      if step.Err? {
        ReadLinesErrStays(parse, rows, lineNo + 1, |lines|);
        return step;
      }
      results, isTime, dataCheck, tmpStr := step.value.results, step.value.isTime, step.value.dataCheck, step.value.last;
      lineNo := lineNo + 1;
    }
    r := Ok(ReadState(results, isTime, dataCheck, tmpStr));
  }

  /**
   * Lines 191-290 of `execToDoubleArray`, for the lines the process printed
   * and its exit status: the result is the table `ParseTable` gives, in a
   * fresh array, or the exception it names.
   */
  method ParseOutput(parse: string -> Option<Cell>, lines: seq<string>, exitStatus: int)
    returns (r: Result<array2<Cell>, ParseError>)
    ensures ParseTable(parse, lines, exitStatus).Err? ==> r == Err(ParseTable(parse, lines, exitStatus).error)
    ensures ParseTable(parse, lines, exitStatus).Ok? ==>
      r.Ok? && fresh(r.value) && Holds(r.value, ParseTable(parse, lines, exitStatus).value)
  {
    var read := ReadAll(parse, lines);
    if read.Err? {
      ParseTableOfReadError(parse, lines, exitStatus);
      return Err(read.error);
    }
    r := Finalise(parse, lines, exitStatus, read.value.results, read.value.isTime, read.value.dataCheck, read.value.last);
  }
}
