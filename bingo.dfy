/**
 * Giant-squid bingo, src/4.ts. A `Board` keeps its 25 values row by row and
 * records every call it finds in the list of its row and of its column; it
 * wins when such a list reaches exactly five entries. A `GameTable` feeds
 * each call to the boards that have not won yet and appends their scores in
 * the order they win.
 *
 * The record of matches per row (and per column), keyed by the row's number
 * as a string in the source, is a `map<int, seq<int>>` here; the numbers are
 * unbounded integers.
 */
module Bingo {

  /** What a board has recorded: matched calls per row and column, the winner flag and the score. */
  datatype BoardState = BoardState(rows: map<int, seq<int>>, cols: map<int, seq<int>>, isWinner: bool, score: int)

  /** The state `new Board(values)` starts in. */
  function Fresh(): BoardState { BoardState(map[], map[], false, 0) }

  /** `findIndex`: the first index holding call, or -1 when there is none. */
  function FirstIndex(values: seq<int>, call: int): (r: int)
    ensures -1 <= r < |values|
    ensures r == -1 <==> call !in values
    ensures r >= 0 ==> values[r] == call && call !in values[..r]
  {
    if |values| == 0 then -1
    else if values[0] == call then 0
    else
      var k := FirstIndex(values[1..], call);
      assert k >= 0 ==> values[..k + 1] == [values[0]] + values[1..][..k];
      if k == -1 then -1 else k + 1
  }

  /** An index holding the call, with no earlier occurrence, is the index `findIndex` returns. */
  lemma {:induction false} FirstIndexAt(values: seq<int>, call: int, i: nat)
    requires i < |values| && values[i] == call && call !in values[..i]
    ensures FirstIndex(values, call) == i
  {
    if i > 0 {
      assert values[..i][0] == values[0];
      assert values[1..][..i - 1] == values[..i][1..];
      FirstIndexAt(values[1..], call, i - 1);
    }
  }

  /** A call recorded under key: a new one-element list, or pushed onto the existing list. */
  function Record(m: map<int, seq<int>>, key: int, call: int): (r: map<int, seq<int>>)
    ensures r.Keys == m.Keys + {key}
    ensures r[key] == (if key in m then m[key] else []) + [call]
    ensures forall k :: k in m && k != key ==> r[k] == m[k]
  {
    if key !in m then m[key := [call]] else m[key := m[key] + [call]]
  }

  /** v is among the calls recorded in some row. */
  predicate Marked(rows: map<int, seq<int>>, v: int) {
    exists k :: k in rows && v in rows[k]
  }

  /** The sum of the values that no row list contains (each occurrence counted). */
  function UnmarkedSum(values: seq<int>, rows: map<int, seq<int>>): (r: int)
    ensures r + MarkedSum(values, rows) == Sum(values)
  {
    if |values| == 0 then 0
    else (if Marked(rows, values[0]) then 0 else values[0]) + UnmarkedSum(values[1..], rows)
  }

  /** `setScore`: the unmarked sum times the call. */
  function Score(values: seq<int>, rows: map<int, seq<int>>, call: int): (r: int)
    ensures (forall v :: v in values ==> !Marked(rows, v)) ==> r == Sum(values) * call
    ensures (forall v :: v in values ==> Marked(rows, v)) ==> r == 0
  {
    UnmarkedExtremes(values, rows);
    UnmarkedSum(values, rows) * call
  }

  /**
   * `Board.addCall`: a call found first at index i is recorded in row i / 5
   * and column i % 5; the board wins, and scores, when either list has just
   * reached five entries. A call the board does not hold changes nothing.
   */
  function AfterCall(values: seq<int>, st: BoardState, call: int): (r: BoardState)
    ensures call !in values ==> r == st
    ensures st.isWinner ==> r.isWinner
  {
    var i := FirstIndex(values, call);
    if i == -1 then st
    else
      var rows := Record(st.rows, i / 5, call);
      var cols := Record(st.cols, i % 5, call);
      if |rows[i / 5]| == 5 || |cols[i % 5]| == 5 then BoardState(rows, cols, true, Score(values, rows, call))
      else BoardState(rows, cols, st.isWinner, st.score)
  }

  /**
   * A call the board holds, first at index i, is pushed onto row i / 5 and
   * column i % 5 (creating them if need be), and every other row and column
   * list is unchanged.
   */
  lemma CallMarksOneRowAndColumn(values: seq<int>, st: BoardState, call: int)
    requires call in values
    ensures var i, after := FirstIndex(values, call), AfterCall(values, st, call);
            && 0 <= i < |values| && values[i] == call && call !in values[..i]
            && after.rows.Keys == st.rows.Keys + {i / 5}
            && after.cols.Keys == st.cols.Keys + {i % 5}
            && after.rows[i / 5] == (if i / 5 in st.rows then st.rows[i / 5] else []) + [call]
            && after.cols[i % 5] == (if i % 5 in st.cols then st.cols[i % 5] else []) + [call]
            && (forall r :: r in st.rows && r != i / 5 ==> after.rows[r] == st.rows[r])
            && (forall c :: c in st.cols && c != i % 5 ==> after.cols[c] == st.cols[c])
  {
  }

  /**
   * The board is a winner after a call exactly when it was one before or
   * the call made its row or column list exactly five long; then the score
   * is the unmarked sum times the call, and otherwise the score is kept.
   */
  lemma WinnerAfterCall(values: seq<int>, st: BoardState, call: int)
    ensures var i, after := FirstIndex(values, call), AfterCall(values, st, call);
            var completes := i >= 0 && (|after.rows[i / 5]| == 5 || |after.cols[i % 5]| == 5);
            && (after.isWinner <==> st.isWinner || completes)
            && after.score == (if completes then Score(values, after.rows, call) else st.score)
  {
  }

  /** Once a board has won it stays a winner, whatever is called. */
  lemma WinnerStays(values: seq<int>, st: BoardState, calls: seq<int>)
    requires st.isWinner
    ensures Feed(values, st, calls).isWinner
  {
    if |calls| > 0 {
      WinnerStays(values, st, calls[..|calls| - 1]);
    }
  }

  /** Calls given to one board in turn. */
  function Feed(values: seq<int>, st: BoardState, calls: seq<int>): BoardState {
    if |calls| == 0 then st else AfterCall(values, Feed(values, st, calls[..|calls| - 1]), calls[|calls| - 1])
  }

  function Sum(values: seq<int>): int {
    if |values| == 0 then 0 else values[0] + Sum(values[1..])
  }

  /** The values that some row list contains, summed. */
  function MarkedSum(values: seq<int>, rows: map<int, seq<int>>): int {
    if |values| == 0 then 0
    else (if Marked(rows, values[0]) then values[0] else 0) + MarkedSum(values[1..], rows)
  }

  /** With nothing marked every value is unmarked; with everything marked none is. */
  lemma {:induction false} UnmarkedExtremes(values: seq<int>, rows: map<int, seq<int>>)
    ensures (forall v :: v in values ==> !Marked(rows, v)) ==> UnmarkedSum(values, rows) == Sum(values)
    ensures (forall v :: v in values ==> Marked(rows, v)) ==> UnmarkedSum(values, rows) == 0
  {
    if |values| > 0 {
      UnmarkedExtremes(values[1..], rows);
      assert forall v :: v in values[1..] ==> v in values;
    }
  }


  /** The line a board index belongs to: its row (i / 5) or its column (i % 5). */
  function LineOf(i: int, byRow: bool): int { if byRow then i / 5 else i % 5 }

  /** A board's record of matches per row, or per column. */
  function Lines(st: BoardState, byRow: bool): map<int, seq<int>> { if byRow then st.rows else st.cols }

  /** Where each call is first found on the board (-1 where it is not). */
  function Positions(values: seq<int>, calls: seq<int>): (pos: seq<int>)
    ensures |pos| == |calls|
  {
    seq(|calls|, j requires 0 <= j < |calls| => FirstIndex(values, calls[j]))
  }

  /** Positions read off index by index: each call sits at its first index on the board. */
  lemma PositionsFrom(values: seq<int>, calls: seq<int>, pos: seq<int>)
    requires |calls| == |pos|
    requires forall j :: 0 <= j < |calls| ==> 0 <= pos[j] < |values| && values[pos[j]] == calls[j] && calls[j] !in values[..pos[j]]
    ensures Positions(values, calls) == pos
  {
    forall j | 0 <= j < |calls| ensures Positions(values, calls)[j] == pos[j] {
      FirstIndexAt(values, calls[j], pos[j]);
    }
  }

  lemma PositionsPrefix(values: seq<int>, calls: seq<int>, k: nat)
    requires k <= |calls|
    ensures Positions(values, calls[..k]) == Positions(values, calls)[..k]
  {
  }

  /** How many of the positions are found ones lying in line r. */
  function LineCount(pos: seq<int>, byRow: bool, r: int): nat {
    if |pos| == 0 then 0
    else (if pos[0] >= 0 && LineOf(pos[0], byRow) == r then 1 else 0) + LineCount(pos[1..], byRow, r)
  }

  lemma {:induction false} LineCountSnoc(pos: seq<int>, p: int, byRow: bool, r: int)
    ensures LineCount(pos + [p], byRow, r) == LineCount(pos, byRow, r) + (if p >= 0 && LineOf(p, byRow) == r then 1 else 0)
  {
    if |pos| > 0 {
      assert (pos + [p])[1..] == pos[1..] + [p];
      LineCountSnoc(pos[1..], p, byRow, r);
    }
  }

  /**
   * After a fresh board has taken some calls, line r has a list exactly when
   * some call was found in it, and the list holds one entry per such call.
   */
  lemma {:induction false} FeedLines(values: seq<int>, calls: seq<int>, byRow: bool, r: int)
    ensures var lines, n := Lines(Feed(values, Fresh(), calls), byRow), LineCount(Positions(values, calls), byRow, r);
            (r in lines <==> n > 0) && (r in lines ==> |lines[r]| == n)
  {
    if |calls| > 0 {
      var init, c := calls[..|calls| - 1], calls[|calls| - 1];
      FeedLines(values, init, byRow, r);
      assert Positions(values, calls) == Positions(values, init) + [FirstIndex(values, c)];
      LineCountSnoc(Positions(values, init), FirstIndex(values, c), byRow, r);
    }
  }

  /** Recording a call under any key marks that call and keeps every earlier mark. */
  lemma MarkedRecord(rows: map<int, seq<int>>, key: int, call: int, v: int)
    ensures Marked(Record(rows, key, call), v) <==> Marked(rows, v) || v == call
  {
    var r := Record(rows, key, call);
    if Marked(r, v) && v != call {
      var k :| k in r && v in r[k];
      if k == key {
        assert key in rows && v in rows[key];
      } else {
        assert v in rows[k];
      }
    }
    if v == call {
      assert v in r[key];
    } else if Marked(rows, v) {
      var k :| k in rows && v in rows[k];
      assert v in r[k] by { if k == key { assert r[k] == rows[k] + [call]; } }
    }
  }

  /** After a fresh board has taken some calls, a value is marked exactly when it is on the board and was called. */
  lemma {:induction false} FeedMarked(values: seq<int>, calls: seq<int>, v: int)
    ensures Marked(Feed(values, Fresh(), calls).rows, v) <==> v in values && v in calls
  {
    if |calls| > 0 {
      var init, c := calls[..|calls| - 1], calls[|calls| - 1];
      FeedMarked(values, init, v);
      assert calls == init + [c];
      var i := FirstIndex(values, c);
      if i >= 0 {
        MarkedRecord(Feed(values, Fresh(), init).rows, i / 5, c, v);
      }
    }
  }

  /** The board's values that were not called, summed. */
  function UncalledSum(values: seq<int>, calls: seq<int>): int {
    if |values| == 0 then 0
    else (if values[0] in calls then 0 else values[0]) + UncalledSum(values[1..], calls)
  }

  /** The uncalled sum of a board split in two is the sum of the parts' uncalled sums. */
  lemma {:induction false} UncalledSumAppend(a: seq<int>, b: seq<int>, calls: seq<int>)
    ensures UncalledSum(a + b, calls) == UncalledSum(a, calls) + UncalledSum(b, calls)
  {
    if |a| > 0 {
      assert (a + b)[1..] == a[1..] + b;
      UncalledSumAppend(a[1..], b, calls);
    } else {
      assert a + b == b;
    }
  }

  /** Where the marks are exactly the called values, the unmarked sum is the sum of the values not called. */
  lemma {:induction false} UnmarkedIsUncalled(values: seq<int>, rows: map<int, seq<int>>, calls: seq<int>)
    requires forall v :: v in values ==> (Marked(rows, v) <==> v in calls)
    ensures UnmarkedSum(values, rows) == UncalledSum(values, calls)
  {
    if |values| > 0 {
      assert values[0] in values;
      assert forall v :: v in values[1..] ==> v in values;
      UnmarkedIsUncalled(values[1..], rows, calls);
    }
  }

  /**
   * A 5 by 5 board on which no row and no column has five calls found in it
   * has not won.
   */
  lemma {:induction false} NoLineFull(values: seq<int>, calls: seq<int>)
    requires |values| == 25
    requires forall r :: 0 <= r < 5 ==> LineCount(Positions(values, calls), true, r) < 5 && LineCount(Positions(values, calls), false, r) < 5
    ensures !Feed(values, Fresh(), calls).isWinner
  {
    if |calls| > 0 {
      var init, c := calls[..|calls| - 1], calls[|calls| - 1];
      var i := FirstIndex(values, c);
      assert Positions(values, calls) == Positions(values, init) + [i];
      forall r | 0 <= r < 5
        ensures LineCount(Positions(values, init), true, r) < 5 && LineCount(Positions(values, init), false, r) < 5
      {
        LineCountSnoc(Positions(values, init), i, true, r);
        LineCountSnoc(Positions(values, init), i, false, r);
      }
      NoLineFull(values, init);
      if i >= 0 {
        FeedLines(values, calls, true, i / 5);
        FeedLines(values, calls, false, i % 5);
      }
    }
  }

  /** No call is made twice. */
  predicate Distinct(calls: seq<int>) {
    forall k, l :: 0 <= k < l < |calls| ==> calls[k] != calls[l]
  }

  /** The five indices of row r (byRow) or of column r of a 5 by 5 board. */
  function LineCells(byRow: bool, r: int): set<int> {
    if byRow then {5 * r, 5 * r + 1, 5 * r + 2, 5 * r + 3, 5 * r + 4} else {r, r + 5, r + 10, r + 15, r + 20}
  }

  /** Positions that do not repeat, and that in line r all lie in cells, number at most |cells| in that line. */
  lemma {:induction false} LineCountBound(pos: seq<int>, byRow: bool, r: int, cells: set<int>)
    requires forall k, l :: 0 <= k < l < |pos| && pos[k] >= 0 ==> pos[k] != pos[l]
    requires forall k :: 0 <= k < |pos| && pos[k] >= 0 && LineOf(pos[k], byRow) == r ==> pos[k] in cells
    ensures LineCount(pos, byRow, r) <= |cells|
  {
    if |pos| > 0 {
      var rest := pos[1..];
      assert forall k :: 0 <= k < |rest| ==> rest[k] == pos[k + 1];
      if pos[0] >= 0 && LineOf(pos[0], byRow) == r {
        LineCountBound(rest, byRow, r, cells - {pos[0]});
      } else {
        LineCountBound(rest, byRow, r, cells);
      }
    }
  }

  /** The five cells of a line are five different indices. */
  lemma LineCellsCount(byRow: bool, r: int)
    ensures |LineCells(byRow, r)| == 5
  {
  }

  /** Every index of the board lies among the cells of its own row and its own column. */
  lemma InLineCells(p: int, byRow: bool)
    requires 0 <= p < 25
    ensures p in LineCells(byRow, LineOf(p, byRow)) && |LineCells(byRow, LineOf(p, byRow)) - {p}| == 4
  {
    var r := LineOf(p, byRow);
    var line := LineCells(byRow, r);
    if byRow {
      assert p == 5 * r + p % 5;
    } else {
      assert p == r + 5 * (p / 5);
    }
    LineCellsCount(byRow, r);
    var rest := line - {p};
    assert line == rest + {p} && p !in rest;
  }

  /**
   * When no call repeats, a line that still holds a value not called has
   * fewer than five calls recorded in it.
   */
  lemma LineGap(values: seq<int>, calls: seq<int>, byRow: bool, j: int)
    requires |values| == 25 && 0 <= j < 25 && values[j] !in calls && Distinct(calls)
    ensures LineCount(Positions(values, calls), byRow, LineOf(j, byRow)) < 5
  {
    var pos, r := Positions(values, calls), LineOf(j, byRow);
    var line := LineCells(byRow, r);
    InLineCells(j, byRow);
    forall k | 0 <= k < |pos| && pos[k] >= 0 && LineOf(pos[k], byRow) == r
      ensures pos[k] in line - {j}
    {
      InLineCells(pos[k], byRow);
      assert values[pos[k]] == calls[k];
    }
    forall k, l | 0 <= k < l < |pos| && pos[k] >= 0
      ensures pos[k] != pos[l]
    {
      assert values[pos[k]] == calls[k];
    }
    LineCountBound(pos, byRow, r, line - {j});
  }

  /** Each of the five rows (or columns) holds its gap: a value not called. */
  predicate Gaps(values: seq<int>, calls: seq<int>, gaps: seq<int>, byRow: bool) {
    |gaps| == 5 && forall r :: 0 <= r < 5 ==> 0 <= gaps[r] < |values| && LineOf(gaps[r], byRow) == r && values[gaps[r]] !in calls
  }

  /**
   * A 5 by 5 board with a value not called in every row and every column has
   * not won, as long as no call repeats (a repeated call is recorded twice).
   */
  lemma OpenWithGaps(values: seq<int>, calls: seq<int>, rowGaps: seq<int>, colGaps: seq<int>)
    requires |values| == 25 && Distinct(calls)
    requires Gaps(values, calls, rowGaps, true) && Gaps(values, calls, colGaps, false)
    ensures !Feed(values, Fresh(), calls).isWinner
  {
    forall r | 0 <= r < 5
      ensures LineCount(Positions(values, calls), true, r) < 5 && LineCount(Positions(values, calls), false, r) < 5
    {
      LineGap(values, calls, true, rowGaps[r]);
      LineGap(values, calls, false, colGaps[r]);
    }
    NoLineFull(values, calls);
  }

  /**
   * A call that completes its row (byRow) or its column of a fresh board's
   * record makes the board a winner, scoring the values not called times
   * that call.
   */
  lemma {:induction false} WinsOnLine(values: seq<int>, calls: seq<int>, byRow: bool)
    requires |calls| > 0 && calls[|calls| - 1] in values
    requires LineCount(Positions(values, calls), byRow, LineOf(FirstIndex(values, calls[|calls| - 1]), byRow)) == 5
    ensures Feed(values, Fresh(), calls).isWinner
    ensures Feed(values, Fresh(), calls).score == UncalledSum(values, calls) * calls[|calls| - 1]
  {
    var init, c := calls[..|calls| - 1], calls[|calls| - 1];
    var st := Feed(values, Fresh(), calls);
    FeedLines(values, calls, byRow, LineOf(FirstIndex(values, c), byRow));
    WinnerAfterCall(values, Feed(values, Fresh(), init), c);
    forall v | v in values ensures Marked(st.rows, v) <==> v in calls {
      FeedMarked(values, calls, v);
    }
    UnmarkedIsUncalled(values, st.rows, calls);
  }

  class Board {
    const values: seq<int>
    var rows: map<int, seq<int>>
    var cols: map<int, seq<int>>
    var isWinner: bool
    var score: int

    /** The board's fields as a BoardState. */
    function State(): BoardState
      reads this
    {
      BoardState(rows, cols, isWinner, score)
    }

    /** `new Board(values)`: no matches, not a winner, score 0. */
    constructor (values: seq<int>)
      ensures this.values == values && State() == Fresh()
    {
      this.values := values;
      rows := map[];
      cols := map[];
      isWinner := false;
      score := 0;
    }

    /** `addCall`: the board moves to the state AfterCall gives. */
    method AddCall(call: int)
      modifies this
      ensures State() == AfterCall(values, old(State()), call)
    {
      var matchIdx := FirstIndex(values, call);
      if matchIdx != -1 {
        var row, col := matchIdx / 5, matchIdx % 5;
        if row !in rows {
          rows := rows[row := [call]];
        } else {
          rows := rows[row := rows[row] + [call]];
        }
        if col !in cols {
          cols := cols[col := [call]];
        } else {
          cols := cols[col := cols[col] + [call]];
        }
        if |rows[row]| == 5 || |cols[col]| == 5 {
          isWinner := true;
          score := Score(values, rows, call);
        }
      }
    }

    /** `getIsWinner`: reads the flag and changes nothing. */
    method GetIsWinner() returns (winner: bool)
      ensures winner == State().isWinner
    {
      winner := isWinner;
    }

    /** `getScore`: reads the score and changes nothing. */
    method GetScore() returns (s: int)
      ensures s == State().score
    {
      s := score;
    }
  }

  /** The boards after one call: winners are skipped, every other board takes the call. */
  function TableAfter(values: seq<seq<int>>, states: seq<BoardState>, call: int): (r: seq<BoardState>)
    requires |values| == |states|
    ensures |r| == |states|
  {
    seq(|states|, i requires 0 <= i < |states| => if states[i].isWinner then states[i] else AfterCall(values[i], states[i], call))
  }

  /** Board j was fed the call and won on it. */
  predicate WinsOn(values: seq<seq<int>>, states: seq<BoardState>, call: int, j: int)
    requires |values| == |states| && 0 <= j < |states|
  {
    !states[j].isWinner && AfterCall(values[j], states[j], call).isWinner
  }

  /** The scores pushed while the call goes through the first k boards, in board order. */
  function NewScores(values: seq<seq<int>>, states: seq<BoardState>, call: int, k: nat): (r: seq<int>)
    requires |values| == |states| && k <= |states|
    ensures |r| <= k
  {
    if k == 0 then []
    else NewScores(values, states, call, k - 1)
         + (if WinsOn(values, states, call, k - 1) then [AfterCall(values[k - 1], states[k - 1], call).score] else [])
  }

  /** How many of the first k boards won on the call. */
  function WinsBefore(values: seq<seq<int>>, states: seq<BoardState>, call: int, k: nat): nat
    requires |values| == |states| && k <= |states|
  {
    if k == 0 then 0 else WinsBefore(values, states, call, k - 1) + (if WinsOn(values, states, call, k - 1) then 1 else 0)
  }

  /**
   * One call pushes one score per board that wins on it, in board order:
   * the board j that wins sits at the position counting the boards before
   * it that also won, with its new score.
   */
  lemma {:induction false} NewScoresOrder(values: seq<seq<int>>, states: seq<BoardState>, call: int, k: nat)
    requires |values| == |states| && k <= |states|
    ensures |NewScores(values, states, call, k)| == WinsBefore(values, states, call, k)
    ensures forall j :: 0 <= j < k && WinsOn(values, states, call, j) ==>
              && WinsBefore(values, states, call, j) < |NewScores(values, states, call, k)|
              && NewScores(values, states, call, k)[WinsBefore(values, states, call, j)] == TableAfter(values, states, call)[j].score
  {
    if k > 0 {
      NewScoresOrder(values, states, call, k - 1);
      forall j | 0 <= j < k && WinsOn(values, states, call, j)
        ensures WinsBefore(values, states, call, j) < |NewScores(values, states, call, k)|
      {
        WinsBeforeGrows(values, states, call, j, k - 1);
      }
    }
  }

  lemma {:induction false} WinsBeforeGrows(values: seq<seq<int>>, states: seq<BoardState>, call: int, j: nat, k: nat)
    requires |values| == |states| && j <= k <= |states|
    ensures WinsBefore(values, states, call, j) <= WinsBefore(values, states, call, k)
    decreases k - j
  {
    if j < k {
      WinsBeforeGrows(values, states, call, j, k - 1);
    }
  }

  /** The number of winners among the first k boards. */
  function Winners(states: seq<BoardState>, k: nat): nat
    requires k <= |states|
  {
    if k == 0 then 0 else Winners(states, k - 1) + (if states[k - 1].isWinner then 1 else 0)
  }

  /** A call turns exactly the boards that win on it into new winners; earlier winners stay. */
  lemma {:induction false} WinnersAfter(values: seq<seq<int>>, states: seq<BoardState>, call: int, k: nat)
    requires |values| == |states| && k <= |states|
    ensures Winners(TableAfter(values, states, call), k) == Winners(states, k) + WinsBefore(values, states, call, k)
  {
    if k > 0 {
      WinnersAfter(values, states, call, k - 1);
      if states[k - 1].isWinner {
        WinnerStays(values[k - 1], states[k - 1], [call]);
      }
    }
  }

  lemma {:induction false} WinnersBound(states: seq<BoardState>, k: nat)
    requires k <= |states|
    ensures Winners(states, k) <= k
  {
    if k > 0 {
      WinnersBound(states, k - 1);
    }
  }

  /** The table: one state per board and the scores pushed so far. */
  datatype Table = Table(states: seq<BoardState>, scores: seq<int>)

  /** `getAllWinningScores` on values: a fresh table given every call in turn. */
  function Play(values: seq<seq<int>>, calls: seq<int>): (t: Table)
    ensures |t.states| == |values|
  {
    if |calls| == 0 then Table(seq(|values|, i => Fresh()), [])
    else
      var t := Play(values, calls[..|calls| - 1]);
      var call := calls[|calls| - 1];
      Table(TableAfter(values, t.states, call), t.scores + NewScores(values, t.states, call, |values|))
  }

  /** The table skips only winners: a board that has not won has taken every call, as if alone. */
  lemma {:induction false} PlayFeedsBoard(values: seq<seq<int>>, calls: seq<int>, b: nat)
    requires b < |values| && !Feed(values[b], Fresh(), calls).isWinner
    ensures Play(values, calls).states[b] == Feed(values[b], Fresh(), calls)
  {
    if |calls| > 0 {
      var init, c := calls[..|calls| - 1], calls[|calls| - 1];
      WinnerAfterCall(values[b], Feed(values[b], Fresh(), init), c);
      PlayFeedsBoard(values, init, b);
    }
  }

  /**
   * Every board wins at most once: the scores are exactly one per winning
   * board, so there are never more scores than boards.
   */
  lemma {:induction false} OneScorePerWinner(values: seq<seq<int>>, calls: seq<int>)
    ensures |Play(values, calls).scores| == Winners(Play(values, calls).states, |values|) <= |values|
  {
    var t := Play(values, calls);
    if |calls| == 0 {
      NoWinners(t.states, |values|);
    } else {
      var before := Play(values, calls[..|calls| - 1]);
      OneScorePerWinner(values, calls[..|calls| - 1]);
      WinnersAfter(values, before.states, calls[|calls| - 1], |values|);
      NewScoresOrder(values, before.states, calls[|calls| - 1], |values|);
    }
    WinnersBound(t.states, |values|);
  }

  lemma {:induction false} NoWinners(states: seq<BoardState>, k: nat)
    requires k <= |states| && forall i :: 0 <= i < |states| ==> !states[i].isWinner
    ensures Winners(states, k) == 0
  {
    if k > 0 {
      NoWinners(states, k - 1);
    }
  }

  /** No board before k won on the call, so a winner at k is the first to push a score for it. */
  lemma {:induction false} NoWinsBefore(values: seq<seq<int>>, states: seq<BoardState>, call: int, k: nat)
    requires |values| == |states| && k <= |states|
    requires forall j :: 0 <= j < k ==> !WinsOn(values, states, call, j)
    ensures WinsBefore(values, states, call, k) == 0
  {
    if k > 0 {
      NoWinsBefore(values, states, call, k - 1);
    }
  }

  /**
   * The first score is that of the first winner: when no board has won after
   * the first k - 1 calls, and on call k board w wins while no board before
   * it does, the first score pushed is board w's score after those k calls.
   */
  lemma FirstScore(values: seq<seq<int>>, calls: seq<int>, k: nat, w: nat)
    requires 0 < k <= |calls| && w < |values|
    requires forall b :: 0 <= b < |values| ==> !Feed(values[b], Fresh(), calls[..k - 1]).isWinner
    requires forall b :: 0 <= b < w ==> !Feed(values[b], Fresh(), calls[..k]).isWinner
    requires Feed(values[w], Fresh(), calls[..k]).isWinner
    ensures |Play(values, calls).scores| > 0
    ensures Play(values, calls).scores[0] == Feed(values[w], Fresh(), calls[..k]).score
  {
    var now := calls[..k];
    assert now[..k - 1] == calls[..k - 1];
    FirstWinnerScores(values, now, w);
    ScoresOnlyGrow(values, calls, k);
  }

  /** FirstScore when the winning call is the last one: the scores start with board w's. */
  lemma FirstWinnerScores(values: seq<seq<int>>, calls: seq<int>, w: nat)
    requires 0 < |calls| && w < |values|
    requires forall b :: 0 <= b < |values| ==> !Feed(values[b], Fresh(), calls[..|calls| - 1]).isWinner
    requires forall b :: 0 <= b < w ==> !Feed(values[b], Fresh(), calls).isWinner
    requires Feed(values[w], Fresh(), calls).isWinner
    ensures |Play(values, calls).scores| > 0
    ensures Play(values, calls).scores[0] == Feed(values[w], Fresh(), calls).score
  {
    var init, call := calls[..|calls| - 1], calls[|calls| - 1];
    var before := Play(values, init);
    forall b | 0 <= b < |values|
      ensures before.states[b] == Feed(values[b], Fresh(), init) && !before.states[b].isWinner
    {
      PlayFeedsBoard(values, init, b);
    }
    OneScorePerWinner(values, init);
    NoWinners(before.states, |values|);
    NoWinsBefore(values, before.states, call, w);
    NewScoresOrder(values, before.states, call, |values|);
  }

  /** Scores are only ever appended: the scores after some calls begin the scores after more calls. */
  lemma {:induction false} ScoresOnlyGrow(values: seq<seq<int>>, calls: seq<int>, k: nat)
    requires k <= |calls|
    ensures var early, late := Play(values, calls[..k]).scores, Play(values, calls).scores;
            |early| <= |late| && late[..|early|] == early
    decreases |calls| - k
  {
    if k < |calls| {
      var init := calls[..|calls| - 1];
      ScoresOnlyGrow(values, init, k);
      assert init[..k] == calls[..k];
    } else {
      assert calls[..k] == calls;
    }
  }

  class GameTable {
    const boards: seq<Board>
    var scores: seq<int>

    /** Every board object is a different board. */
    predicate Valid() {
      forall i, j :: 0 <= i < |boards| && 0 <= j < |boards| && i != j ==> boards[i] != boards[j]
    }

    /** The values of every board. */
    function Values(): (r: seq<seq<int>>)
      ensures |r| == |boards|
    {
      seq(|boards|, i requires 0 <= i < |boards| => boards[i].values)
    }

    /** The state of every board. */
    function States(): (r: seq<BoardState>)
      reads boards
      ensures |r| == |boards|
    {
      seq(|boards|, i reads boards requires 0 <= i < |boards| => boards[i].State())
    }

    /** `new GameTable(boardsValues)`: one fresh board per list of values and no scores. */
    constructor (boardsValues: seq<seq<int>>)
      ensures Valid() && Values() == boardsValues && scores == []
      ensures States() == seq(|boardsValues|, i => Fresh())
      ensures forall i :: 0 <= i < |boards| ==> fresh(boards[i])
    {
      var made: seq<Board> := [];
      var i := 0;
      while i < |boardsValues|
        invariant 0 <= i <= |boardsValues| && |made| == i
        invariant forall j :: 0 <= j < i ==> fresh(made[j]) && made[j].values == boardsValues[j] && made[j].State() == Fresh()
        invariant forall j, k :: 0 <= j < i && 0 <= k < i && j != k ==> made[j] != made[k]
      {
        var board := new Board(boardsValues[i]);
        made := made + [board];
        i := i + 1;
      }
      boards := made;
      scores := [];
    }

    /**
     * `addCall`: boards that have not won take the call, in order, and each
     * one that wins on it pushes its score.
     */
    method AddCall(call: int)
      requires Valid()
      modifies this, boards
      ensures States() == TableAfter(Values(), old(States()), call)
      ensures scores == old(scores) + NewScores(Values(), old(States()), call, |boards|)
    {
      ghost var before, values := States(), Values();
      ghost var after := TableAfter(values, before, call);
      var i := 0;
      while i < |boards|
        invariant 0 <= i <= |boards|
        invariant forall j :: 0 <= j < |boards| ==> boards[j].State() == if j < i then after[j] else before[j]
        invariant scores == old(scores) + NewScores(values, before, call, i)
      {
        assert boards[i].values == values[i];
        assert forall j :: 0 <= j < |boards| && j != i ==> boards[j] != boards[i];
        scores := Offer(boards[i], call, scores);
        assert boards[i].State() == after[i];
        i := i + 1;
      }
      assert States() == after;
    }

    /** `getScores`: the scores so far, changing nothing. */
    method GetScores() returns (r: seq<int>)
      ensures r == scores
    {
      r := scores;
    }
  }

  /**
   * The `forEach` callback of `GameTable.addCall` for one board: a board that
   * has not won takes the call and, if it wins on it, pushes its score.
   */
  method Offer(board: Board, call: int, scores: seq<int>) returns (pushed: seq<int>)
    modifies board
    ensures board.State() == if old(board.State()).isWinner then old(board.State())
                             else AfterCall(board.values, old(board.State()), call)
    ensures pushed == scores + if !old(board.State()).isWinner && board.State().isWinner then [board.State().score] else []
  {
    pushed := scores;
    var winner := board.GetIsWinner();
    if !winner {
      board.AddCall(call);
      var nowWinner := board.GetIsWinner();
      if nowWinner {
        var s := board.GetScore();
        pushed := pushed + [s];
      }
    }
  }

  /** `getAllWinningScores`: the scores a fresh table pushes over the call sequence. */
  method GetAllWinningScores(callSequence: seq<int>, boardValues: seq<seq<int>>) returns (scores: seq<int>)
    ensures scores == Play(boardValues, callSequence).scores
    ensures |scores| <= |boardValues|
  {
    var gameTable := new GameTable(boardValues);
    var i := 0;
    while i < |callSequence|
      invariant 0 <= i <= |callSequence|
      invariant gameTable.Valid() && gameTable.Values() == boardValues
      invariant gameTable.States() == Play(boardValues, callSequence[..i]).states
      invariant gameTable.scores == Play(boardValues, callSequence[..i]).scores
      invariant forall j :: 0 <= j < |gameTable.boards| ==> fresh(gameTable.boards[j])
    {
      assert callSequence[..i + 1][..i] == callSequence[..i];
      gameTable.AddCall(callSequence[i]);
      i := i + 1;
    }
    assert callSequence[..i] == callSequence;
    scores := gameTable.GetScores();
    OneScorePerWinner(boardValues, callSequence);
  }
}
