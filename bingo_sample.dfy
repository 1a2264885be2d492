/**
 * The example game of src/4.ts:93-115: three 5 by 5 boards and 27 calls,
 * none of them repeated. After eleven calls every row and every column of
 * every board still holds a value not called, and after twelve so do the
 * first two boards; the twelfth call, 24, completes the top row of the
 * third board, whose values not called add up to 188. So the first score
 * recorded is 188 * 24 = 4512.
 */
module BingoSample {
  import opened Bingo

  /** A value not among some calls is not among the first `k` of them either. */
  lemma GapsShorter(values: seq<int>, calls: seq<int>, k: nat, rowGaps: seq<int>, colGaps: seq<int>)
    requires k <= |calls|
    requires Gaps(values, calls, rowGaps, true) && Gaps(values, calls, colGaps, false)
    ensures Gaps(values, calls[..k], rowGaps, true) && Gaps(values, calls[..k], colGaps, false)
  {
    assert forall x :: x in calls[..k] ==> x in calls;
  }

  /** No call repeats among the first `k` calls either. */
  lemma DistinctPrefix(calls: seq<int>, k: nat)
    requires k <= |calls| && Distinct(calls)
    ensures Distinct(calls[..k])
  {
  }

  /** The sample's first twelve calls do not repeat. */
  lemma SampleCallsDistinct(calls: seq<int>)
    requires calls == [7, 4, 9, 5, 11, 17, 23, 2, 0, 14, 21, 24]
    ensures Distinct(calls)
  {
  }

  /** The first board still has a value not called in every row and column after twelve calls. */
  lemma FirstBoardGaps(values: seq<int>, calls: seq<int>)
    requires values == [22, 13, 17, 11, 0, 8, 2, 23, 4, 24, 21, 9, 14, 16, 7, 6, 10, 3, 18, 5, 1, 12, 20, 15, 19]
    requires calls == [7, 4, 9, 5, 11, 17, 23, 2, 0, 14, 21, 24]
    ensures Gaps(values, calls, [0, 5, 13, 15, 20], true) && Gaps(values, calls, [0, 1, 17, 13, 24], false)
  {
  }

  /** The second board still has a value not called in every row and column after twelve calls. */
  lemma SecondBoardGaps(values: seq<int>, calls: seq<int>)
    requires values == [3, 15, 0, 2, 22, 9, 18, 13, 17, 5, 19, 8, 7, 25, 23, 20, 11, 10, 24, 4, 14, 21, 16, 12, 6]
    requires calls == [7, 4, 9, 5, 11, 17, 23, 2, 0, 14, 21, 24]
    ensures Gaps(values, calls, [0, 6, 10, 15, 22], true) && Gaps(values, calls, [0, 1, 7, 13, 4], false)
  {
  }

  /** The third board still has a value not called in every row and column after eleven calls. */
  lemma ThirdBoardGaps(values: seq<int>, calls: seq<int>)
    requires values == [14, 21, 17, 24, 4, 10, 16, 15, 9, 19, 18, 8, 23, 26, 20, 22, 11, 13, 6, 5, 2, 0, 12, 3, 7]
    requires calls == [7, 4, 9, 5, 11, 17, 23, 2, 0, 14, 21]
    ensures Gaps(values, calls, [3, 5, 10, 15, 22], true) && Gaps(values, calls, [5, 6, 7, 3, 9], false)
  {
  }

  /** Where the first twelve calls lie on the third board. */
  lemma ThirdBoardPositions(values: seq<int>, calls: seq<int>)
    requires values == [14, 21, 17, 24, 4, 10, 16, 15, 9, 19, 18, 8, 23, 26, 20, 22, 11, 13, 6, 5, 2, 0, 12, 3, 7]
    requires calls == [7, 4, 9, 5, 11, 17, 23, 2, 0, 14, 21, 24]
    ensures Positions(values, calls) == [24, 4, 8, 19, 16, 2, 12, 20, 21, 0, 1, 3]
  {
    var pos := [24, 4, 8, 19, 16, 2, 12, 20, 21, 0, 1, 3];
    ThirdBoardFirstSix(values, calls, pos);
    ThirdBoardLastSix(values, calls, pos);
    PositionsFrom(values, calls, pos);
  }

  /** The first six calls lie first at positions 24, 4, 8, 19, 16 and 2 of the third board. */
  lemma ThirdBoardFirstSix(values: seq<int>, calls: seq<int>, pos: seq<int>)
    requires values == [14, 21, 17, 24, 4, 10, 16, 15, 9, 19, 18, 8, 23, 26, 20, 22, 11, 13, 6, 5, 2, 0, 12, 3, 7]
    requires calls == [7, 4, 9, 5, 11, 17, 23, 2, 0, 14, 21, 24]
    requires pos == [24, 4, 8, 19, 16, 2, 12, 20, 21, 0, 1, 3]
    ensures forall j :: 0 <= j < 6 ==> 0 <= pos[j] < |values| && values[pos[j]] == calls[j] && calls[j] !in values[..pos[j]]
  {
    forall j | 0 <= j < 6
      ensures 0 <= pos[j] < |values| && values[pos[j]] == calls[j] && calls[j] !in values[..pos[j]]
    {
      if j == 0 {
        assert values[24] == 7 && 7 !in values[..24];
      } else if j == 1 {
        assert values[4] == 4 && 4 !in values[..4];
      } else if j == 2 {
        assert values[8] == 9 && 9 !in values[..8];
      } else if j == 3 {
        assert values[19] == 5 && 5 !in values[..19];
      } else if j == 4 {
        assert values[16] == 11 && 11 !in values[..16];
      } else {
        assert values[2] == 17 && 17 !in values[..2];
      }
    }
  }

  /** The last six calls lie first at positions 12, 20, 21, 0, 1 and 3 of the third board. */
  lemma ThirdBoardLastSix(values: seq<int>, calls: seq<int>, pos: seq<int>)
    requires values == [14, 21, 17, 24, 4, 10, 16, 15, 9, 19, 18, 8, 23, 26, 20, 22, 11, 13, 6, 5, 2, 0, 12, 3, 7]
    requires calls == [7, 4, 9, 5, 11, 17, 23, 2, 0, 14, 21, 24]
    requires pos == [24, 4, 8, 19, 16, 2, 12, 20, 21, 0, 1, 3]
    ensures forall j :: 6 <= j < 12 ==> 0 <= pos[j] < |values| && values[pos[j]] == calls[j] && calls[j] !in values[..pos[j]]
  {
    forall j | 6 <= j < 12
      ensures 0 <= pos[j] < |values| && values[pos[j]] == calls[j] && calls[j] !in values[..pos[j]]
    {
      if j == 6 {
        assert values[12] == 23 && 23 !in values[..12];
      } else if j == 7 {
        assert values[20] == 2 && 2 !in values[..20];
      } else if j == 8 {
        assert values[21] == 0 && 0 !in values[..21];
      } else if j == 9 {
        assert values[0] == 14 && 14 !in values[..0];
      } else if j == 10 {
        assert values[1] == 21 && 21 !in values[..1];
      } else {
        assert values[3] == 24 && 24 !in values[..3];
      }
    }
  }

  lemma ThirdBoardRow0Uncalled() ensures UncalledSum([14, 21, 17, 24, 4], [7, 4, 9, 5, 11, 17, 23, 2, 0, 14, 21, 24]) == 0 {}

  lemma ThirdBoardRow1Uncalled() ensures UncalledSum([10, 16, 15, 9, 19], [7, 4, 9, 5, 11, 17, 23, 2, 0, 14, 21, 24]) == 60 {}

  lemma ThirdBoardRow2Uncalled() ensures UncalledSum([18, 8, 23, 26, 20], [7, 4, 9, 5, 11, 17, 23, 2, 0, 14, 21, 24]) == 72 {}

  lemma ThirdBoardRow3Uncalled() ensures UncalledSum([22, 11, 13, 6, 5], [7, 4, 9, 5, 11, 17, 23, 2, 0, 14, 21, 24]) == 41 {}

  lemma ThirdBoardRow4Uncalled() ensures UncalledSum([2, 0, 12, 3, 7], [7, 4, 9, 5, 11, 17, 23, 2, 0, 14, 21, 24]) == 15 {}

  /** The uncalled sum of a board is the sum of its rows' uncalled sums. */
  lemma {:induction false} UncalledByRows(values: seq<int>, calls: seq<int>, r0: seq<int>, r1: seq<int>, r2: seq<int>, r3: seq<int>, r4: seq<int>)
    requires values == r0 + (r1 + (r2 + (r3 + r4)))
    ensures UncalledSum(values, calls)
            == UncalledSum(r0, calls) + UncalledSum(r1, calls) + UncalledSum(r2, calls) + UncalledSum(r3, calls) + UncalledSum(r4, calls)
  {
    var t3 := r3 + r4;
    var t2 := r2 + t3;
    var t1 := r1 + t2;
    UncalledSumAppend(r3, r4, calls);
    UncalledSumAppend(r2, t3, calls);
    UncalledSumAppend(r1, t2, calls);
    UncalledSumAppend(r0, t1, calls);
  }

  /** The third board's values not among the first twelve calls add up to 188. */
  lemma ThirdBoardUncalled(values: seq<int>, calls: seq<int>)
    requires values == [14, 21, 17, 24, 4, 10, 16, 15, 9, 19, 18, 8, 23, 26, 20, 22, 11, 13, 6, 5, 2, 0, 12, 3, 7]
    requires calls == [7, 4, 9, 5, 11, 17, 23, 2, 0, 14, 21, 24]
    ensures UncalledSum(values, calls) == 188
  {
    UncalledByRows(values, calls, [14, 21, 17, 24, 4], [10, 16, 15, 9, 19], [18, 8, 23, 26, 20], [22, 11, 13, 6, 5], [2, 0, 12, 3, 7]);
    ThirdBoardRow0Uncalled();
    ThirdBoardRow1Uncalled();
    ThirdBoardRow2Uncalled();
    ThirdBoardRow3Uncalled();
    ThirdBoardRow4Uncalled();
  }

  /** The twelfth call, 24, sits in the top row of the third board, and that row is then full. */
  lemma ThirdBoardTopRow() ensures LineCount([24, 4, 8, 19, 16, 2, 12, 20, 21, 0, 1, 3], true, 0) == 5 {}

  /**
   * A board on which the first twelve calls lie where they lie on the third
   * board wins with the twelfth call, scoring its uncalled sum times 24.
   */
  lemma ThirdBoardWins(values: seq<int>, calls: seq<int>)
    requires |calls| == 12 && calls[11] == 24
    requires Positions(values, calls) == [24, 4, 8, 19, 16, 2, 12, 20, 21, 0, 1, 3]
    ensures Feed(values, Fresh(), calls).isWinner
    ensures Feed(values, Fresh(), calls).score == UncalledSum(values, calls) * 24
  {
    assert FirstIndex(values, calls[11]) == Positions(values, calls)[11] == 3;
    ThirdBoardTopRow();
    WinsOnLine(values, calls, true);
  }

  /** The first board has not won after eleven calls, nor after twelve. */
  lemma FirstBoardOpen(values: seq<int>, calls: seq<int>)
    requires values == [22, 13, 17, 11, 0, 8, 2, 23, 4, 24, 21, 9, 14, 16, 7, 6, 10, 3, 18, 5, 1, 12, 20, 15, 19]
    requires calls == [7, 4, 9, 5, 11, 17, 23, 2, 0, 14, 21, 24]
    ensures !Feed(values, Fresh(), calls[..11]).isWinner && !Feed(values, Fresh(), calls).isWinner
  {
    var rowGaps, colGaps := [0, 5, 13, 15, 20], [0, 1, 17, 13, 24];
    SampleCallsDistinct(calls);
    FirstBoardGaps(values, calls);
    GapsShorter(values, calls, 11, rowGaps, colGaps);
    DistinctPrefix(calls, 11);
    OpenWithGaps(values, calls, rowGaps, colGaps);
    OpenWithGaps(values, calls[..11], rowGaps, colGaps);
  }

  /** The second board has not won after eleven calls, nor after twelve. */
  lemma SecondBoardOpen(values: seq<int>, calls: seq<int>)
    requires values == [3, 15, 0, 2, 22, 9, 18, 13, 17, 5, 19, 8, 7, 25, 23, 20, 11, 10, 24, 4, 14, 21, 16, 12, 6]
    requires calls == [7, 4, 9, 5, 11, 17, 23, 2, 0, 14, 21, 24]
    ensures !Feed(values, Fresh(), calls[..11]).isWinner && !Feed(values, Fresh(), calls).isWinner
  {
    var rowGaps, colGaps := [0, 6, 10, 15, 22], [0, 1, 7, 13, 4];
    SampleCallsDistinct(calls);
    SecondBoardGaps(values, calls);
    GapsShorter(values, calls, 11, rowGaps, colGaps);
    DistinctPrefix(calls, 11);
    OpenWithGaps(values, calls, rowGaps, colGaps);
    OpenWithGaps(values, calls[..11], rowGaps, colGaps);
  }

  /** The third board has not won after eleven calls; the twelfth makes it win with score 4512. */
  lemma ThirdBoardTwelfth(values: seq<int>, calls: seq<int>)
    requires values == [14, 21, 17, 24, 4, 10, 16, 15, 9, 19, 18, 8, 23, 26, 20, 22, 11, 13, 6, 5, 2, 0, 12, 3, 7]
    requires calls == [7, 4, 9, 5, 11, 17, 23, 2, 0, 14, 21, 24]
    ensures !Feed(values, Fresh(), calls[..11]).isWinner
    ensures Feed(values, Fresh(), calls).isWinner && Feed(values, Fresh(), calls).score == 4512
  {
    SampleCallsDistinct(calls);
    DistinctPrefix(calls, 11);
    ThirdBoardGaps(values, calls[..11]);
    OpenWithGaps(values, calls[..11], [3, 5, 10, 15, 22], [5, 6, 7, 3, 9]);
    ThirdBoardPositions(values, calls);
    ThirdBoardUncalled(values, calls);
    ThirdBoardWins(values, calls);
  }

  /**
   * A three-board game in which the third board wins with call k, the
   * others have not won by then, and none had won before it, records the
   * third board's score first.
   */
  lemma ThirdWinsFirst(boards: seq<seq<int>>, calls: seq<int>, k: nat, now: seq<int>, before: seq<int>)
    requires |boards| == 3 && 0 < k <= |calls| && now == calls[..k] && before == calls[..k - 1]
    requires !Feed(boards[0], Fresh(), before).isWinner && !Feed(boards[0], Fresh(), now).isWinner
    requires !Feed(boards[1], Fresh(), before).isWinner && !Feed(boards[1], Fresh(), now).isWinner
    requires !Feed(boards[2], Fresh(), before).isWinner && Feed(boards[2], Fresh(), now).isWinner
    ensures |Play(boards, calls).scores| > 0 && Play(boards, calls).scores[0] == Feed(boards[2], Fresh(), now).score
  {
    forall b | 0 <= b < 3
      ensures !Feed(boards[b], Fresh(), before).isWinner
    {
      if b == 0 {
      } else if b == 1 {
      }
    }
    forall b | 0 <= b < 2
      ensures !Feed(boards[b], Fresh(), now).isWinner
    {
      if b == 0 {
      }
    }
    FirstScore(boards, calls, k, 2);
  }

  /**
   * The example game: the first score `getAllWinningScores` records is
   * 4512, the third board winning on the twelfth call.
   */
  lemma SampleFirstScore(boards: seq<seq<int>>, calls: seq<int>)
    requires boards == [[22, 13, 17, 11, 0, 8, 2, 23, 4, 24, 21, 9, 14, 16, 7, 6, 10, 3, 18, 5, 1, 12, 20, 15, 19],
                        [3, 15, 0, 2, 22, 9, 18, 13, 17, 5, 19, 8, 7, 25, 23, 20, 11, 10, 24, 4, 14, 21, 16, 12, 6],
                        [14, 21, 17, 24, 4, 10, 16, 15, 9, 19, 18, 8, 23, 26, 20, 22, 11, 13, 6, 5, 2, 0, 12, 3, 7]]
    requires calls == [7, 4, 9, 5, 11, 17, 23, 2, 0, 14, 21, 24, 10, 16, 13, 6, 15, 25, 12, 22, 18, 20, 8, 19, 3, 26, 1]
    ensures |Play(boards, calls).scores| > 0 && Play(boards, calls).scores[0] == 4512
  {
    var first := calls[..12];
    assert first == [7, 4, 9, 5, 11, 17, 23, 2, 0, 14, 21, 24];
    var eleven := first[..11];
    assert eleven == calls[..11];
    FirstBoardOpen(boards[0], first);
    SecondBoardOpen(boards[1], first);
    ThirdBoardTwelfth(boards[2], first);
    ThirdWinsFirst(boards, calls, 12, first, eleven);
  }
}
