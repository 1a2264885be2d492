# aoc2021 days 1–4 in Dafny

This project models the solutions to the first four puzzles of the 2021
Advent of Code in `src/1.ts`–`src/4.ts`:

- **Day 1 — sonar sweep** (`increases.dfy`, module `Increases`).
  `getIncreases` counts how often a depth reading is larger than the one
  before it. `getWindowedIncreases` does the same over the sums of sliding
  windows of three readings.
- **Day 2 — dive** (`navigation.dfy`, module `Navigation`). `getPosition`
  folds `up`/`down`/`forward` command lines into a horizontal position, a
  depth and an aim.
- **Day 3 — binary diagnostic**, in three modules:
  - `status_readings.dfy` (`StatusReadings`) covers per-position bit counts,
    the gamma and epsilon rates, `bitCountToNumber` and the power rate.
  - `trie_model.dfy` (`TrieModel`) describes the bit trie as a value. It is
    the specification for the next module.
  - `trie_objects.dfy` (`TrieObjects`) has the `TrieNode` and `Trie` classes
    as heap objects. They are proved to build the modelled trie. Their
    most- and least-popular links and paths are proved to follow it. On top
    of them sit the oxygen-generator, CO2-scrubber and life-support ratings.
- **Day 4 — giant squid bingo** (`bingo.dfy`, module `Bingo`). The `Board`
  and `GameTable` classes record calls per row and column, detect winners,
  score them, and `getAllWinningScores` collects the scores in winning order.

`wrappers.dfy` holds the `Option` type. It stands for JavaScript's `null`
(no previous reading) and for `NaN` (`parseInt("", 2)`).

The imperative parts of the source are Dafny methods. Each one is proved
against a specification function:
- the `reduce` loops of days 1–3 (`GetIncreases`, `BuildWindows`,
  `GetPosition`, `GetBitCounts`);
- the recursive `insert` and the path walks of the trie;
- the board and table updates of day 4.

Properties of those functions are then proved as lemmas. The main ones:
- **Day 1:** the increase count equals the number of qualifying indices and
  is at most one per pair. Window i+1 counts as an increase exactly when
  window i is non-zero and the reading entering it exceeds the one leaving
  it.
- **Day 2:** the closed form of the position. The three sample tests of
  `src/2.ts` hold.
- **Day 3:**
  - the counts are the occurrences of each bit at each position;
  - gamma plus epsilon is `2^n - 1` when no position is tied;
  - base-2 values round-trip;
  - the sample's power rate is 198;
  - every trie node counts the readings through it;
  - the links are sorted by count, with ties broken toward `'0'`;
  - for readings of one length, each rating is one of the readings, and it
    is the rating the puzzle's bit criteria give on exact counts: keep the
    most (least) common bit among the readings still in play, '1' ('0') on
    a tie, until one reading is left.
- **Day 4:**
  - a call marks exactly one row and one column of the board holding it;
  - a winner stays a winner;
  - the score is the sum of the values not yet called, times the last call;
  - the table records one score per winning board, in winning order, and
    never drops one as more calls come in;
  - on the example game of `src/4.ts:93-112` the first score is 4512
    (`bingo_sample.dfy`).

Two behaviours of the source are modelled as written:
- In `src/1.ts:7` the test `acc.last && …` treats a previous reading of 0 as
  falsy, so no increase is counted after a 0 (`ZeroReadingSkipsIncrease`).
- In `src/3.ts:80` the node made for a string's last character starts with
  count 0. `nextSequence` is then the empty string, which is falsy, so that
  node's own `insert` is skipped. `UniformCounts` states the resulting
  off-by-one at the last level. For readings of one length it does not
  change either rating (`UniformCriteria`): the undercounted nodes are all
  at the last level, and each is undercounted by exactly one. Two sibling
  leaves compare the same way as their exact counts would, and a lone leaf
  is chosen either way.
  With readings of different lengths it can: for `00`, `0`, `1`, `1` the
  `'0'` node counts 2 and the `'1'` node 1, so the oxygen rating is `00`,
  while exact counts tie 2 to 2 and pick `1` (`MixedLengthsRating`).

## Model

| member | source | states |
|---|---|---|
| Increases.CountsAsIncrease | src/1.ts:7 | the reducer's test `acc.last && val > acc.last`: a reading counts when a previous reading is present, non-zero and smaller |
| Increases.GetIncreases | src/1.ts:5-13 | the reducer's loop returns the reference count of increases, where a reading counts when it exceeds a previous reading that is present and non-zero |
| Increases.IncreaseCountIsIndexCount | src/1.ts:5-13 | the count equals the number of indices i > 0 with `s[i-1] != 0` and `s[i] > s[i-1]` |
| Increases.IncreaseCountBound | src/1.ts:5-13 | at most one increase per adjacent pair: none for fewer than two readings, otherwise at most `|s| - 1` |
| Increases.NoZeroMeansPlainCount | src/1.ts:7 | without a zero reading before the last, the truthiness test agrees with a plain `>` comparison |
| Increases.ZeroReadingSkipsIncrease | src/1.ts:7 | after a reading of 0 the rise to 5 is not counted, although a plain comparison counts it |
| Increases.Windows | src/1.ts:16-24 | the window sums: none for fewer than three readings, otherwise `s[i] + s[i+1] + s[i+2]` for each start i |
| Increases.BuildWindows | src/1.ts:16-24 | there are `|input| - 2` windows (none for fewer than three readings) and window i is `input[i] + input[i+1] + input[i+2]` |
| Increases.GetWindowedIncreases | src/1.ts:15-27 | the result is the increase count of the window sums |
| Increases.WindowIncreaseByEnds | src/1.ts:15-27 | window i+1 counts as an increase exactly when window i is non-zero and `s[i+3] > s[i]` |
| Increases.WindowedIncreasesBound | src/1.ts:15-27 | at most `|s| - 3` windowed increases, none for fewer than four readings |
| Navigation.FirstSpace | src/2.ts:8 | the index found is the first space of the line, where `split(' ')` ends the direction word |
| Navigation.DecimalValue | src/2.ts:9 | `parseInt` of a digit string: its decimal value, most significant digit first |
| Navigation.ParseLine | src/2.ts:8-9 | the direction is the space-free text before the first space |
| Navigation.ParseJoined | src/2.ts:8-9 | parsing `word + " " + digits` gives back the word and the decimal value of the digits (round trip) |
| Navigation.Commands | src/2.ts:7-9 | one command per input line |
| Navigation.Step | src/2.ts:11-17 | the reducer body: `up` and `down` change only the aim; `forward` adds n to h and aim*n to d; any other word leaves the accumulator |
| Navigation.GetPosition | src/2.ts:6-21 | the reducer's loop returns the fold of the per-line step over the parsed commands, starting from `{h: 0, d: 0, aim: 0}` |
| Navigation.SteerOnly | src/2.ts:11-12 | `up n` lowers and `down n` raises the aim by n, leaving position and depth alone |
| Navigation.ForwardMoves | src/2.ts:14-17 | `forward n` adds n to the position and `aim * n` to the depth, keeping the aim |
| Navigation.UnknownDirectionIgnored | src/2.ts:11-17 | any other direction word leaves the accumulator unchanged |
| Navigation.NavigateClosedForm | src/2.ts:6-21 | final position = total forward steps; aim = net down minus up; depth = sum over forward moves of the aim at that moment times the steps |
| Navigation.EmptyInput | src/2.ts:21 | no lines leave the initial accumulator |
| Navigation.NavigateTwo | src/2.ts:6-21 | two commands are folded in order from the initial accumulator |
| Navigation.NavigateThree | src/2.ts:6-21 | three commands are folded in order from the initial accumulator |
| Navigation.ForwardSample | src/2.ts:31-32 | `['forward 1', 'forward 5']` ends at h 6, d 0 |
| Navigation.DownSample | src/2.ts:35-36 | `['down 10', 'down 8']` ends at h 0, d 0, aim 18 |
| Navigation.Navigate | src/2.ts:6-21 | the horizontal position never goes below 0, since forward counts are non-negative |
| Navigation.CommandsOfThree | src/2.ts:7-9 | three well-formed lines are parsed one by one, in order |
| Navigation.AimCommands | src/2.ts:39 | the three aim-test lines are well formed and parse to forward 1, down 10 and forward 5 |
| Navigation.AimMoves | src/2.ts:39-40 | those three commands end at h 6, d 50, aim 10 |
| Navigation.AimSample | src/2.ts:39-40 | `['forward 1', 'down 10', 'forward 5']` ends at h 6, d 50, aim 10 |
| StatusReadings.CountChar | src/3.ts:12-25 | one character at one position: a new position gets an entry holding 1 for that bit, an existing entry has that bit's count raised by 1 |
| StatusReadings.CountFrom | src/3.ts:12-27 | the counts after one reading are as long as the longer of the counts and the reading |
| StatusReadings.TallyFrom | src/3.ts:10-31 | the counts after all readings are as long as the longest reading |
| StatusReadings.Tally | src/3.ts:10-31 | the reduce over all readings, starting from no counts |
| StatusReadings.GetBitCounts | src/3.ts:10-31 | the nested loops return the reference tally of the readings |
| StatusReadings.CountFromAt | src/3.ts:12-27 | one reading adds 1 to the zero or one count of each position it covers, and a new entry starts from that bit |
| StatusReadings.TallyFromAt | src/3.ts:10-31 | entry i of the counts is the starting entry plus the number of readings with '0', and with '1', at position i |
| StatusReadings.TallyCounts | src/3.ts:10-31 | `getBitCounts` has one entry per position up to the longest reading, each holding the exact numbers of '0's and '1's there |
| StatusReadings.OccurrencesCover | src/3.ts:21-25 | when every reading covers a position, its zero and one counts add up to the number of readings |
| StatusReadings.MostCommon | src/3.ts:37-41 | a binary string with one bit per position: '0' only where zeros strictly outnumber ones, '1' otherwise (a tie gives '1') |
| StatusReadings.LeastCommon | src/3.ts:46-50 | a binary string with one bit per position: '0' only where zeros are strictly fewer than ones, '1' otherwise (a tie gives '1') |
| StatusReadings.CommonBits | src/3.ts:37-53 | the most- and least-common strings are binary and as long as the counts; on a tie both hold '1' at that position, otherwise they differ there |
| StatusReadings.BinaryValue | src/3.ts:33-35 | the base-2 value of an n-digit binary string is below `2^n` |
| StatusReadings.BitsToNumber | src/3.ts:33-35 | `parseInt(_, 2)` is NaN exactly for the empty string; otherwise it is a number below `2^n` whose n-digit spelling is the string |
| StatusReadings.GammaRate | src/3.ts:37-44 | NaN exactly when there are no positions; otherwise the number below `2^n` whose n-digit spelling is the most-common string |
| StatusReadings.EpsilonRate | src/3.ts:46-53 | NaN exactly when there are no positions; otherwise the number below `2^n` whose n-digit spelling is the least-common string |
| StatusReadings.ToBinary | src/3.ts:33-35 | the w-digit base-2 spelling of a number is binary and w long |
| StatusReadings.BinaryRoundTrip | src/3.ts:33-35 | reading back the w-digit spelling of `n < 2^w` gives n |
| StatusReadings.BinaryRoundTripString | src/3.ts:33-35 | spelling the value of a binary string in its own width gives the string back |
| StatusReadings.ComplementSum | src/3.ts:37-53 | two binary strings of one length that differ at every position have values summing to `2^n - 1` |
| StatusReadings.RatesAreComplements | src/3.ts:37-53 | with no tied position, gamma and epsilon are numbers summing to `2^n - 1`; with no positions both are NaN |
| StatusReadings.Times | src/3.ts:65 | the product of two parsed numbers, NaN when either is NaN |
| StatusReadings.GetPowerRate | src/3.ts:55-66 | the power rate is gamma times epsilon of the counts, and NaN exactly when there are no positions |
| StatusReadings.SampleZeros | src/3.ts:162 | the sample readings hold 5, 7, 4, 5, 7 zeros at positions 0 to 4 |
| StatusReadings.SampleColumn0 | src/3.ts:162 | 5 of the sample readings have '0' at position 0 |
| StatusReadings.SampleColumn1 | src/3.ts:162 | 7 of the sample readings have '0' at position 1 |
| StatusReadings.SampleColumn2 | src/3.ts:162 | 4 of the sample readings have '0' at position 2 |
| StatusReadings.SampleColumn3 | src/3.ts:162 | 5 of the sample readings have '0' at position 3 |
| StatusReadings.SampleColumn4 | src/3.ts:162 | 7 of the sample readings have '0' at position 4 |
| StatusReadings.SampleWidths | src/3.ts:162 | the sample has twelve readings, each a binary string of length 5 |
| StatusReadings.TwelveReadingsTally | src/3.ts:10-31 | twelve 5-bit readings with the sample's zero counts have the counts 5/7, 7/5, 4/8, 5/7, 7/5 |
| StatusReadings.SampleShape | src/3.ts:162 | the sample is twelve binary readings of length 5 |
| StatusReadings.UniformMaxLength | src/3.ts:10-31 | readings of one length w make counts of length w |
| StatusReadings.SampleRates | src/3.ts:37-53 | on the sample counts the most-common string is 10110 (gamma 22) and the least-common 01001 (epsilon 9) |
| StatusReadings.SamplePowerRate | src/3.ts:162-164 | the sample's counts are 5/7, 7/5, 4/8, 5/7, 7/5 and its power rate is 198, as the test expects |
| TrieModel.WithChild | src/3.ts:91-95 | replacing one link keeps the node's value, count and other link |
| TrieModel.Insert | src/3.ts:83-97 | inserting keeps the node's value and adds 1 to its count |
| TrieModel.Spawn | src/3.ts:75-81 | a node made for a next character carries that character |
| TrieModel.InsertAt | src/3.ts:83-97 | inserting s leaves every node off s's prefixes unchanged. It adds 1 to each existing node on them. A new node on them gets count 1, or 0 if it is s's last character. |
| TrieModel.InsertKeeps | src/3.ts:83-97 | an insertion never removes a node or lowers its count |
| TrieModel.Build | src/3.ts:123-126 | the trie of a reading list has a root without a value |
| TrieModel.FirstWithPrefixFacts | src/3.ts:123-126 | some reading has prefix p exactly when the prefixed count is positive; the first one found is such a reading |
| TrieModel.BuildAt | src/3.ts:123-126 | there is a node at p exactly when p is empty or some reading has prefix p. Its count is the number of readings with that prefix, less one when the first such reading is p itself. |
| TrieModel.RootCount | src/3.ts:124-125 | the root counts every inserted reading |
| TrieModel.NumPrefixedEmpty | src/3.ts:124-125 | every reading has the empty prefix |
| TrieModel.UniformCounts | src/3.ts:80 | for readings of one length n, a node above the last level counts the readings through it, and a node at the last level one fewer |
| TrieModel.InsertLabelled | src/3.ts:79-80 | insertion keeps every node's value equal to the bit of the link leading to it |
| TrieModel.BuildLabelled | src/3.ts:123-126 | every non-root node of a built trie carries the bit of its link |
| TrieModel.AtLabel | src/3.ts:79 | the node at prefix p carries p's last bit |
| TrieModel.AtSnoc | src/3.ts:91-92 | the node at `p + [b]` is the b-link of the node at p |
| TrieModel.Links | src/3.ts:100 | `Object.values(this.links)`: the node's existing links, '0' before '1' |
| TrieModel.LinksAsc | src/3.ts:99-109 | the sorted list holds exactly the node's links, each once |
| TrieModel.LinksAscSorted | src/3.ts:99-109 | the sorted links are a permutation of the links, in ascending count; on a tie the '0' link comes first; empty exactly when there are no links |
| TrieModel.MostPopularLink | src/3.ts:111-113 | the last sorted link is a link with the largest count, the '1' link on a tie |
| TrieModel.LeastPopularLink | src/3.ts:115-117 | the first sorted link is a link with the smallest count, the '0' link on a tie |
| TrieModel.PopularLink | src/3.ts:111-117 | the chosen link is one of the node's two links |
| TrieModel.PopularPath | src/3.ts:133-153 | the path is empty exactly when the start has no links, and every step is a node |
| TrieModel.Spell | src/3.ts:173 | joining the values gives at most one character per node |
| TrieModel.SpellStep | src/3.ts:133-153 | one step of the walk adds the chosen link's bit to the spelled rating |
| TrieModel.PopularPathSteps | src/3.ts:133-153 | the path is empty exactly when the start has no links. Each step is the chosen link of the node before it. The walk ends at a node without links. |
| TrieModel.PopularPathLinks | src/3.ts:133-153 | every step of the path is a link of the node before it |
| TrieModel.PathFrom | src/3.ts:133-153 | for readings of length n, the path from the node at p has n - `|p|` steps, and p followed by the spelled path is a reading |
| TrieModel.LastLevel | src/3.ts:133-153 | in a trie of readings of length n, a node at depth n has no links and its prefix is a reading |
| TrieModel.InnerLevel | src/3.ts:133-153 | in a trie of readings of length n, a node above depth n has a link |
| TrieModel.StepBit | src/3.ts:133-153 | a link of the node at p is the node at `p + [b]` for the bit b it carries |
| TrieModel.UniformRating | src/3.ts:171-181 | for readings of one length n, each popular path has n steps and spells one of the readings |
| TrieModel.SpellBinary | src/3.ts:173 | the values along a path spell a binary string as long as the path |
| TrieModel.Rating | src/3.ts:171-181 | a rating is a binary string |
| TrieModel.Keep | src/3.ts:99-117 | with z readings continuing with '0' and o with '1', the kept bit is '0' only if z > 0 and (most common: z > o; least common: o = 0 or z <= o), and '1' symmetrically |
| TrieModel.CriteriaRating | src/3.ts:133-153 | the bit-criteria rating on exact counts stops at length n or when no reading continues, and keeps the prefix held by some reading |
| TrieModel.NumPrefixedSplit | src/3.ts:83-97 | for readings of length n, those with a prefix p shorter than n split into those continuing with '0' and those continuing with '1' |
| TrieModel.UniformStep | src/3.ts:111-117 | for readings of one length, the popular link of the node at p is the node for the bit the criteria keep on the exact counts |
| TrieModel.CriteriaFrom | src/3.ts:133-153 | for readings of one length, the path from the node at p spells the bit-criteria rating from p |
| TrieModel.UniformCriteria | src/3.ts:171-181 | for a non-empty list of readings of one length, both ratings equal the bit-criteria ratings on exact counts |
| TrieModel.LifeSupportRating | src/3.ts:185-190 | NaN exactly when the root has no links |
| TrieModel.NumPrefixedSnoc | src/3.ts:125 | one more reading raises the count of a prefix by one exactly when the reading has that prefix |
| TrieModel.MixedLengthsBuild | src/3.ts:75-95 | the trie of `00`, `0`, `1`, `1`: the root counts 4, the '0' node 2 with a '0' leaf of count 0, the '1' node 1 |
| TrieModel.MixedLengthsPrefixes | src/3.ts:123-126 | in `00`, `0`, `1`, `1`, two readings start with '0' and two with '1', and none with `10` or `11` |
| TrieModel.MixedLengthsRating | src/3.ts:80 | with those readings the trie's oxygen rating is `00`, while the bit criteria on exact counts give `1` |
| TrieModel.LifeSupportOfUniform | src/3.ts:185-190 | for readings of one positive length, the life-support rating is the product of the base-2 values of two readings; for length 0 it is NaN |
| TrieObjects.TrieNode.ModelLabelled | src/3.ts:79 | a valid node's model has every link labelled with its bit |
| TrieObjects.TrieNode.constructor | src/3.ts:75-81 | a new node carries the given value; a non-empty nextSequence is inserted into it, and an empty one leaves it with count 0 and no links |
| TrieObjects.TrieNode.Insert | src/3.ts:83-97 | the node's model becomes the modelled insertion into its old model; the node stays valid |
| TrieObjects.TrieNode.Descend | src/3.ts:91-95 | an existing link takes the rest of the string; a missing one is built by the constructor and carries the next character |
| TrieObjects.TrieNode.GetLinksAsc | src/3.ts:99-109 | the returned nodes are links of this node and model the ascending-sorted links |
| TrieObjects.TrieNode.GetMostPopularLink | src/3.ts:111-113 | the returned link models the most popular link |
| TrieObjects.TrieNode.GetLeastPopularLink | src/3.ts:115-117 | the returned link models the least popular link |
| TrieObjects.LinksPresent | src/3.ts:134 | a node has links in its model exactly when one of its link fields is set |
| TrieObjects.LinkValid | src/3.ts:135-138 | a link of a valid node is valid, inside its footprint, models one of its model's links, and carries a value |
| TrieObjects.Values | src/3.ts:173 | `path.map((node) => node.value).join('')`: the nodes' values joined in path order |
| TrieObjects.ValuesSpell | src/3.ts:173 | the joined values of a path of nodes spell the path of their models |
| TrieObjects.Trie.constructor | src/3.ts:123-126 | the root models the trie built from the readings |
| TrieObjects.Trie.GetMostPopularPath | src/3.ts:133-142 | the returned path extends the given one by nodes modelling the most popular path from the node |
| TrieObjects.Trie.GetLeastPopularPath | src/3.ts:144-153 | the returned path extends the given one by nodes modelling the least popular path from the node |
| TrieObjects.GetOxygenGeneratorRating | src/3.ts:171-174 | the string returned is the modelled rating along the most popular path |
| TrieObjects.GetCO2ScrubberRating | src/3.ts:178-181 | the string returned is the modelled rating along the least popular path |
| TrieObjects.GetLifeSupportRating | src/3.ts:185-190 | the result is the modelled life-support rating of the trie |
| TrieObjects.LifeSupportOfReadings | src/3.ts:185-197 | building a trie from readings of one positive length yields the product of the base-2 values of two of the readings |
| Bingo.FirstIndex | src/4.ts:23 | `findIndex`: -1 exactly when the call is absent, otherwise an index holding it with no earlier occurrence |
| Bingo.FirstIndexAt | src/4.ts:23 | an index holding the call with no earlier occurrence is the one found |
| Bingo.AfterCall | src/4.ts:22-44 | a call the board does not hold leaves its state unchanged, and a winner stays a winner |
| Bingo.Record | src/4.ts:31-36 | recording a call creates the key's list or appends the call to it, leaving all other keys alone |
| Bingo.CallMarksOneRowAndColumn | src/4.ts:23-36 | a held call at first index i appends to row `i / 5` and column `i % 5` only |
| Bingo.WinnerAfterCall | src/4.ts:39-42 | the board is a winner afterwards exactly when it was or a list just reached five; it is then rescored as the unmarked sum times the call |
| Bingo.WinnerStays | src/4.ts:40 | a winning board stays a winner whatever is called |
| Bingo.UnmarkedSum | src/4.ts:51-53 | the unmarked sum plus the marked sum is the sum of the board |
| Bingo.UnmarkedExtremes | src/4.ts:51-53 | with nothing marked the unmarked sum is the board's sum; with everything marked it is 0 |
| Bingo.Score | src/4.ts:50-55 | with nothing marked the score is the board's sum times the call; with everything marked it is 0 |
| Bingo.Positions | src/4.ts:23 | one position per call |
| Bingo.PositionsFrom | src/4.ts:23 | positions given as first occurrences are the positions |
| Bingo.PositionsPrefix | src/4.ts:23 | the positions of a prefix of the calls are that prefix of the positions |
| Bingo.LineCountSnoc | src/4.ts:27-28 | one more call adds 1 to the count of its row (or column) only |
| Bingo.FeedLines | src/4.ts:27-36 | after fresh calls, a row (or column) has a list exactly when a call lies in it, and its list is as long as the number of such calls |
| Bingo.MarkedRecord | src/4.ts:31-32 | recording a call marks it and nothing else |
| Bingo.FeedMarked | src/4.ts:51 | after fresh calls a value is marked exactly when it is on the board and was called |
| Bingo.UnmarkedIsUncalled | src/4.ts:51-53 | when exactly the called values are marked, the unmarked sum is the sum of the values not called |
| Bingo.UncalledSumAppend | src/4.ts:51-53 | the uncalled sum of a board split in two is the sum of the parts' uncalled sums |
| Bingo.LineCountBound | src/4.ts:27-28 | positions that do not repeat and that lie, in line r, within a set of cells number at most that many in line r |
| Bingo.LineCellsCount | src/4.ts:23-28 | a row or a column has five different cells |
| Bingo.InLineCells | src/4.ts:23-28 | every cell lies in its own row and its own column, beside four others |
| Bingo.LineGap | src/4.ts:39 | with no repeated call, a line holding a value not called has fewer than five calls recorded |
| Bingo.OpenWithGaps | src/4.ts:39 | with no repeated call, a 25-value board with a value not called in every row and column has not won |
| Bingo.NoLineFull | src/4.ts:39 | a 25-value board none of whose rows or columns holds five calls has not won |
| Bingo.WinsOnLine | src/4.ts:39-54 | when the last call fills its row, or its column, with five calls the board wins, scoring the sum of the uncalled values times that call |
| Bingo.Board.constructor | src/4.ts:15-20 | a new board holds the values, no matches, is not a winner and has score 0 |
| Bingo.Board.AddCall | src/4.ts:22-44 | the board's state becomes the modelled state after the call |
| Bingo.Board.GetIsWinner | src/4.ts:46-48 | returns the winner flag |
| Bingo.Board.GetScore | src/4.ts:57-59 | returns the score |
| Bingo.NewScores | src/4.ts:71-79 | one call pushes at most one score for each of the first k boards |
| Bingo.TableAfter | src/4.ts:71-79 | a call leaves the table with one board state per board |
| Bingo.NewScoresOrder | src/4.ts:71-79 | the scores one call pushes are one per board that wins on it, in board order; a winner's score sits after those of the winners before it |
| Bingo.WinsBeforeGrows | src/4.ts:71-79 | the number of boards winning on a call before board k grows with k |
| Bingo.WinnersAfter | src/4.ts:71-79 | after a call, the winners among the first k boards are the old ones plus the boards newly winning on it |
| Bingo.WinnersBound | src/4.ts:71-79 | at most k of the first k boards are winners |
| Bingo.Play | src/4.ts:86-91 | playing keeps one state per board |
| Bingo.PlayFeedsBoard | src/4.ts:73-76 | a board that has not won is in the state of being fed every call alone |
| Bingo.OneScorePerWinner | src/4.ts:71-91 | the table holds exactly one score per winning board, so no more scores than boards |
| Bingo.NoWinners | src/4.ts:66-69 | a table with no winning board counts no winners |
| Bingo.NoWinsBefore | src/4.ts:71-79 | when no board before k wins on a call, none of them pushes a score |
| Bingo.FirstScore | src/4.ts:86-91 | when no board has won before call k and board w is the first to win on it, the first score is w's score at that call |
| Bingo.FirstWinnerScores | src/4.ts:71-79 | when no board had won before the last call and board w is the first to win on it, the scores start with w's score |
| Bingo.ScoresOnlyGrow | src/4.ts:89 | later calls only append scores: the scores of a prefix of the calls are a prefix of the scores |
| Bingo.GameTable.Values | src/4.ts:63 | one value list per board |
| Bingo.GameTable.States | src/4.ts:63 | one state per board |
| Bingo.GameTable.constructor | src/4.ts:66-69 | a new table has one fresh board per value list and no scores |
| Bingo.GameTable.AddCall | src/4.ts:71-79 | every board moves to its modelled state after the call, and the scores of the boards winning on it are appended in board order |
| Bingo.GameTable.GetScores | src/4.ts:81-83 | returns the scores |
| Bingo.Offer | src/4.ts:73-77 | a board that has not won takes the call and, if it now wins, its score is appended; a winner is left alone |
| Bingo.GetAllWinningScores | src/4.ts:86-91 | the scores are those of playing every call on a fresh table, at most one per board |
| BingoSample.GapsShorter | src/4.ts:39 | values not called in every row and column stay not called after any prefix of the calls |
| BingoSample.DistinctPrefix | src/4.ts:93 | a prefix of calls without repeats has none |
| BingoSample.SampleCallsDistinct | src/4.ts:93 | the first twelve sample calls do not repeat |
| BingoSample.FirstBoardGaps | src/4.ts:93-99 | after twelve calls every row and column of the first board holds a value not called |
| BingoSample.SecondBoardGaps | src/4.ts:93-105 | after twelve calls every row and column of the second board holds a value not called |
| BingoSample.ThirdBoardGaps | src/4.ts:93-111 | after eleven calls every row and column of the third board holds a value not called |
| BingoSample.ThirdBoardFirstSix | src/4.ts:93-111 | the first six of the twelve calls are found first at cells 24, 4, 8, 19, 16, 2 of the third board |
| BingoSample.ThirdBoardLastSix | src/4.ts:93-111 | the next six are found first at cells 12, 20, 21, 0, 1, 3 |
| BingoSample.ThirdBoardPositions | src/4.ts:93-111 | the twelve calls land at cells 24, 4, 8, 19, 16, 2, 12, 20, 21, 0, 1, 3 of the third board |
| BingoSample.ThirdBoardRow0Uncalled | src/4.ts:107 | nothing in the third board's top row is left uncalled |
| BingoSample.ThirdBoardRow1Uncalled | src/4.ts:108 | the second row's uncalled values add up to 60 |
| BingoSample.ThirdBoardRow2Uncalled | src/4.ts:109 | the third row's uncalled values add up to 72 |
| BingoSample.ThirdBoardRow3Uncalled | src/4.ts:110 | the fourth row's uncalled values add up to 41 |
| BingoSample.ThirdBoardRow4Uncalled | src/4.ts:111 | the fifth row's uncalled values add up to 15 |
| BingoSample.UncalledByRows | src/4.ts:51-53 | the uncalled sum of a board is the sum of its five rows' uncalled sums |
| BingoSample.ThirdBoardUncalled | src/4.ts:93-111 | after twelve calls the third board's uncalled values add up to 188 |
| BingoSample.ThirdBoardTopRow | src/4.ts:93-111 | five of those twelve cells lie in the top row |
| BingoSample.ThirdBoardWins | src/4.ts:39-54 | a board where the twelve calls land at those cells, the last being 24, wins with score 24 times its uncalled sum |
| BingoSample.FirstBoardOpen | src/4.ts:93-99 | the first board has not won after eleven or twelve calls |
| BingoSample.SecondBoardOpen | src/4.ts:93-105 | the second board has not won after eleven or twelve calls |
| BingoSample.ThirdBoardTwelfth | src/4.ts:93-111 | the third board has not won after eleven calls, and wins on the twelfth with score 4512 |
| BingoSample.ThirdWinsFirst | src/4.ts:71-91 | of three boards, if only the third wins at call k and none before, the first score is its score |
| BingoSample.SampleFirstScore | src/4.ts:93-115 | on the example game the first score `getAllWinningScores` records is 4512 |

## Left out

- `src/helpers.ts` is not part of this model. Its `parseInput` file reading and `test` printing are I/O. So are the `parseInput(...).then` blocks that read the puzzle inputs, including the day-4 input parsing (`src/4.ts:117-140`) and `parseInt` over day-1 lines.
- `console.log`: the debugging output in `getPowerRate` and the result printing are left out.
- `Trie.walk` and `Trie.print` are left out. They only print the trie.
- Navigation.GetPosition: it requires every line to be a word, one space and decimal digits. `parseInt` on a malformed count (`NaN`, leading signs, trailing text) is not modelled.
- Trie keys are restricted to the bits '0' and '1': a node's `links` record becomes the two fields `zero` and `one`. Other characters, which the record would accept, are not modelled.
- TrieModel.LinksAscSorted: the JavaScript `sort` is modelled by its outcome on at most two links (ascending count, '0' first on a tie), not as a general sort.
- Trie.GetMostPopularPath and Trie.GetLeastPopularPath: the `path` array that the source pushes onto in place is passed in and returned as a sequence. Sharing that array with the caller is not modelled.
- Numbers are unbounded integers. JavaScript's double precision, which loses exactness above 2^53, is not modelled.
- The day-3 trie ratings of the sample readings are only printed (`src/3.ts:167-183`), with no expected value, and are not worked out on the concrete readings. `UniformCriteria` and `LifeSupportOfUniform` cover every list of readings of one length.
- Of the day-4 sample game only the first score, 4512, is proved (`SampleFirstScore`). The test at `src/4.ts:114` expects `[4512, 0, 0]`, but the code returns one score per board that wins, and the later scores are not worked out here.
- Bingo boards are not required to hold 25 distinct values. `findIndex` semantics (the first occurrence) are modelled, and a board of any length is accepted as in the source.
