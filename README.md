# Scoring and ranking core of sargamela-v2

sargamela-v2 is the site of an arts festival. Each competition item has a
type (group or individual). It holds up to three placements (First, Second,
Third) and optional per-participant grade awards. A global setting gives the
points of each placement per item type and the list of grades. This project
models in Dafny the code that turns those records into scores:

- **Leaderboard** (`getScoreboardData`, src/endpoints/index.ts). Gives every
  participant a score and placement counts, then sorts the participants by
  descending score.
- **Pivot tables** (`getDetailedScoreboardData`, same file). Builds one table
  per category: one column per item, one row per participant, each row with
  its total. The rows are sorted by descending total.
- **Detailed breakdown** (`calculateParticipantPoints` and
  `getParticipantTotalPoints`, src/utilities/calculatePoints.ts). Gives per
  participant the position counters split by item type, a grade table sorted
  by grade key, summary counts and the point system in force.
- **Total-only scorer** (`calculateParticipantPoints`,
  src/utilities/calculateParticipantPoints.ts). Gives a participant's
  position points only.
- **Ranking utilities** (src/utilities/rankingUtils.ts). Competition ranking
  ("1224"): equal scores share a rank and the next rank skips. Also the
  ordinal labels ("T-4th"), the top-3 style flags and the tie queries.

The scoring paths do not all behave alike, and the model keeps each one as
written:

- **Defaults.** All four paths apply the same `||` defaults. First is 10/5,
  Second 5/2 and Third 1/1, for group/individual. A stored 0 also falls back
  to its default (`FestModel.ResolvePoints`).
- **Slot crediting.**
  - The leaderboard and the total-only scorer check the three result slots
    independently. A participant named in two slots of one item is paid for
    both.
  - The pivot tables and the detailed breakdown use an `if / else if` chain.
    At most one position per item is credited: First before Second before
    Third.
  - `FestModel.IndependentTotal` and `FestModel.FirstMatchTotal` are the two
    rules. `PathAgreement.TwoSlotsPaidDifferently` shows an input where they
    differ, and `FestModel.FirstMatchTotalIsIndependentTotal` shows they agree
    when nobody holds two slots of one item.
- **Id comparison** (`FestModel.MatchMode`). A result slot is a bare id or,
  at query depth 1, an expanded document.
  - The leaderboard compares the slot with `==`, so an expanded document never
    matches.
  - The pivot tables first resolve the document to its id.
  - Both per-participant scorers also demand a truthy slot. The id 0 therefore
    never earns points there.
- **Grades.** Only the detailed breakdown counts grade awards. The
  leaderboard, the pivot tables and the total-only scorer ignore them.

Sorting with `Array.prototype.sort` is modelled by `Sorting.SortBy`, a stable
insertion sort over a "may come before" relation. The operations that loop
in the source are methods with loop invariants: the per-participant
callbacks, the row builder, the grade-map updates and the rank walk. Each is
proved against a specification function of its inputs. The properties
the code promises are then proved about those functions.

Some paths treat the same records differently. The model keeps each as written:

- The leaderboard compares result slots with `==` and never resolves an
  expanded document (src/endpoints/index.ts:84, 95, 106). It never reads
  grade entries. The pivot builder resolves documents to their ids first
  (src/endpoints/index.ts:220-222).
- The pivot values use positions only. Grade entries are never read there
  (src/endpoints/index.ts:213-234).
- A participant may hold two slots of one item. The `else if` chains then
  credit only the first slot checked (src/utilities/calculatePoints.ts:166-191,
  src/endpoints/index.ts:224-230). The leaderboard and the total-only scorer
  credit every slot.
- A category with no items still yields a table, with no headers and rows of
  no values (src/endpoints/index.ts:198-251, `Scoreboard.EmptyCategory`).

## Model

| member | source | states |
|---|---|---|
| FestModel.Resolve | src/endpoints/index.ts:220-222 | the id behind a reference is the reference's own id, bare or expanded |
| FestModel.ResolvePoints | src/utilities/calculatePoints.ts:101-114 | every rate is the stored value if it is present and non-zero, otherwise the default for that position and type; no rate is 0; nothing stored gives exactly the defaults |
| FestModel.DefaultsExamples | src/endpoints/index.ts:38-51 | with nothing stored the system is 10/5, 5/2, 1/1; a stored 0 for First/group falls back to 10 while a stored 7 is kept |
| FestModel.CreditedPosition | src/utilities/calculatePoints.ts:166-191 | the credited position holds the participant; none is credited exactly when no slot does; Second only when First does not hold it, Third only when neither First nor Second does |
| FestModel.FirstMatchVersusIndependent | src/endpoints/index.ts:224-230 | on one item, first-match crediting pays what independent checking pays whenever the participant holds at most one slot, and nothing when no slot holds it |
| FestModel.FirstMatchTotalIsIndependentTotal | src/utilities/calculatePoints.ts:166-191 | over a list of items, the first-match total equals the independent-slot total when nobody holds two slots of one item |
| FestModel.GuardedIsLooseForNonZeroId | src/utilities/calculateParticipantPoints.ts:61-71 | the truthiness-guarded comparison agrees with plain equality for every non-zero id and never matches the id 0 |
| FestModel.IndependentTotalAppend | src/endpoints/index.ts:80-116 | the independent-slot total of two item lists joined is the sum of their totals |
| FestModel.FirstMatchTotalAppend | src/endpoints/index.ts:214-234 | the first-match total of two item lists joined is the sum of their totals |
| FestModel.IndependentTotalByCounts | src/endpoints/index.ts:80-116 | the independent-slot total equals the six placement counts (position by item type) weighted by their rates |
| Sorting.SortBy | src/endpoints/index.ts:133 | the sort returns a permutation of its input of the same length |
| Sorting.SortBySorted | src/endpoints/index.ts:244 | with a total, transitive comparator the sorted result is in order |
| Sorting.SortedIsFixpoint | src/utilities/rankingUtils.ts:23 | an input already in order comes back unchanged |
| Sorting.SortBySum | src/utilities/calculatePoints.ts:234-237 | sorting leaves any sum over the elements unchanged |
| Sorting.SortByDistinct | src/utilities/calculatePoints.ts:234-237 | sorting keeps keys pairwise distinct |
| Sorting.SortByMembers | src/utilities/calculatePoints.ts:235 | an element is in the sorted list exactly when it is in the input |
| Ranking.ScoreDescIsTotalPreorder | src/utilities/rankingUtils.ts:23 | the descending-score comparator is total and transitive |
| Ranking.CalculateRanks | src/utilities/rankingUtils.ts:21-54 | the result lists the input's entities (a permutation) in the stable descending-score order; each rank is one more than the number of entities scoring strictly more; the tie flag is set exactly when a neighbour has the same score; each label is the formatted rank |
| Ranking.RankEntry | src/utilities/rankingUtils.ts:29-50 | given the rank carried from the previous entity, the updated `currentRank` is 1 plus the number of entities scoring strictly more, and the entry holds that entity, that rank, its tie flag and the label `formatRank` gives |
| Ranking.WalkRanks | src/utilities/rankingUtils.ts:25-51 | the loop over the sorted copy produces one entry per entity, each with its entity, its competition rank, its tie flag and its label |
| Ranking.RankStepHolds | src/utilities/rankingUtils.ts:31-38 | the rank carried over on an equal score, or reset to the 1-based position on a drop, is the competition rank |
| Ranking.FormatRank | src/utilities/rankingUtils.ts:59-63 | the text starts with "T-" exactly when the rank is tied, and ends with the rank's two-letter suffix |
| Ranking.RankSuffix | src/utilities/rankingUtils.ts:68-82 | every suffix is one of "st", "nd", "rd" and "th", two letters long (which one, by cases, is stated by RankSuffixByCases) |
| Ranking.FirstRankIsOne | src/utilities/rankingUtils.ts:26 | in a competition ranking the first entity has rank 1 |
| Ranking.RanksMonotone | src/utilities/rankingUtils.ts:28-51 | ranks never decrease along the ranking, and the entity at 0-based position j has rank at most j + 1 |
| Ranking.RankStep | src/utilities/rankingUtils.ts:31-38 | an entity with its predecessor's score has its predecessor's rank; after a strict drop its rank is its 1-based position |
| Ranking.SameRankIffSameScore | src/utilities/rankingUtils.ts:12-14 | two entities share a rank if and only if they share a score |
| Ranking.LabelledAt | src/utilities/rankingUtils.ts:48 | every entry's display text is its rank formatted with its tie flag |
| Ranking.DocExample | src/utilities/rankingUtils.ts:16-20 | scores 100, 100, 90, 80, 80, 70 receive ranks 1, 1, 3, 4, 4, 6 and labels T-1st, T-1st, 3rd, T-4th, T-4th, 6th |
| Ranking.CalculateRanksDocExample | src/utilities/rankingUtils.ts:16-54 | ranking the scores 100, 100, 90, 80, 80, 70 keeps that order and yields ranks 1, 1, 3, 4, 4, 6 labelled T-1st, T-1st, 3rd, T-4th, T-4th, 6th |
| Ranking.JsRem | src/utilities/rankingUtils.ts:69-72 | the remainder lies strictly between -m and m; for a non-negative dividend it is the ordinary remainder; for a negative one it is at most 0 and differs from the dividend by a multiple of m, as JavaScript `%` truncates |
| Ranking.RankSuffixByCases | src/utilities/rankingUtils.ts:68-82 | a non-negative rank gets "st", "nd" or "rd" exactly when its last digit is 1, 2 or 3 and it is not 11, 12 or 13 modulo 100, and "th" exactly when its last digit is none of 1, 2, 3 or it is 11 to 13 modulo 100 |
| Ranking.RankSuffixPeriodic | src/utilities/rankingUtils.ts:68-82 | the suffix of a non-negative rank repeats every 100 ranks |
| Ranking.RankSuffixExamples | src/utilities/rankingUtils.ts:68-82 | 1st, 2nd, 3rd, 4th; 11th, 12th, 13th, 111th; 21st, 22nd, 23rd |
| Ranking.NatToStringRoundTrip | src/utilities/rankingUtils.ts:62 | the decimal numeral printed for a rank reads back as that rank |
| Ranking.FormatRankRoundTrip | src/utilities/rankingUtils.ts:59-63 | the display text of a non-negative rank determines both the rank and the tie flag |
| Ranking.FormatRankExamples | src/utilities/rankingUtils.ts:59-63 | "T-1st", "3rd", "T-4th", "6th", "T-2nd", "11th", "21st" for the corresponding inputs |
| Ranking.GetPositionStyleClass | src/utilities/rankingUtils.ts:88-103 | first exactly for rank 1, second exactly for rank 2, third exactly for rank 3, top-3 exactly for ranks up to 3; at most one of first, second and third is set; for a rank of at least 1 top-3 implies one of them |
| Ranking.StyleIgnoresTie | src/utilities/rankingUtils.ts:88-103 | the style flags do not depend on the tie flag |
| Ranking.ItemsInRank | src/utilities/rankingUtils.ts:108-110 | the result is exactly `rankings.filter(item => item.rank === rank)`: an in-order selection of the entries, all holding the rank, as many as the entries holding it, so repeated equal entries are all kept |
| Ranking.ItemsInRankComplete | src/utilities/rankingUtils.ts:108-110 | no entry holding the rank is left out |
| Ranking.ItemsInRankNonEmpty | src/utilities/rankingUtils.ts:108-110 | the result is non-empty exactly when some entry holds the rank |
| Ranking.ItemsInRankTwo | src/utilities/rankingUtils.ts:115-117 | a rank is tied exactly when two distinct positions hold it |
| Ranking.IsRankTied | src/utilities/rankingUtils.ts:115-117 | a rank is tied exactly when two distinct positions hold it |
| Ranking.IsRankTiedIffFlagged | src/utilities/rankingUtils.ts:115-117 | on a computed ranking, a rank is tied exactly when some entry holding it carries the tie flag |
| ParticipantTotal.PlacementQuery | src/utilities/calculateParticipantPoints.ts:37-48 | the query result is an in-order selection of the items holding exactly the items naming the participant's id in a result slot: every one it returns names the participant, it has as many items as name it, and none naming it is dropped |
| ParticipantTotal.UnnamedItemEarnsNothing | src/utilities/calculateParticipantPoints.ts:37-48 | an item the query drops would have earned nothing |
| ParticipantTotal.QueryKeepsTotal | src/utilities/calculateParticipantPoints.ts:37-72 | summing over the query result gives the same total as summing over every item |
| ParticipantTotal.ZeroIdEarnsNothing | src/utilities/calculateParticipantPoints.ts:61-71 | the id 0 scores 0 on this path |
| ParticipantTotal.GradesIgnored | src/utilities/calculateParticipantPoints.ts:53-72 | removing every grade award from the items leaves the total unchanged |
| ParticipantTotal.SumPlacements | src/utilities/calculateParticipantPoints.ts:50-72 | the loop's total is the sum over the items of every slot, checked independently, that holds the participant, at its rate for the item's type |
| ParticipantTotal.CalculateParticipantPoints | src/utilities/calculateParticipantPoints.ts:7-79 | 0 when the settings or items read fails; otherwise the sum over all items of every slot holding the participant at its configured rate |
| PointsBreakdown.ExpectedPosition | src/utilities/calculatePoints.ts:166-191 | a position's count is the sum of its per-type counts, its points total is the sum of its per-type points, and each per-type count is the number of items crediting that position |
| PointsBreakdown.ExpectedPositionStep | src/utilities/calculatePoints.ts:166-191 | one more item credits its position once and leaves the other two unchanged |
| PointsBreakdown.PositionPointsAddUp | src/utilities/calculatePoints.ts:241-247 | the position points are the sum of the three positions' point totals |
| PointsBreakdown.PositionCountsAddUp | src/utilities/calculatePoints.ts:254 | the number of items crediting some position is the sum of the three counts |
| PointsBreakdown.FindGrade | src/utilities/calculatePoints.ts:206 | a found grade has that key and is the first grade in the list with it; nothing is found only when no grade has the key |
| PointsBreakdown.EntryAward | src/utilities/calculatePoints.ts:200-207 | an entry awards exactly when its key is non-empty, its participant matches and its key is configured; the award carries the key, the grade's label and its points for the item type |
| PointsBreakdown.Tally | src/utilities/calculatePoints.ts:208-227 | a key's breakdown count and points total are the sums of their per-type parts, and an unawarded key has an all-zero breakdown |
| PointsBreakdown.AwardSnoc | src/utilities/calculatePoints.ts:219-227 | one more award credits only its own key's tally, adds that key and adds its points to the total |
| PointsBreakdown.KeysOfAppend | src/utilities/calculatePoints.ts:196-230 | the keys awarded over two lists are the union of each list's keys |
| PointsBreakdown.AwardsAreConfigured | src/utilities/calculatePoints.ts:205-212 | every award names a key of the grade system and carries that grade's label |
| PointsBreakdown.RecordAward | src/utilities/calculatePoints.ts:208-227 | the get-or-create then credit step keeps the map an exact tally of the awards, with its keys listed once each in insertion order |
| PointsBreakdown.KeySumsTotal | src/utilities/calculatePoints.ts:252-256 | over distinct keys covering every awarded key, the tallies count every award once and their points add up to the awards' total |
| PointsBreakdown.ValuesInOrder | src/utilities/calculatePoints.ts:235 | the map's values are listed in key insertion order |
| PointsBreakdown.StrLeTotal | src/utilities/calculatePoints.ts:235-237 | any two keys are comparable |
| PointsBreakdown.StrLeTrans | src/utilities/calculatePoints.ts:235-237 | the key order is transitive |
| PointsBreakdown.StrLeAntisym | src/utilities/calculatePoints.ts:235-237 | keys that compare both ways are equal |
| PointsBreakdown.KeyOrderIsTotalPreorder | src/utilities/calculatePoints.ts:235-237 | the grade table's comparator is total and transitive |
| PointsBreakdown.GradeTableFromMap | src/utilities/calculatePoints.ts:234-237 | the map's values sorted by key form the grade table: each entry the tally of its key, its keys exactly the awarded keys, strictly increasing, with points and counts adding up to the awards' |
| PointsBreakdown.ValuesAreTallies | src/utilities/calculatePoints.ts:235 | the values read out of the map are tallies with pairwise distinct keys, in insertion order |
| PointsBreakdown.TableEntries | src/utilities/calculatePoints.ts:234-237 | sorting the tallies keeps every entry a tally and makes the keys strictly increasing |
| PointsBreakdown.TableKeys | src/utilities/calculatePoints.ts:234-237 | the sorted table carries exactly the inserted keys |
| PointsBreakdown.SelectionQuery | src/utilities/calculatePoints.ts:119-132 | the query result is an in-order selection of the items holding exactly the items placing or grading the participant's id: every one it returns names the participant, it has as many items as name it, and none naming it is dropped |
| PointsBreakdown.DroppedItemCreditsNothing | src/utilities/calculatePoints.ts:119-132 | an item the query drops credits no position and no grade |
| PointsBreakdown.SelectionKeepsCounts | src/utilities/calculatePoints.ts:119-132 | the per-type position counts over the query result equal those over every item |
| PointsBreakdown.SelectionKeepsCreditedItems | src/utilities/calculatePoints.ts:119-132 | the number of items crediting a position is the same over the query result and over every item |
| PointsBreakdown.SelectionKeepsPositionPoints | src/utilities/calculatePoints.ts:119-132 | the position points are the same over the query result and over every item |
| PointsBreakdown.SelectionKeepsPositions | src/utilities/calculatePoints.ts:119-132 | each position breakdown is the same over the query result and over every item |
| PointsBreakdown.SelectionKeepsGrades | src/utilities/calculatePoints.ts:119-132 | the grade awards over the query result are exactly those over every item, in the same order |
| PointsBreakdown.EmptyBreakdown | src/utilities/calculatePoints.ts:271-313 | the error result has 0 points, an empty grade table and the default point system with no grades |
| PointsBreakdown.RecordEntry | src/utilities/calculatePoints.ts:196-230 | processing one grade entry keeps the map an exact tally of the awards, now with that entry's award if it has one, and the grade points equal to their total |
| PointsBreakdown.TallyGrades | src/utilities/calculatePoints.ts:193-231 | after an item's grade entries the map tallies the earlier awards followed by that item's, and the grade points are their total |
| PointsBreakdown.ProcessItem | src/utilities/calculatePoints.ts:158-232 | one item credits at most the first position holding the participant, adds exactly its points, and records the item's grade awards |
| PointsBreakdown.ProcessItems | src/utilities/calculatePoints.ts:134-232 | after all queried items each position breakdown, the position points, the grade map and the grade points are those the items determine |
| PointsBreakdown.CalculateParticipantPoints | src/utilities/calculatePoints.ts:86-314 | the empty breakdown when either read fails; otherwise every position breakdown and the grade table as over all items, total = position points + grade points, the summary counts, and the point system in force with the grade system |
| PointsBreakdown.BreakdownOf | src/utilities/calculatePoints.ts:119-269 | once both reads succeed, the response holds every position breakdown and the grade table as over all items, total = position points + grade points, the summary counts and the point system in force |
| PointsBreakdown.PositionsAssembled | src/utilities/calculatePoints.ts:239-256 | positions counted over the query result equal those of all items, and their counts add up to the number of items crediting a position |
| PointsBreakdown.GradesAssembled | src/utilities/calculatePoints.ts:234-256 | the grade table built over the query result is the grade table of all items' awards, with counts adding up to the number of awards |
| PointsBreakdown.GetParticipantTotalPoints | src/utilities/calculatePoints.ts:319-325 | 0 when either read fails; otherwise the first-match position points plus all grade points |
| Scoreboard.PlacedItemsByType | src/endpoints/index.ts:84-115 | every placement is counted under exactly one item type |
| Scoreboard.EntryScoreIsWeightedCounts | src/endpoints/index.ts:118-129 | an entry's score is its six per-type placement counts weighted by their rates, and each position's count is the number of items holding the participant there |
| Scoreboard.UnplacedScoresZero | src/endpoints/index.ts:74-130 | a participant in no result slot scores 0 with an all-zero breakdown |
| Scoreboard.ScoreParticipant | src/endpoints/index.ts:74-130 | the callback returns the participant with its independent-slot score and per-position, per-type counts |
| Scoreboard.CountPosition | src/endpoints/index.ts:84-115 | after one more item's check of a slot, the counter is the per-type placement count over the items so far, and the score grows by the slot's rate for the item's type exactly when the slot holds the participant |
| Scoreboard.Entries | src/endpoints/index.ts:74 | one entry per participant, in the participants' order |
| Scoreboard.GetScoreboardData | src/endpoints/index.ts:38-143 | the point system in force, and the participants' entries stably sorted by descending score: a permutation of the entries with scores non-increasing |
| Scoreboard.CategoryItems | src/endpoints/index.ts:200-203 | the category's items are an in-order selection of the items holding exactly those whose category resolves to its id: each comes from the items and lies in the category, there are as many as lie in it, and none that lies in it is left out |
| Scoreboard.CellPoints | src/endpoints/index.ts:215-230 | a cell is the points of the first of First, Second, Third whose resolved id equals the participant's, at the rate for the item's type, and 0 when none does |
| Scoreboard.BuildRow | src/endpoints/index.ts:209-241 | one value per item, each the points of the first position holding the participant, and a total equal to the sum of the values |
| Scoreboard.ExpectedRows | src/endpoints/index.ts:209 | one row per participant, in the participants' order |
| Scoreboard.BuildPivotTable | src/endpoints/index.ts:198-251 | the table built is exactly `PivotTable`: the category's items as headers and one row per participant, sorted with the descending-total comparator |
| Scoreboard.PivotTableShape | src/endpoints/index.ts:198-251 | a pivot table carries the category's name, one header per category item, and a permutation of the participants' rows sorted by descending total |
| Scoreboard.PivotRowsAreParticipantRows | src/endpoints/index.ts:209-250 | every table row is some participant's row, with one value per header and a total equal to the sum of its values |
| Scoreboard.RowTotalIsValuesSum | src/endpoints/index.ts:232-233 | a row's total is the sum of its values |
| Scoreboard.EmptyCategory | src/endpoints/index.ts:198-251 | a category with no items has no headers, and every row has no values and total 0 |
| Scoreboard.GetDetailedScoreboardData | src/endpoints/index.ts:153-253 | one table per category, in the categories' order, each that category's pivot table under the point system in force |
| PathAgreement.RawSlot | src/endpoints/index.ts:64-71 | a depth-0 slot is present exactly when the slot is, and holds the bare id |
| PathAgreement.AllAtDepth0 | src/endpoints/index.ts:64-71 | each item is read back with bare ids only |
| PathAgreement.LooseAtDepth0IsResolved | src/endpoints/index.ts:84 | on depth-0 data the leaderboard's plain comparison is the pivot tables' resolving one |
| PathAgreement.Depth0Total | src/endpoints/index.ts:80-116 | the leaderboard total over depth-0 items equals the resolving total over the same items |
| PathAgreement.CategorySumStep | src/endpoints/index.ts:198-203 | one more item adds its points to the per-category sum once for each category it belongs to |
| PathAgreement.CategorySumEmpty | src/endpoints/index.ts:198-251 | with no items the per-category sum is 0 |
| PathAgreement.CategoriesPartitionTotal | src/endpoints/index.ts:198-251 | when every item lies in exactly one category, a participant's row totals over all tables add up to its first-match total |
| PathAgreement.PartitionStep | src/endpoints/index.ts:198-251 | adding an item of exactly one category keeps the sum over the tables equal to the first-match total |
| PathAgreement.PivotRowsSumToScore | src/endpoints/index.ts:198-251 | when every item lies in exactly one category and the participant holds at most one slot per item, the totals of its pivot rows (`RowTotals`) over all tables, and likewise the per-category first-match sums, add up to its leaderboard score |
| PathAgreement.RowTotalsAreCategorySum | src/endpoints/index.ts:198-251 | the participant's pivot-row totals, one per category, add up to the per-category first-match sums |
| Scoreboard.ParticipantRowInTable | src/endpoints/index.ts:209-251 | every participant's row appears among the sorted rows of each category's table |
| PathAgreement.TwoSlotsPaidDifferently | src/endpoints/index.ts:224-230 | a participant holding First and Second of one individual item gets 7 on the leaderboard and 5 in the pivot table |
| PathAgreement.GuardedTotalIsLooseTotal | src/utilities/calculateParticipantPoints.ts:61-71 | for a non-zero id, the guarded total equals the plain-comparison total |
| PathAgreement.ScoreboardMatchesTotalOnly | src/utilities/calculateParticipantPoints.ts:53-72 | over the same item list, for a non-zero id, the leaderboard score equals the total-only scorer's result |
| PathAgreement.EmptyGradeSystemAwardsNothing | src/utilities/calculatePoints.ts:117 | with no grade system no grade is ever awarded |
| PathAgreement.EntriesAwardNothing | src/utilities/calculatePoints.ts:206-207 | with no grade system no entry of an item awards anything |
| PathAgreement.BreakdownTotalIsTotalOnly | src/utilities/calculatePoints.ts:239-241 | over the same item list, with no grade system and at most one slot per item, the detailed total equals the total-only scorer's |

## Left out

- Database reads are inputs. `payload.findGlobal` and `payload.find` become
  parameters carrying the documents they return. This includes the `active`
  filter, the `order` sort and the query limits. The code's own filtering
  query is modelled.
- The item reads of the four paths do not return the same items, and the
  model does not carry the difference. The leaderboard and the pivot tables
  read only active items, at most 10000 (src/endpoints/index.ts:64-71,
  176-185). The total-only query has no `active` filter and no `limit`, so
  the data layer's default page size applies
  (src/utilities/calculateParticipantPoints.ts:38-48). The detailed query has
  no `active` filter (src/utilities/calculatePoints.ts:120-132). The
  PathAgreement lemmas compare the paths over one shared item list, so they
  speak of the case where these reads return the same items.
- The two `try`/`catch` scorers take `Fetch` inputs. A failed read of the
  settings or the items gives the zeroed result. Other exceptions inside the
  `try` are not modelled.
- `Scoreboard.GetScoreboardData` and `Scoreboard.GetDetailedScoreboardData`
  have no `try`/`catch`. A failed read there propagates to the caller, which is
  not part of this model.
- `Scoreboard.GetScoreboardData` does not return `lastUpdated`, because it is a
  clock reading.
- `console.error` in the `catch` blocks is logging only and is left out.
- Participant ids are integers, as after `parseInt`. A string id that loosely
  equals a number therefore has no separate representation, and `parseInt` of
  a non-numeric string (NaN) is not modelled.
- PointsBreakdown.StrLe: `localeCompare` is modelled as the order of character
  codes. Locale collation rules need an external table.
- Missing or non-numeric grade points (`undefined`, NaN) are not modelled. Grade
  points are integers.
- Sorting.SortBy: the stability of `Array.prototype.sort` holds by how the
  insertion sort is written. No separate lemma states it.
- The source copies its input before sorting, so sorting never mutates the
  caller's array. The model works on values, so this holds trivially.
- The HTTP endpoint table, `getFullData` and the UI that shows the results are
  outside the scoring core.
