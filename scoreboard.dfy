/** The two scoreboard computations of src/endpoints/index.ts: the
    leaderboard (`getScoreboardData`), which counts every result slot
    holding a participant's id, and the per-category pivot tables
    (`getDetailedScoreboardData`), which credit at most one position per
    item. Both sort with `Array.prototype.sort`, modelled by Sorting.SortBy. */
module Scoreboard {
  import opened Wrappers
  import opened FestModel
  import opened Sorting
  import opened Ranking
  import opened Sequences

  // ---------------------------------------------------------------------
  // getScoreboardData

  /** One position's counter: placements per item type and in all. */
  datatype PlaceCount = PlaceCount(group: int, individual: int, total: int)

  datatype ByType = ByType(group: int, individual: int)

  /** A leaderboard entry's `breakdown`. */
  datatype ScoreBreakdown = ScoreBreakdown(
    first: int, second: int, third: int,
    firstByType: ByType, secondByType: ByType, thirdByType: ByType)

  /** `LeaderboardParticipant`: the participant's record with its score and breakdown. */
  datatype LeaderboardParticipant = LeaderboardParticipant(participant: Participant, score: int, breakdown: ScoreBreakdown)

  /** The leaderboard response, without its `lastUpdated` clock reading. */
  datatype ScoreboardData = ScoreboardData(participants: seq<LeaderboardParticipant>, pointsSystem: PointSystem)

  const NoPlaces := PlaceCount(0, 0, 0)

  /** How many items hold the participant at position `p`, whatever their type. */
  function PlacedItems(mode: MatchMode, items: seq<Item>, pid: Id, p: Position): nat {
    if items == [] then 0
    else PlacedItems(mode, items[..|items| - 1], pid, p) + (if Placed(mode, items[|items| - 1], pid, p) then 1 else 0)
  }

  /** Every placement is of one of the two item types. */
  lemma {:induction false} PlacedItemsByType(mode: MatchMode, items: seq<Item>, pid: Id, p: Position)
    ensures PlacedItems(mode, items, pid, p) == PlacedCount(mode, items, pid, p, Group) + PlacedCount(mode, items, pid, p, Individual)
  {
    if items != [] {
      PlacedItemsByType(mode, items[..|items| - 1], pid, p);
    }
  }

  /** The counter a position ends with: the loose comparison, each slot on its own. */
  function ExpectedCount(items: seq<Item>, pid: Id, p: Position): PlaceCount {
    var g := PlacedCount(Loose, items, pid, p, Group);
    var n := PlacedCount(Loose, items, pid, p, Individual);
    PlaceCount(g, n, g + n)
  }

  function ExpectedBreakdown(items: seq<Item>, pid: Id): ScoreBreakdown {
    var f := ExpectedCount(items, pid, First);
    var s := ExpectedCount(items, pid, Second);
    var t := ExpectedCount(items, pid, Third);
    ScoreBreakdown(f.total, s.total, t.total, ByType(f.group, f.individual), ByType(s.group, s.individual), ByType(t.group, t.individual))
  }

  /** The entry the `participants.map` callback returns. */
  function ExpectedEntry(participant: Participant, items: seq<Item>, ps: PointSystem): LeaderboardParticipant {
    LeaderboardParticipant(participant, IndependentTotal(Loose, items, participant.id, ps), ExpectedBreakdown(items, participant.id))
  }

  /** The entries before sorting, one per participant, in order. */
  function Entries(participants: seq<Participant>, items: seq<Item>, ps: PointSystem): (es: seq<LeaderboardParticipant>)
    ensures |es| == |participants|
    ensures forall j :: 0 <= j < |participants| ==> es[j] == ExpectedEntry(participants[j], items, ps)
  {
    seq(|participants|, j requires 0 <= j < |participants| => ExpectedEntry(participants[j], items, ps))
  }

  function ScoreOf(e: LeaderboardParticipant): int { e.score }

  /** An entry's score is its placement counts weighted by the points of
      their position and type, and each position's count is the number of
      items holding the participant there, split by type. */
  lemma EntryScoreIsWeightedCounts(participant: Participant, items: seq<Item>, ps: PointSystem)
    ensures var e := ExpectedEntry(participant, items, ps);
      var b := e.breakdown;
      && e.score ==
        b.firstByType.group * Rate(ps, First, Group) + b.firstByType.individual * Rate(ps, First, Individual)
        + b.secondByType.group * Rate(ps, Second, Group) + b.secondByType.individual * Rate(ps, Second, Individual)
        + b.thirdByType.group * Rate(ps, Third, Group) + b.thirdByType.individual * Rate(ps, Third, Individual)
      && b.first == PlacedItems(Loose, items, participant.id, First)
      && b.second == PlacedItems(Loose, items, participant.id, Second)
      && b.third == PlacedItems(Loose, items, participant.id, Third)
  {
    IndependentTotalByCounts(Loose, items, participant.id, ps);
    PlacedItemsByType(Loose, items, participant.id, First);
    PlacedItemsByType(Loose, items, participant.id, Second);
    PlacedItemsByType(Loose, items, participant.id, Third);
  }

  /** A participant named in no slot scores 0 with an all-zero breakdown. */
  lemma {:induction false} UnplacedScoresZero(participant: Participant, items: seq<Item>, ps: PointSystem)
    requires forall k :: 0 <= k < |items| ==> !InSomeSlot(Loose, items[k], participant.id)
    ensures ExpectedEntry(participant, items, ps).score == 0
    ensures ExpectedEntry(participant, items, ps).breakdown == ScoreBreakdown(0, 0, 0, ByType(0, 0), ByType(0, 0), ByType(0, 0))
  {
    if items != [] {
      var init := items[..|items| - 1];
      assert forall k :: 0 <= k < |init| ==> init[k] == items[k];
      UnplacedScoresZero(participant, init, ps);
    }
  }

  /** The `participants.map` callback: walk every item, checking the three
      slots independently with the loose comparison. */
  method ScoreParticipant(participant: Participant, items: seq<Item>, ps: PointSystem) returns (entry: LeaderboardParticipant)
    ensures entry == ExpectedEntry(participant, items, ps)
  {
    var pid := participant.id;
    var firstCount, secondCount, thirdCount := NoPlaces, NoPlaces, NoPlaces;
    var totalPoints := 0;
    var i := 0;
    while i < |items|
      invariant 0 <= i <= |items|
      invariant firstCount == ExpectedCount(items[..i], pid, First)
      invariant secondCount == ExpectedCount(items[..i], pid, Second)
      invariant thirdCount == ExpectedCount(items[..i], pid, Third)
      invariant totalPoints == IndependentTotal(Loose, items[..i], pid, ps)
    {
      firstCount, totalPoints := CountPosition(items, i, pid, ps, First, firstCount, totalPoints);
      secondCount, totalPoints := CountPosition(items, i, pid, ps, Second, secondCount, totalPoints);
      thirdCount, totalPoints := CountPosition(items, i, pid, ps, Third, thirdCount, totalPoints);
      assert items[..i + 1][..i] == items[..i];
      i := i + 1;
    }
    assert items[..i] == items;
    entry := LeaderboardParticipant(participant, totalPoints,
      ScoreBreakdown(firstCount.total, secondCount.total, thirdCount.total,
        ByType(firstCount.group, firstCount.individual),
        ByType(secondCount.group, secondCount.individual),
        ByType(thirdCount.group, thirdCount.individual)));
  }

  /** One of the callback's three slot checks on `items[i]`: when the slot
      holds the participant, bump the position's counter for the item's type
      and add that position's points for the type. */
  method CountPosition(items: seq<Item>, i: nat, pid: Id, ps: PointSystem, p: Position, count0: PlaceCount, points0: int)
    returns (count: PlaceCount, points: int)
    requires i < |items|
    requires count0 == ExpectedCount(items[..i], pid, p)
    ensures count == ExpectedCount(items[..i + 1], pid, p)
    ensures points == points0 + (if Placed(Loose, items[i], pid, p) then Rate(ps, p, items[i].itemType) else 0)
  {
    var item := items[i];
    var pair := PairAt(ps, p);
    assert items[..i + 1][..i] == items[..i];
    count, points := count0, points0;
    if SlotMatches(Loose, Slot(item.results, p), pid) {
      count := count.(total := count.total + 1);
      if item.itemType == Group {
        count := count.(group := count.group + 1);
        points := points + pair.group;
      } else {
        count := count.(individual := count.individual + 1);
        points := points + pair.individual;
      }
    }
  }

  /** `getScoreboardData`: one entry per participant, sorted by descending
      score (ties keep the participants' order), with the point system in
      force. */
  method GetScoreboardData(settings: Settings, participants: seq<Participant>, items: seq<Item>) returns (data: ScoreboardData)
    ensures data.pointsSystem == ResolvePoints(settings.pointsSystem)
    ensures data.participants == SortBy(Entries(participants, items, data.pointsSystem), ScoreDesc(ScoreOf))
    ensures multiset(data.participants) == multiset(Entries(participants, items, data.pointsSystem))
    ensures SortedDesc(data.participants, ScoreOf)
  {
    var ps := ResolvePoints(settings.pointsSystem);
    var scoreboard: seq<LeaderboardParticipant> := [];
    var k := 0;
    while k < |participants|
      invariant 0 <= k <= |participants|
      invariant |scoreboard| == k
      invariant forall j :: 0 <= j < k ==> scoreboard[j] == ExpectedEntry(participants[j], items, ps)
    {
      var entry := ScoreParticipant(participants[k], items, ps);
      scoreboard := scoreboard + [entry];
      k := k + 1;
    }
    assert scoreboard == Entries(participants, items, ps);
    var sorted := SortBy(scoreboard, ScoreDesc(ScoreOf));
    ScoreDescIsTotalPreorder(ScoreOf);
    SortBySorted(scoreboard, ScoreDesc(ScoreOf));
    data := ScoreboardData(sorted, ps);
  }

  // ---------------------------------------------------------------------
  // getDetailedScoreboardData

  datatype PivotRow = PivotRow(category: string, values: seq<int>, total: int)

  datatype PivotTableData = PivotTableData(title: string, headers: seq<string>, rows: seq<PivotRow>)

  /** The item's category resolves to the category's id. */
  predicate InCategory(item: Item, c: Category) {
    Resolve(item.category) == c.id
  }

  /** `competitionItems.filter(...)`: the items of one category, in order. */
  function CategoryItems(items: seq<Item>, c: Category): (r: seq<Item>)
    ensures |r| <= |items|
    ensures forall k :: 0 <= k < |r| ==> InCategory(r[k], c) && r[k] in items
    ensures forall k :: 0 <= k < |items| && InCategory(items[k], c) ==> items[k] in r
    ensures FilteredBy(r, items, (item: Item) => InCategory(item, c))
  {
    if items == [] then EmptyFiltered((item: Item) => InCategory(item, c)); []
    else
      var init := items[..|items| - 1];
      var last := items[|items| - 1];
      var r0 := CategoryItems(init, c);
      assert items == init + [last];
      FilterStep(r0, init, (item: Item) => InCategory(item, c), last);
      var r := if InCategory(last, c) then r0 + [last] else r0;
      SubsequenceMembers(r, items);
      r
  }

  /** `categoryItems.map((item) => item.title)` */
  function Titles(items: seq<Item>): seq<string> {
    seq(|items|, k requires 0 <= k < |items| => items[k].title)
  }

  /** The sum of a row's values. */
  function ValuesSum(vs: seq<int>): int {
    SumOf(vs, (v: int) => v)
  }

  /** The row the `participants.map` callback returns: one value per item
      (the points of the position credited, First before Second before
      Third, after resolving expanded references) and their total. */
  function ExpectedRow(participant: Participant, catItems: seq<Item>, ps: PointSystem): PivotRow {
    PivotRow(participant.name,
      seq(|catItems|, k requires 0 <= k < |catItems| => FirstMatchItemPoints(Resolved, catItems[k], participant.id, ps)),
      FirstMatchTotal(Resolved, catItems, participant.id, ps))
  }

  function ExpectedRows(participants: seq<Participant>, catItems: seq<Item>, ps: PointSystem): (rs: seq<PivotRow>)
    ensures |rs| == |participants|
    ensures forall j :: 0 <= j < |participants| ==> rs[j] == ExpectedRow(participants[j], catItems, ps)
  {
    seq(|participants|, j requires 0 <= j < |participants| => ExpectedRow(participants[j], catItems, ps))
  }

  function TotalOf(r: PivotRow): int { r.total }

  /** The table `categories.map` returns for one category. */
  function PivotTable(c: Category, items: seq<Item>, participants: seq<Participant>, ps: PointSystem): PivotTableData {
    var catItems := CategoryItems(items, c);
    PivotTableData(c.name, Titles(catItems), SortBy(ExpectedRows(participants, catItems, ps), ScoreDesc(TotalOf)))
  }

  /** One cell of a pivot row: the points of the first position whose
      (resolved) id is the participant's, for the item's type, else 0. */
  method CellPoints(item: Item, pid: Id, ps: PointSystem) returns (itemPoints: int)
    ensures itemPoints == FirstMatchItemPoints(Resolved, item, pid, ps)
  {
    var results := item.results;
    var itemType := item.itemType;
    itemPoints := 0;
    var firstId := if results.first.Some? then Some(Resolve(results.first.value)) else None;
    var secondId := if results.second.Some? then Some(Resolve(results.second.value)) else None;
    var thirdId := if results.third.Some? then Some(Resolve(results.third.value)) else None;
    if firstId == Some(pid) {
      itemPoints := if itemType == Group then ps.first.group else ps.first.individual;
    } else if secondId == Some(pid) {
      itemPoints := if itemType == Group then ps.second.group else ps.second.individual;
    } else if thirdId == Some(pid) {
      itemPoints := if itemType == Group then ps.third.group else ps.third.individual;
    }
  }

  /** One pivot row: a value pushed per item, and a running total. */
  method BuildRow(participant: Participant, catItems: seq<Item>, ps: PointSystem) returns (row: PivotRow)
    ensures row == ExpectedRow(participant, catItems, ps)
    ensures row.total == ValuesSum(row.values)
  {
    var values: seq<int> := [];
    var totalPoints := 0;
    var j := 0;
    while j < |catItems|
      invariant 0 <= j <= |catItems|
      invariant PivotRow(participant.name, values, totalPoints) == ExpectedRow(participant, catItems[..j], ps)
      invariant totalPoints == ValuesSum(values)
    {
      var itemPoints := CellPoints(catItems[j], participant.id, ps);
      assert catItems[..j + 1] == catItems[..j] + [catItems[j]];
      ExpectedRowSnoc(participant, catItems[..j], catItems[j], ps);
      SumOfSnoc(values, itemPoints, (v: int) => v);
      values := values + [itemPoints];
      totalPoints := totalPoints + itemPoints;
      j := j + 1;
    }
    assert catItems[..j] == catItems;
    row := PivotRow(participant.name, values, totalPoints);
  }

  /** One more item adds its cell to the end of the row and to its total. */
  lemma ExpectedRowSnoc(participant: Participant, catItems: seq<Item>, x: Item, ps: PointSystem)
    ensures var before := ExpectedRow(participant, catItems, ps);
      var cell := FirstMatchItemPoints(Resolved, x, participant.id, ps);
      ExpectedRow(participant, catItems + [x], ps) == PivotRow(participant.name, before.values + [cell], before.total + cell)
  {
    assert (catItems + [x])[..|catItems|] == catItems;
  }

  /** One category's pivot table: its items' titles as headers and one row
      per participant, sorted by descending total. */
  method BuildPivotTable(c: Category, items: seq<Item>, participants: seq<Participant>, ps: PointSystem)
    returns (table: PivotTableData)
    ensures table == PivotTable(c, items, participants, ps)
  {
    var catItems := CategoryItems(items, c);
    var headers := Titles(catItems);
    var rows: seq<PivotRow> := [];
    var k := 0;
    while k < |participants|
      invariant 0 <= k <= |participants|
      invariant |rows| == k
      invariant forall j :: 0 <= j < k ==> rows[j] == ExpectedRow(participants[j], catItems, ps)
    {
      var row := BuildRow(participants[k], catItems, ps);
      rows := rows + [row];
      k := k + 1;
    }
    assert rows == ExpectedRows(participants, catItems, ps);
    table := PivotTableData(c.name, headers, SortBy(rows, ScoreDesc(TotalOf)));
  }

  /** A pivot table has the category's name, one header per category item,
      and the participants' rows reordered by descending total. */
  lemma PivotTableShape(c: Category, items: seq<Item>, participants: seq<Participant>, ps: PointSystem)
    ensures var table := PivotTable(c, items, participants, ps);
      && table.title == c.name && |table.headers| == |CategoryItems(items, c)|
      && multiset(table.rows) == multiset(ExpectedRows(participants, CategoryItems(items, c), ps))
      && SortedDesc(table.rows, TotalOf)
  {
    var rows := ExpectedRows(participants, CategoryItems(items, c), ps);
    ScoreDescIsTotalPreorder(TotalOf);
    SortBySorted(rows, ScoreDesc(TotalOf));
  }

  /** Each participant's row is one of the table's rows, wherever the sort
      puts it. */
  lemma ParticipantRowInTable(c: Category, items: seq<Item>, participants: seq<Participant>, ps: PointSystem, j: int)
    requires 0 <= j < |participants|
    ensures ExpectedRow(participants[j], CategoryItems(items, c), ps) in PivotTable(c, items, participants, ps).rows
  {
    var rows := ExpectedRows(participants, CategoryItems(items, c), ps);
    assert rows[j] == ExpectedRow(participants[j], CategoryItems(items, c), ps);
    SortByMembers(rows, ScoreDesc(TotalOf), rows[j]);
  }

  /** Every row of a pivot table is some participant's row: as many values
      as headers, adding up to its total. */
  lemma PivotRowsAreParticipantRows(c: Category, items: seq<Item>, participants: seq<Participant>, ps: PointSystem, r: PivotRow)
    requires r in PivotTable(c, items, participants, ps).rows
    ensures exists j :: 0 <= j < |participants| && r == ExpectedRow(participants[j], CategoryItems(items, c), ps)
    ensures |r.values| == |PivotTable(c, items, participants, ps).headers|
    ensures r.total == ValuesSum(r.values)
  {
    var catItems := CategoryItems(items, c);
    var rows := ExpectedRows(participants, catItems, ps);
    SortByMembers(rows, ScoreDesc(TotalOf), r);
    var j :| 0 <= j < |rows| && rows[j] == r;
    RowTotalIsValuesSum(participants[j], catItems, ps);
  }

  /** A row's total is the sum of its values. */
  lemma {:induction false} RowTotalIsValuesSum(participant: Participant, catItems: seq<Item>, ps: PointSystem)
    ensures ExpectedRow(participant, catItems, ps).total == ValuesSum(ExpectedRow(participant, catItems, ps).values)
  {
    if catItems != [] {
      var init := catItems[..|catItems| - 1];
      RowTotalIsValuesSum(participant, init, ps);
      var vs := ExpectedRow(participant, catItems, ps).values;
      assert vs[..|vs| - 1] == ExpectedRow(participant, init, ps).values;
      assert vs == vs[..|vs| - 1] + [vs[|vs| - 1]];
      SumOfSnoc(vs[..|vs| - 1], vs[|vs| - 1], (v: int) => v);
    }
  }

  /** A category with no items has no headers, and every row is empty with total 0. */
  lemma EmptyCategory(c: Category, items: seq<Item>, participants: seq<Participant>, ps: PointSystem)
    requires forall k :: 0 <= k < |items| ==> !InCategory(items[k], c)
    ensures PivotTable(c, items, participants, ps).headers == []
    ensures forall r :: r in PivotTable(c, items, participants, ps).rows ==> r.values == [] && r.total == 0
  {
    NoCategoryItems(items, c);
    forall r | r in PivotTable(c, items, participants, ps).rows ensures r.values == [] && r.total == 0 {
      PivotRowsAreParticipantRows(c, items, participants, ps, r);
      var j :| 0 <= j < |participants| && r == ExpectedRow(participants[j], [], ps);
    }
  }

  /** No item of the category: the filter keeps nothing. */
  lemma {:induction false} NoCategoryItems(items: seq<Item>, c: Category)
    requires forall k :: 0 <= k < |items| ==> !InCategory(items[k], c)
    ensures CategoryItems(items, c) == []
  {
    if items != [] {
      var init := items[..|items| - 1];
      assert forall k :: 0 <= k < |init| ==> init[k] == items[k];
      NoCategoryItems(init, c);
    }
  }

  /** `getDetailedScoreboardData`: one pivot table per category, in the
      categories' order. */
  method GetDetailedScoreboardData(settings: Settings, categories: seq<Category>, items: seq<Item>, participants: seq<Participant>)
    returns (tables: seq<PivotTableData>)
    ensures |tables| == |categories|
    ensures forall k :: 0 <= k < |categories| ==>
      tables[k] == PivotTable(categories[k], items, participants, ResolvePoints(settings.pointsSystem))
  {
    var ps := ResolvePoints(settings.pointsSystem);
    tables := [];
    var k := 0;
    while k < |categories|
      invariant 0 <= k <= |categories|
      invariant |tables| == k
      invariant forall j :: 0 <= j < k ==> tables[j] == PivotTable(categories[j], items, participants, ps)
    {
      var table := BuildPivotTable(categories[k], items, participants, ps);
      assert forall j :: 0 <= j < k ==> (tables + [table])[j] == tables[j];
      tables := tables + [table];
      k := k + 1;
    }
  }
}
