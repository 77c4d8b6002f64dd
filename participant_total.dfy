/** The total-only scorer of src/utilities/calculateParticipantPoints.ts:
    the items naming the participant are walked once, and each of the three
    result slots is checked on its own, so grades never count and a
    participant in two slots of one item is paid for both. */
module ParticipantTotal {
  import opened Wrappers
  import opened FestModel
  import opened Sequences

  /** The item names the participant's raw id in some result slot: the
      filter `results.First/Second/Third equals participantId` the
      database applies before the loop runs. */
  predicate NamesInSlot(item: Item, pid: Id) {
    InSomeSlot(Loose, item, pid)
  }

  /** The query result: the items that name the participant, in order. */
  function PlacementQuery(items: seq<Item>, pid: Id): (r: seq<Item>)
    ensures |r| <= |items|
    ensures forall k :: 0 <= k < |r| ==> NamesInSlot(r[k], pid)
    ensures forall k :: 0 <= k < |items| && NamesInSlot(items[k], pid) ==> items[k] in r
    ensures FilteredBy(r, items, (item: Item) => NamesInSlot(item, pid))
  {
    if items == [] then EmptyFiltered((item: Item) => NamesInSlot(item, pid)); []
    else
      var init := items[..|items| - 1];
      var last := items[|items| - 1];
      var r0 := PlacementQuery(init, pid);
      assert items == init + [last];
      FilterStep(r0, init, (item: Item) => NamesInSlot(item, pid), last);
      if NamesInSlot(last, pid) then r0 + [last] else r0
  }

  /** An item the query drops earns nothing under the guarded comparison. */
  lemma UnnamedItemEarnsNothing(item: Item, pid: Id, ps: PointSystem)
    requires !NamesInSlot(item, pid)
    ensures IndependentItemPoints(Guarded, item, pid, ps) == 0
  {
  }

  /** The query does not change the total: summing over every item gives
      the same number. */
  lemma {:induction false} QueryKeepsTotal(items: seq<Item>, pid: Id, ps: PointSystem)
    ensures IndependentTotal(Guarded, PlacementQuery(items, pid), pid, ps) == IndependentTotal(Guarded, items, pid, ps)
  {
    if items != [] {
      var init := items[..|items| - 1];
      var last := items[|items| - 1];
      QueryKeepsTotal(init, pid, ps);
      if NamesInSlot(last, pid) {
        IndependentTotalAppend(Guarded, PlacementQuery(init, pid), [last], pid, ps);
        assert [last][..0] == [];
      } else {
        UnnamedItemEarnsNothing(last, pid, ps);
      }
    }
  }

  /** The id 0 is falsy, so it never earns anything. */
  lemma {:induction false} ZeroIdEarnsNothing(items: seq<Item>, ps: PointSystem)
    ensures IndependentTotal(Guarded, items, 0, ps) == 0
  {
    if items != [] {
      ZeroIdEarnsNothing(items[..|items| - 1], ps);
    }
  }

  /** The item with its grade awards removed. */
  function WithoutGrades(item: Item): (r: Item)
    ensures r.grade == [] && r.results == item.results && r.itemType == item.itemType
  {
    item.(grade := [])
  }

  /** Grade awards never count on this path: the total of the items is the
      total of the same items stripped of their grades. */
  lemma {:induction false} GradesIgnored(items: seq<Item>, stripped: seq<Item>, pid: Id, ps: PointSystem)
    requires |stripped| == |items|
    requires forall k :: 0 <= k < |items| ==> stripped[k] == WithoutGrades(items[k])
    ensures IndependentTotal(Guarded, stripped, pid, ps) == IndependentTotal(Guarded, items, pid, ps)
  {
    if items != [] {
      var n := |items| - 1;
      assert forall k :: 0 <= k < n ==> stripped[..n][k] == WithoutGrades(items[..n][k]);
      GradesIgnored(items[..n], stripped[..n], pid, ps);
    }
  }

  /** The loop over the queried items: each of the three slots that holds
      the participant adds its points for the item's type. */
  method SumPlacements(docs: seq<Item>, pid: Id, ps: PointSystem) returns (total: int)
    ensures total == IndependentTotal(Guarded, docs, pid, ps)
  {
    total := 0;
    var i := 0;
    while i < |docs|
      invariant 0 <= i <= |docs|
      invariant total == IndependentTotal(Guarded, docs[..i], pid, ps)
    {
      var item := docs[i];
      var results := item.results;
      if SlotMatches(Guarded, results.first, pid) {
        total := total + ForType(ps.first, item.itemType);
      }
      if SlotMatches(Guarded, results.second, pid) {
        total := total + ForType(ps.second, item.itemType);
      }
      if SlotMatches(Guarded, results.third, pid) {
        total := total + ForType(ps.third, item.itemType);
      }
      assert docs[..i + 1][..i] == docs[..i];
      i := i + 1;
    }
    assert docs[..i] == docs;
  }

  /** `calculateParticipantPoints` (the total-only one): on a failed fetch of
      the settings or of the items the result is 0; otherwise it sums, over
      the queried items, the points of every slot holding the participant,
      which equals that sum over all items. */
  method CalculateParticipantPoints(settings: Fetch<Settings>, items: Fetch<seq<Item>>, pid: Id) returns (total: int)
    ensures settings.FetchFailed? || items.FetchFailed? ==> total == 0
    ensures settings.Fetched? && items.Fetched? ==>
      total == IndependentTotal(Guarded, items.value, pid, ResolvePoints(settings.value.pointsSystem))
  {
    if settings.FetchFailed? {
      return 0;
    }
    var ps := ResolvePoints(settings.value.pointsSystem);
    if items.FetchFailed? {
      return 0;
    }
    var docs := PlacementQuery(items.value, pid);
    total := SumPlacements(docs, pid, ps);
    QueryKeepsTotal(items.value, pid, ps);
  }
}
