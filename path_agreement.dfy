/** How the scoring paths relate. The leaderboard, the pivot tables, the
    total-only scorer and the detailed breakdown each compare ids their own
    way and credit slots their own way; these lemmas say when their
    numbers agree and show an input where they do not. */
module PathAgreement {
  import opened Wrappers
  import opened FestModel
  import opened PointsBreakdown
  import opened Scoreboard

  // ---------------------------------------------------------------------
  // Query depth

  /** A reference as a depth-0 query returns it: the bare id. */
  function RawSlot(slot: Option<Ref>): (r: Option<Ref>)
    ensures r.Some? <==> slot.Some?
    ensures r.Some? ==> r.value == Raw(Resolve(slot.value))
  {
    if slot.Some? then Some(Raw(Resolve(slot.value))) else None
  }

  /** An item as a depth-0 query returns it: every reference a bare id. */
  function AtDepth0(item: Item): Item {
    item.(category := Raw(Resolve(item.category)),
          results := Results(RawSlot(item.results.first), RawSlot(item.results.second), RawSlot(item.results.third)))
  }

  function AllAtDepth0(items: seq<Item>): (r: seq<Item>)
    ensures |r| == |items|
    ensures forall k :: 0 <= k < |items| ==> r[k] == AtDepth0(items[k])
  {
    seq(|items|, k requires 0 <= k < |items| => AtDepth0(items[k]))
  }

  /** On depth-0 data the loose comparison is the resolving one. */
  lemma LooseAtDepth0IsResolved(item: Item, pid: Id, p: Position)
    ensures Placed(Loose, AtDepth0(item), pid, p) <==> Placed(Resolved, item, pid, p)
  {
  }

  /** The leaderboard's total over depth-0 items equals the independent
      total of the same items read with the resolving comparison. */
  lemma {:induction false} Depth0Total(items: seq<Item>, pid: Id, ps: PointSystem)
    ensures IndependentTotal(Loose, AllAtDepth0(items), pid, ps) == IndependentTotal(Resolved, items, pid, ps)
  {
    if items != [] {
      var init := items[..|items| - 1];
      var x := items[|items| - 1];
      assert AllAtDepth0(items)[..|items| - 1] == AllAtDepth0(init);
      Depth0Total(init, pid, ps);
      LooseAtDepth0IsResolved(x, pid, First);
      LooseAtDepth0IsResolved(x, pid, Second);
      LooseAtDepth0IsResolved(x, pid, Third);
    }
  }

  // ---------------------------------------------------------------------
  // The pivot tables partition the leaderboard

  /** How many of the categories the item belongs to. */
  function MatchCount(cats: seq<Category>, item: Item): nat {
    if cats == [] then 0 else (if InCategory(item, cats[0]) then 1 else 0) + MatchCount(cats[1..], item)
  }

  /** The participant's row totals, summed over the categories' tables. */
  function CategorySum(cats: seq<Category>, items: seq<Item>, pid: Id, ps: PointSystem): int {
    if cats == [] then 0
    else FirstMatchTotal(Resolved, CategoryItems(items, cats[0]), pid, ps) + CategorySum(cats[1..], items, pid, ps)
  }

  /** One more item adds its points once for every category it belongs to. */
  lemma {:induction false} CategorySumStep(cats: seq<Category>, items: seq<Item>, pid: Id, ps: PointSystem)
    requires items != []
    ensures var x := items[|items| - 1];
      CategorySum(cats, items, pid, ps) ==
        CategorySum(cats, items[..|items| - 1], pid, ps) + MatchCount(cats, x) * FirstMatchItemPoints(Resolved, x, pid, ps)
  {
    var x := items[|items| - 1];
    var init := items[..|items| - 1];
    if cats != [] {
      CategorySumStep(cats[1..], items, pid, ps);
      var c := cats[0];
      CategoryTotalStep(items, c, pid, ps);
      var m := MatchCount(cats[1..], x);
      var d := if InCategory(x, c) then 1 else 0;
      var pts := FirstMatchItemPoints(Resolved, x, pid, ps);
      assert MatchCount(cats, x) == m + d;
      CountSplit(MatchCount(cats, x), m, d, pts);
      SumStep(CategorySum(cats, items, pid, ps), CategorySum(cats, init, pid, ps),
        FirstMatchTotal(Resolved, CategoryItems(items, c), pid, ps), FirstMatchTotal(Resolved, CategoryItems(init, c), pid, ps),
        CategorySum(cats[1..], items, pid, ps), CategorySum(cats[1..], init, pid, ps),
        m * pts, if d == 1 then pts else 0, MatchCount(cats, x) * pts);
    }
  }

  /** A count that is one more, or the same: its product grows by one factor. */
  lemma CountSplit(n: int, m: int, d: int, r: int)
    requires n == m + d && (d == 0 || d == 1)
    ensures n * r == m * r + (if d == 1 then r else 0)
  {
  }

  /** The bookkeeping of one step of CategorySum: the first category's
      total and the rest's each grow by their share. */
  lemma SumStep(whole: int, whole0: int, head: int, head0: int, rest: int, rest0: int, restGain: int, headGain: int, gain: int)
    requires whole == head + rest && whole0 == head0 + rest0
    requires head == head0 + headGain && rest == rest0 + restGain
    requires gain == restGain + headGain
    ensures whole == whole0 + gain
  {
  }

  /** Within one category, one more item adds its points when it belongs to
      the category and nothing otherwise. */
  lemma CategoryTotalStep(items: seq<Item>, c: Category, pid: Id, ps: PointSystem)
    requires items != []
    ensures var x := items[|items| - 1];
      FirstMatchTotal(Resolved, CategoryItems(items, c), pid, ps) ==
        FirstMatchTotal(Resolved, CategoryItems(items[..|items| - 1], c), pid, ps)
        + (if InCategory(x, c) then FirstMatchItemPoints(Resolved, x, pid, ps) else 0)
  {
    var x := items[|items| - 1];
    var ci := CategoryItems(items[..|items| - 1], c);
    if InCategory(x, c) {
      assert (ci + [x])[..|ci + [x]| - 1] == ci;
    }
  }

  /** When every item belongs to exactly one category, the row totals of
      a participant across all tables add up to its first-match total. */
  lemma {:induction false} CategoriesPartitionTotal(cats: seq<Category>, items: seq<Item>, pid: Id, ps: PointSystem)
    requires forall k :: 0 <= k < |items| ==> MatchCount(cats, items[k]) == 1
    ensures CategorySum(cats, items, pid, ps) == FirstMatchTotal(Resolved, items, pid, ps)
  {
    if items == [] {
      CategorySumEmpty(cats, pid, ps);
    } else {
      var init := items[..|items| - 1];
      assert forall k :: 0 <= k < |init| ==> init[k] == items[k];
      CategoriesPartitionTotal(cats, init, pid, ps);
      PartitionStep(cats, items, pid, ps);
    }
  }

  lemma PartitionStep(cats: seq<Category>, items: seq<Item>, pid: Id, ps: PointSystem)
    requires items != []
    requires MatchCount(cats, items[|items| - 1]) == 1
    requires CategorySum(cats, items[..|items| - 1], pid, ps) == FirstMatchTotal(Resolved, items[..|items| - 1], pid, ps)
    ensures CategorySum(cats, items, pid, ps) == FirstMatchTotal(Resolved, items, pid, ps)
  {
    CategorySumStep(cats, items, pid, ps);
  }

  lemma {:induction false} CategorySumEmpty(cats: seq<Category>, pid: Id, ps: PointSystem)
    ensures CategorySum(cats, [], pid, ps) == 0
  {
    if cats != [] {
      CategorySumEmpty(cats[1..], pid, ps);
    }
  }

  /** The totals of the participant's pivot rows, one per category table. */
  function RowTotals(cats: seq<Category>, items: seq<Item>, participant: Participant, ps: PointSystem): int {
    if cats == [] then 0
    else ExpectedRow(participant, CategoryItems(items, cats[0]), ps).total + RowTotals(cats[1..], items, participant, ps)
  }

  /** The row totals are the per-category first-match sums. */
  lemma {:induction false} RowTotalsAreCategorySum(cats: seq<Category>, items: seq<Item>, participant: Participant, ps: PointSystem)
    ensures RowTotals(cats, items, participant, ps) == CategorySum(cats, items, participant.id, ps)
  {
    if cats != [] {
      RowTotalsAreCategorySum(cats[1..], items, participant, ps);
    }
  }

  /** The leaderboard score of a participant is the sum of its pivot-row
      totals when each item lies in exactly one category and the
      participant holds at most one slot of each item. */
  lemma PivotRowsSumToScore(cats: seq<Category>, items: seq<Item>, participant: Participant, ps: PointSystem)
    requires forall k :: 0 <= k < |items| ==> MatchCount(cats, items[k]) == 1
    requires forall k :: 0 <= k < |items| ==> AtMostOneSlot(Resolved, items[k], participant.id)
    ensures CategorySum(cats, items, participant.id, ps) == ExpectedEntry(participant, AllAtDepth0(items), ps).score
    ensures RowTotals(cats, items, participant, ps) == ExpectedEntry(participant, AllAtDepth0(items), ps).score
  {
    RowTotalsAreCategorySum(cats, items, participant, ps);
    CategoriesPartitionTotal(cats, items, participant.id, ps);
    FirstMatchTotalIsIndependentTotal(Resolved, items, participant.id, ps);
    Depth0Total(items, participant.id, ps);
  }

  /** A participant holding both First and Second of an individual item: the
      leaderboard pays 5 + 2, the pivot table pays only the 5 for First. */
  lemma TwoSlotsPaidDifferently()
    ensures var item := Item("Song", Raw(1), Individual, Results(Some(Raw(7)), Some(Raw(7)), None), []);
      && IndependentTotal(Loose, [item], 7, DefaultPoints()) == 7
      && FirstMatchTotal(Resolved, [item], 7, DefaultPoints()) == 5
  {
    var item := Item("Song", Raw(1), Individual, Results(Some(Raw(7)), Some(Raw(7)), None), []);
    assert [item][..0] == [];
  }

  // ---------------------------------------------------------------------
  // The id comparisons

  /** For a non-zero id, guarded and loose comparison give the same total. */
  lemma {:induction false} GuardedTotalIsLooseTotal(items: seq<Item>, pid: Id, ps: PointSystem)
    requires pid != 0
    ensures IndependentTotal(Guarded, items, pid, ps) == IndependentTotal(Loose, items, pid, ps)
  {
    if items != [] {
      var x := items[|items| - 1];
      GuardedTotalIsLooseTotal(items[..|items| - 1], pid, ps);
      GuardedIsLooseForNonZeroId(x.results.first, pid);
      GuardedIsLooseForNonZeroId(x.results.second, pid);
      GuardedIsLooseForNonZeroId(x.results.third, pid);
    }
  }

  /** The total-only scorer and the leaderboard give a participant with a
      non-zero id the same number. */
  lemma ScoreboardMatchesTotalOnly(participant: Participant, items: seq<Item>, ps: PointSystem)
    requires participant.id != 0
    ensures ExpectedEntry(participant, items, ps).score == IndependentTotal(Guarded, items, participant.id, ps)
  {
    GuardedTotalIsLooseTotal(items, participant.id, ps);
  }

  // ---------------------------------------------------------------------
  // The two per-participant scorers

  /** An empty grade system awards nothing. */
  lemma {:induction false} EmptyGradeSystemAwardsNothing(items: seq<Item>, pid: Id)
    ensures GradeCredits(items, pid, []) == []
  {
    if items != [] {
      var last := items[|items| - 1];
      EmptyGradeSystemAwardsNothing(items[..|items| - 1], pid);
      EntriesAwardNothing(last.grade, last.itemType, pid);
    }
  }

  lemma {:induction false} EntriesAwardNothing(entries: seq<GradeEntry>, t: ItemType, pid: Id)
    ensures EntryAwards(entries, t, pid, []) == []
  {
    if entries != [] {
      EntriesAwardNothing(entries[..|entries| - 1], t, pid);
    }
  }

  /** With no grade system and at most one slot per item, the detailed
      breakdown's total equals the total-only scorer's. */
  lemma BreakdownTotalIsTotalOnly(items: seq<Item>, pid: Id, ps: PointSystem)
    requires forall k :: 0 <= k < |items| ==> AtMostOneSlot(Guarded, items[k], pid)
    ensures FirstMatchTotal(Guarded, items, pid, ps) + AwardsTotal(GradeCredits(items, pid, [])) == IndependentTotal(Guarded, items, pid, ps)
  {
    EmptyGradeSystemAwardsNothing(items, pid);
    FirstMatchTotalIsIndependentTotal(Guarded, items, pid, ps);
  }
}
