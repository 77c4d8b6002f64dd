/** The records the scoring code reads (participants, competition items with
    their results and grade awards, categories, the points settings) and the
    rules that every scoring path shares: the `||` defaults of the points
    settings and the three ways the code compares a result slot with a
    participant id. */
module FestModel {
  import opened Wrappers

  /** Database ids, after `parseInt` has turned a string id into its number. */
  type Id = int

  /** A relationship field: a bare id (queries at depth 0) or an expanded
      document carrying that id (queries at depth 1 or more). */
  datatype Ref = Raw(id: Id) | Populated(id: Id)

  /** `typeof r === 'object' ? r.id : r`: the id behind a reference. */
  function Resolve(r: Ref): (id: Id)
    ensures r == Raw(id) || r == Populated(id)
  {
    match r
    case Raw(i) => i
    case Populated(i) => i
  }

  /** The `type` select of a competition item; its only two options. */
  datatype ItemType = Group | Individual

  /** The three placement positions, in the order the code checks them. */
  datatype Position = First | Second | Third

  /** The `results` group of a competition item. A missing `results`
      object reads the same as three empty slots. */
  datatype Results = Results(first: Option<Ref>, second: Option<Ref>, third: Option<Ref>)

  /** One row of an item's `grade` array: who got which grade key. */
  datatype GradeEntry = GradeEntry(participant: Option<Ref>, grade: string)

  /** A competition item. A `grade` field that is not an array reads the
      same as an empty one. */
  datatype Item = Item(title: string, category: Ref, itemType: ItemType, results: Results, grade: seq<GradeEntry>)

  datatype Participant = Participant(id: Id, name: string, shortCode: Option<string>)

  datatype Category = Category(id: Id, name: string)

  /** One grade of the grade system: its key, its display label
      (the source's `grade` field) and its points per item type. */
  datatype GradeConfig = GradeConfig(key: string, grade: string, groupPoints: int, individualPoints: int)

  /** The stored settings, every part of which may be missing. */
  datatype PlaceSetting = PlaceSetting(groupItem: Option<int>, individualItem: Option<int>)
  datatype PointsSettings = PointsSettings(firstPlace: Option<PlaceSetting>, secondPlace: Option<PlaceSetting>, thirdPlace: Option<PlaceSetting>)
  datatype Settings = Settings(pointsSystem: Option<PointsSettings>, gradeSystem: Option<seq<GradeConfig>>)

  /** The points in force for one position, per item type. */
  datatype PointPair = PointPair(group: int, individual: int)
  datatype PointSystem = PointSystem(first: PointPair, second: PointPair, third: PointPair)

  function Slot(r: Results, p: Position): Option<Ref> {
    match p
    case First => r.first
    case Second => r.second
    case Third => r.third
  }

  /** `itemType === 'group' ? pair.group : pair.individual` */
  function ForType(pair: PointPair, t: ItemType): int {
    if t == Group then pair.group else pair.individual
  }

  function PairAt(ps: PointSystem, p: Position): PointPair {
    match p
    case First => ps.first
    case Second => ps.second
    case Third => ps.third
  }

  /** The points one placement at position `p` on an item of type `t` earns. */
  function Rate(ps: PointSystem, p: Position, t: ItemType): int {
    ForType(PairAt(ps, p), t)
  }

  /** First 10/5, Second 5/2, Third 1/1 (group/individual). */
  function DefaultPoints(): PointSystem {
    PointSystem(PointPair(10, 5), PointPair(5, 2), PointPair(1, 1))
  }

  /** The raw stored value for a position and item type, if any
      (`pointsSystem.firstPlace?.groupItem` and its five siblings). */
  function Configured(s: Option<PointsSettings>, p: Position, t: ItemType): Option<int> {
    if s.None? then None
    else
      var place := match p
        case First => s.value.firstPlace
        case Second => s.value.secondPlace
        case Third => s.value.thirdPlace;
      if place.None? then None
      else if t == Group then place.value.groupItem
      else place.value.individualItem
  }

  /** JavaScript `v || d` on a number that may be missing: a missing value
      and a 0 both fall back to `d`. */
  function OrElse(v: Option<int>, d: int): int {
    if v.Some? && v.value != 0 then v.value else d
  }

  /** The point system the three scoring paths compute from the stored
      settings, each value with its default behind `||`. */
  function ResolvePoints(s: Option<PointsSettings>): (ps: PointSystem)
    ensures forall p, t :: Rate(ps, p, t) == OrElse(Configured(s, p, t), Rate(DefaultPoints(), p, t))
    ensures forall p, t :: Rate(ps, p, t) != 0
    ensures s.None? ==> ps == DefaultPoints()
  {
    var d := DefaultPoints();
    PointSystem(
      PointPair(OrElse(Configured(s, First, Group), d.first.group), OrElse(Configured(s, First, Individual), d.first.individual)),
      PointPair(OrElse(Configured(s, Second, Group), d.second.group), OrElse(Configured(s, Second, Individual), d.second.individual)),
      PointPair(OrElse(Configured(s, Third, Group), d.third.group), OrElse(Configured(s, Third, Individual), d.third.individual)))
  }

  /** Nothing stored gives the defaults; a stored 0 is replaced by its default. */
  lemma DefaultsExamples()
    ensures ResolvePoints(None) == PointSystem(PointPair(10, 5), PointPair(5, 2), PointPair(1, 1))
    ensures ResolvePoints(Some(PointsSettings(Some(PlaceSetting(Some(0), Some(7))), None, None))) ==
      PointSystem(PointPair(10, 7), PointPair(5, 2), PointPair(1, 1))
  {
  }

  /** How a piece of code compares a result slot with a participant id.
      Loose:    `results?.First == participant.id` (an expanded object never
                equals an id; an empty slot never does either).
      Guarded:  `firstId && (firstId == participantId || ...)`: a falsy slot,
                the id 0 included, never matches.
      Resolved: the slot is first resolved to its id, then compared. */
  datatype MatchMode = Loose | Guarded | Resolved

  predicate SlotMatches(mode: MatchMode, slot: Option<Ref>, pid: Id) {
    match mode
    case Loose => slot == Some(Raw(pid))
    case Guarded => slot.Some? && slot.value.Raw? && slot.value.id != 0 && slot.value.id == pid
    case Resolved => slot.Some? && Resolve(slot.value) == pid
  }

  predicate Placed(mode: MatchMode, item: Item, pid: Id, p: Position) {
    SlotMatches(mode, Slot(item.results, p), pid)
  }

  /** Points from one item when the three slots are checked independently
      (three separate `if`s): a participant in two slots is paid twice. */
  function IndependentItemPoints(mode: MatchMode, item: Item, pid: Id, ps: PointSystem): int {
    (if Placed(mode, item, pid, First) then Rate(ps, First, item.itemType) else 0)
    + (if Placed(mode, item, pid, Second) then Rate(ps, Second, item.itemType) else 0)
    + (if Placed(mode, item, pid, Third) then Rate(ps, Third, item.itemType) else 0)
  }

  /** The position credited by an `if / else if / else if` chain checked in
      the order First, Second, Third. */
  function CreditedPosition(mode: MatchMode, item: Item, pid: Id): (r: Option<Position>)
    ensures r.Some? ==> Placed(mode, item, pid, r.value)
    ensures r.None? <==> !Placed(mode, item, pid, First) && !Placed(mode, item, pid, Second) && !Placed(mode, item, pid, Third)
    ensures r == Some(Second) ==> !Placed(mode, item, pid, First)
    ensures r == Some(Third) ==> !Placed(mode, item, pid, First) && !Placed(mode, item, pid, Second)
  {
    if Placed(mode, item, pid, First) then Some(First)
    else if Placed(mode, item, pid, Second) then Some(Second)
    else if Placed(mode, item, pid, Third) then Some(Third)
    else None
  }

  /** Points from one item under first-match crediting (0 when no slot matches). */
  function FirstMatchItemPoints(mode: MatchMode, item: Item, pid: Id, ps: PointSystem): int {
    match CreditedPosition(mode, item, pid)
    case Some(p) => Rate(ps, p, item.itemType)
    case None => 0
  }

  /** Sum of independent-slot points over a list of items. */
  function IndependentTotal(mode: MatchMode, items: seq<Item>, pid: Id, ps: PointSystem): int {
    if items == [] then 0
    else IndependentTotal(mode, items[..|items| - 1], pid, ps) + IndependentItemPoints(mode, items[|items| - 1], pid, ps)
  }

  /** Sum of first-match points over a list of items. */
  function FirstMatchTotal(mode: MatchMode, items: seq<Item>, pid: Id, ps: PointSystem): int {
    if items == [] then 0
    else FirstMatchTotal(mode, items[..|items| - 1], pid, ps) + FirstMatchItemPoints(mode, items[|items| - 1], pid, ps)
  }

  /** The participant occupies at most one slot of the item. */
  predicate AtMostOneSlot(mode: MatchMode, item: Item, pid: Id) {
    && !(Placed(mode, item, pid, First) && Placed(mode, item, pid, Second))
    && !(Placed(mode, item, pid, First) && Placed(mode, item, pid, Third))
    && !(Placed(mode, item, pid, Second) && Placed(mode, item, pid, Third))
  }

  /** The participant occupies some slot of the item. */
  predicate InSomeSlot(mode: MatchMode, item: Item, pid: Id) {
    Placed(mode, item, pid, First) || Placed(mode, item, pid, Second) || Placed(mode, item, pid, Third)
  }

  /** Per item: first-match crediting pays exactly what independent checking
      pays, as long as the participant holds at most one slot; otherwise
      first-match pays for the earliest slot only. */
  lemma FirstMatchVersusIndependent(mode: MatchMode, item: Item, pid: Id, ps: PointSystem)
    ensures AtMostOneSlot(mode, item, pid) ==> FirstMatchItemPoints(mode, item, pid, ps) == IndependentItemPoints(mode, item, pid, ps)
    ensures CreditedPosition(mode, item, pid).None? ==> IndependentItemPoints(mode, item, pid, ps) == 0
  {
  }

  /** Over a list: the two totals agree when nobody holds two slots of one item. */
  lemma {:induction false} FirstMatchTotalIsIndependentTotal(mode: MatchMode, items: seq<Item>, pid: Id, ps: PointSystem)
    requires forall k :: 0 <= k < |items| ==> AtMostOneSlot(mode, items[k], pid)
    ensures FirstMatchTotal(mode, items, pid, ps) == IndependentTotal(mode, items, pid, ps)
  {
    if items != [] {
      var init := items[..|items| - 1];
      assert forall k :: 0 <= k < |init| ==> init[k] == items[k];
      FirstMatchTotalIsIndependentTotal(mode, init, pid, ps);
      FirstMatchVersusIndependent(mode, items[|items| - 1], pid, ps);
    }
  }

  /** The guarded and the loose comparison differ only for the id 0. */
  lemma GuardedIsLooseForNonZeroId(slot: Option<Ref>, pid: Id)
    ensures pid != 0 ==> (SlotMatches(Guarded, slot, pid) <==> SlotMatches(Loose, slot, pid))
    ensures !SlotMatches(Guarded, slot, 0)
  {
  }
  /** Concatenation splits the independent-slot total. */
  lemma {:induction false} IndependentTotalAppend(mode: MatchMode, xs: seq<Item>, ys: seq<Item>, pid: Id, ps: PointSystem)
    ensures IndependentTotal(mode, xs + ys, pid, ps) == IndependentTotal(mode, xs, pid, ps) + IndependentTotal(mode, ys, pid, ps)
    decreases |ys|
  {
    if ys == [] {
      assert xs + ys == xs;
    } else {
      var init := ys[..|ys| - 1];
      assert (xs + ys)[..|xs + ys| - 1] == xs + init;
      IndependentTotalAppend(mode, xs, init, pid, ps);
    }
  }

  /** Concatenation splits the first-match total. */
  lemma {:induction false} FirstMatchTotalAppend(mode: MatchMode, xs: seq<Item>, ys: seq<Item>, pid: Id, ps: PointSystem)
    ensures FirstMatchTotal(mode, xs + ys, pid, ps) == FirstMatchTotal(mode, xs, pid, ps) + FirstMatchTotal(mode, ys, pid, ps)
    decreases |ys|
  {
    if ys == [] {
      assert xs + ys == xs;
    } else {
      var init := ys[..|ys| - 1];
      assert (xs + ys)[..|xs + ys| - 1] == xs + init;
      FirstMatchTotalAppend(mode, xs, init, pid, ps);
    }
  }

  /** How many items of type `t` hold the participant at position `p`
      (slots checked independently). */
  function PlacedCount(mode: MatchMode, items: seq<Item>, pid: Id, p: Position, t: ItemType): nat {
    if items == [] then 0
    else
      var last := items[|items| - 1];
      PlacedCount(mode, items[..|items| - 1], pid, p, t) + (if Placed(mode, last, pid, p) && last.itemType == t then 1 else 0)
  }

  /** Adding the last item to a weighted count adds its rate when it is placed there. */
  lemma CountStep(mode: MatchMode, items: seq<Item>, pid: Id, ps: PointSystem, p: Position, t: ItemType)
    requires items != []
    ensures PlacedCount(mode, items, pid, p, t) * Rate(ps, p, t) ==
      PlacedCount(mode, items[..|items| - 1], pid, p, t) * Rate(ps, p, t)
      + (if Placed(mode, items[|items| - 1], pid, p) && items[|items| - 1].itemType == t then Rate(ps, p, t) else 0)
  {
    var x := items[|items| - 1];
    var c := PlacedCount(mode, items[..|items| - 1], pid, p, t);
    var d := if Placed(mode, x, pid, p) && x.itemType == t then 1 else 0;
    assert PlacedCount(mode, items, pid, p, t) == c + d;
    MulStep(c, d, Rate(ps, p, t));
  }

  lemma MulStep(c: int, d: int, r: int)
    requires d == 0 || d == 1
    ensures (c + d) * r == c * r + (if d == 1 then r else 0)
  {
  }

  /** The independent-slot total is the placement counts weighted by the
      points of their position and item type. */
  lemma {:induction false} IndependentTotalByCounts(mode: MatchMode, items: seq<Item>, pid: Id, ps: PointSystem)
    ensures IndependentTotal(mode, items, pid, ps) ==
      PlacedCount(mode, items, pid, First, Group) * Rate(ps, First, Group)
      + PlacedCount(mode, items, pid, First, Individual) * Rate(ps, First, Individual)
      + PlacedCount(mode, items, pid, Second, Group) * Rate(ps, Second, Group)
      + PlacedCount(mode, items, pid, Second, Individual) * Rate(ps, Second, Individual)
      + PlacedCount(mode, items, pid, Third, Group) * Rate(ps, Third, Group)
      + PlacedCount(mode, items, pid, Third, Individual) * Rate(ps, Third, Individual)
  {
    if items != [] {
      var init := items[..|items| - 1];
      IndependentTotalByCounts(mode, init, pid, ps);
      var x := items[|items| - 1];
      CountStep(mode, items, pid, ps, First, Group);
      CountStep(mode, items, pid, ps, First, Individual);
      CountStep(mode, items, pid, ps, Second, Group);
      CountStep(mode, items, pid, ps, Second, Individual);
      CountStep(mode, items, pid, ps, Third, Group);
      CountStep(mode, items, pid, ps, Third, Individual);
    }
  }
}
