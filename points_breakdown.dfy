/** The detailed per-participant breakdown of src/utilities/calculatePoints.ts:
    at most one position per item (First, then Second, then Third), grade
    points looked up in the grade system, counters split by item type, a
    grade table sorted by key and summary totals. */
module PointsBreakdown {
  import opened Wrappers
  import opened FestModel
  import opened Sorting
  import opened Sequences

  /** `byType`: counts per item type. */
  datatype TypeCounts = TypeCounts(group: int, individual: int)

  /** `points`: points per item type and their total. */
  datatype PointTotals = PointTotals(group: int, individual: int, total: int)

  /** `PositionBreakdown` */
  datatype PositionBreakdown = PositionBreakdown(count: int, byType: TypeCounts, points: PointTotals)

  /** `GradeBreakdown`: `grade` is the key, `gradeLabel` the display label. */
  datatype GradeBreakdown = GradeBreakdown(grade: string, gradeLabel: string, count: int, byType: TypeCounts, points: PointTotals)

  datatype Positions = Positions(first: PositionBreakdown, second: PositionBreakdown, third: PositionBreakdown, totalPositionPoints: int)
  datatype Grades = Grades(breakdown: seq<GradeBreakdown>, totalGradePoints: int)
  datatype Summary = Summary(totalCompetitions: int, totalPositions: int, totalGrades: int)

  /** The point system reported back: the position points in force and a
      copy of the grade system. */
  datatype PointSystemReport = PointSystemReport(positions: PointSystem, grades: seq<GradeConfig>)

  /** `ParticipantPointsBreakdown` */
  datatype ParticipantPointsBreakdown = ParticipantPointsBreakdown(
    participantId: Id,
    totalPoints: int,
    positions: Positions,
    grades: Grades,
    summary: Summary,
    pointSystem: PointSystemReport)

  const NoCounts := TypeCounts(0, 0)
  const NoPoints := PointTotals(0, 0, 0)
  const EmptyPosition := PositionBreakdown(0, NoCounts, NoPoints)

  /** `byType[itemType]++` */
  function CountOne(c: TypeCounts, t: ItemType): TypeCounts {
    if t == Group then c.(group := c.group + 1) else c.(individual := c.individual + 1)
  }

  /** `points[itemType] += pts; points.total += pts` */
  function AddPoints(p: PointTotals, t: ItemType, pts: int): PointTotals {
    if t == Group then PointTotals(p.group + pts, p.individual, p.total + pts)
    else PointTotals(p.group, p.individual + pts, p.total + pts)
  }

  /** One credited placement of type `t` worth `pts`. */
  function CreditPlace(b: PositionBreakdown, t: ItemType, pts: int): PositionBreakdown {
    PositionBreakdown(b.count + 1, CountOne(b.byType, t), AddPoints(b.points, t, pts))
  }

  /** One credited grade award of type `t` worth `pts`. */
  function CreditGrade(b: GradeBreakdown, t: ItemType, pts: int): GradeBreakdown {
    b.(count := b.count + 1, byType := CountOne(b.byType, t), points := AddPoints(b.points, t, pts))
  }

  // ---------------------------------------------------------------------
  // Positions

  /** How many items of type `t` credit the participant with position `p`
      under first-match crediting. */
  function CreditedCount(items: seq<Item>, pid: Id, p: Position, t: ItemType): nat {
    if items == [] then 0
    else
      var last := items[|items| - 1];
      CreditedCount(items[..|items| - 1], pid, p, t)
      + (if CreditedPosition(Guarded, last, pid) == Some(p) && last.itemType == t then 1 else 0)
  }

  /** How many items credit the participant with some position. */
  function CreditedItems(items: seq<Item>, pid: Id): nat {
    if items == [] then 0
    else CreditedItems(items[..|items| - 1], pid) + (if CreditedPosition(Guarded, items[|items| - 1], pid).Some? then 1 else 0)
  }

  /** The breakdown a position should end with: its counts per item type,
      each weighted by the points for that position and type. */
  function ExpectedPosition(items: seq<Item>, pid: Id, ps: PointSystem, p: Position): (b: PositionBreakdown)
    ensures b.count == b.byType.group + b.byType.individual
    ensures b.points.total == b.points.group + b.points.individual
    ensures b.byType.group == CreditedCount(items, pid, p, Group)
    ensures b.byType.individual == CreditedCount(items, pid, p, Individual)
  {
    var g := CreditedCount(items, pid, p, Group);
    var n := CreditedCount(items, pid, p, Individual);
    PositionBreakdown(g + n, TypeCounts(g, n),
      PointTotals(g * Rate(ps, p, Group), n * Rate(ps, p, Individual), g * Rate(ps, p, Group) + n * Rate(ps, p, Individual)))
  }

  /** Adding an item credits its position once and leaves the other two alone. */
  lemma ExpectedPositionStep(items: seq<Item>, pid: Id, ps: PointSystem, p: Position)
    requires items != []
    ensures var last := items[|items| - 1];
      ExpectedPosition(items, pid, ps, p) ==
        if CreditedPosition(Guarded, last, pid) == Some(p)
        then CreditPlace(ExpectedPosition(items[..|items| - 1], pid, ps, p), last.itemType, Rate(ps, p, last.itemType))
        else ExpectedPosition(items[..|items| - 1], pid, ps, p)
  {
    var init := items[..|items| - 1];
    var last := items[|items| - 1];
    var g := CreditedCount(init, pid, p, Group);
    var n := CreditedCount(init, pid, p, Individual);
    var hit := CreditedPosition(Guarded, last, pid) == Some(p);
    MulStep(g, if hit && last.itemType == Group then 1 else 0, Rate(ps, p, Group));
    MulStep(n, if hit && last.itemType == Individual then 1 else 0, Rate(ps, p, Individual));
  }

  /** `totalPositionPoints` is the sum of the three positions' totals. */
  lemma {:induction false} PositionPointsAddUp(items: seq<Item>, pid: Id, ps: PointSystem)
    ensures FirstMatchTotal(Guarded, items, pid, ps) ==
      ExpectedPosition(items, pid, ps, First).points.total
      + ExpectedPosition(items, pid, ps, Second).points.total
      + ExpectedPosition(items, pid, ps, Third).points.total
  {
    if items != [] {
      PositionPointsAddUp(items[..|items| - 1], pid, ps);
      ExpectedPositionStep(items, pid, ps, First);
      ExpectedPositionStep(items, pid, ps, Second);
      ExpectedPositionStep(items, pid, ps, Third);
    }
  }

  /** `summary.totalPositions` counts the items that credited a position. */
  lemma {:induction false} PositionCountsAddUp(items: seq<Item>, pid: Id, ps: PointSystem)
    ensures CreditedItems(items, pid) ==
      ExpectedPosition(items, pid, ps, First).count
      + ExpectedPosition(items, pid, ps, Second).count
      + ExpectedPosition(items, pid, ps, Third).count
  {
    if items != [] {
      PositionCountsAddUp(items[..|items| - 1], pid, ps);
      ExpectedPositionStep(items, pid, ps, First);
      ExpectedPositionStep(items, pid, ps, Second);
      ExpectedPositionStep(items, pid, ps, Third);
    }
  }

  // ---------------------------------------------------------------------
  // Grades

  /** `gradeSystem.find((g) => g.key === gradeKey)`: the first grade with that key. */
  function FindGrade(gs: seq<GradeConfig>, key: string): (r: Option<GradeConfig>)
    ensures r.Some? ==> r.value in gs && r.value.key == key
    ensures r.None? ==> forall k :: 0 <= k < |gs| ==> gs[k].key != key
    ensures r.Some? && gs != [] && gs[0].key == key ==> r.value == gs[0]
    ensures r.Some? ==> exists i :: 0 <= i < |gs| && gs[i] == r.value && forall j :: 0 <= j < i ==> gs[j].key != key
  {
    if gs == [] then None
    else if gs[0].key == key then Some(gs[0])
    else
      var r := FindGrade(gs[1..], key);
      if r.Some? then
        var i :| 0 <= i < |gs| - 1 && gs[1..][i] == r.value && forall j :: 0 <= j < i ==> gs[1..][j].key != key;
        assert gs[i + 1] == r.value && forall j :: 0 <= j < i + 1 ==> gs[j].key != key;
        r
      else r
  }

  /** The label the grade table shows for a key (the first matching grade's). */
  function LabelOf(gs: seq<GradeConfig>, key: string): string {
    match FindGrade(gs, key)
    case Some(g) => g.grade
    case None => ""
  }

  /** `itemType === 'group' ? groupPoints : individualPoints` */
  function GradePoints(g: GradeConfig, t: ItemType): int {
    if t == Group then g.groupPoints else g.individualPoints
  }

  /** One credited grade award: its key, label, item type and points. */
  datatype Award = Award(key: string, gradeLabel: string, itemType: ItemType, points: int)

  /** A grade entry counts when its key is non-empty, its participant is
      present and matches, and the key is in the grade system. */
  function EntryAward(e: GradeEntry, t: ItemType, pid: Id, gs: seq<GradeConfig>): (r: Option<Award>)
    ensures r.Some? <==> e.grade != "" && SlotMatches(Guarded, e.participant, pid) && FindGrade(gs, e.grade).Some?
    ensures r.Some? ==> r.value == Award(e.grade, LabelOf(gs, e.grade), t, GradePoints(FindGrade(gs, e.grade).value, t))
  {
    if e.grade != "" && SlotMatches(Guarded, e.participant, pid) then
      match FindGrade(gs, e.grade)
      case Some(g) => Some(Award(e.grade, g.grade, t, GradePoints(g, t)))
      case None => None
    else None
  }

  /** The awards of one item's grade entries, in entry order. */
  function EntryAwards(entries: seq<GradeEntry>, t: ItemType, pid: Id, gs: seq<GradeConfig>): seq<Award> {
    if entries == [] then []
    else
      var a := EntryAward(entries[|entries| - 1], t, pid, gs);
      EntryAwards(entries[..|entries| - 1], t, pid, gs) + (if a.Some? then [a.value] else [])
  }

  /** Every award of the items, in the order the loops meet them. */
  function GradeCredits(items: seq<Item>, pid: Id, gs: seq<GradeConfig>): seq<Award> {
    if items == [] then []
    else
      var last := items[|items| - 1];
      GradeCredits(items[..|items| - 1], pid, gs) + EntryAwards(last.grade, last.itemType, pid, gs)
  }

  /** The keys that received an award. */
  function KeysOf(awards: seq<Award>): set<string> {
    if awards == [] then {} else KeysOf(awards[..|awards| - 1]) + {awards[|awards| - 1].key}
  }

  /** The sum of the awards' points. */
  function AwardsTotal(awards: seq<Award>): int {
    if awards == [] then 0 else AwardsTotal(awards[..|awards| - 1]) + awards[|awards| - 1].points
  }

  /** The breakdown a key should end with: the awards with that key,
      counted per item type and summed. */
  function Tally(awards: seq<Award>, key: string, gradeLabel: string): (b: GradeBreakdown)
    ensures b.grade == key && b.gradeLabel == gradeLabel
    ensures b.count == b.byType.group + b.byType.individual
    ensures b.points.total == b.points.group + b.points.individual
    ensures key !in KeysOf(awards) ==> b == GradeBreakdown(key, gradeLabel, 0, NoCounts, NoPoints)
  {
    if awards == [] then GradeBreakdown(key, gradeLabel, 0, NoCounts, NoPoints)
    else
      var b := Tally(awards[..|awards| - 1], key, gradeLabel);
      var a := awards[|awards| - 1];
      if a.key == key then CreditGrade(b, a.itemType, a.points) else b
  }

  /** One more award changes only its own key's tally. */
  lemma AwardSnoc(awards: seq<Award>, a: Award, key: string, gradeLabel: string)
    ensures Tally(awards + [a], key, gradeLabel) ==
      if a.key == key then CreditGrade(Tally(awards, key, gradeLabel), a.itemType, a.points) else Tally(awards, key, gradeLabel)
    ensures KeysOf(awards + [a]) == KeysOf(awards) + {a.key}
    ensures AwardsTotal(awards + [a]) == AwardsTotal(awards) + a.points
  {
    assert (awards + [a])[..|awards|] == awards;
  }

  lemma {:induction false} KeysOfAppend(xs: seq<Award>, ys: seq<Award>)
    ensures KeysOf(xs + ys) == KeysOf(xs) + KeysOf(ys)
    decreases |ys|
  {
    if ys == [] {
      assert xs + ys == xs;
    } else {
      var init := ys[..|ys| - 1];
      assert (xs + ys)[..|xs + ys| - 1] == xs + init;
      KeysOfAppend(xs, init);
    }
  }

  /** Every awarded key is in the grade system and carries its label. */
  lemma {:induction false} AwardsAreConfigured(items: seq<Item>, pid: Id, gs: seq<GradeConfig>)
    ensures forall k :: 0 <= k < |GradeCredits(items, pid, gs)| ==>
      var a := GradeCredits(items, pid, gs)[k];
      FindGrade(gs, a.key).Some? && a.gradeLabel == LabelOf(gs, a.key)
  {
    if items != [] {
      var last := items[|items| - 1];
      AwardsAreConfigured(items[..|items| - 1], pid, gs);
      EntryAwardsConfigured(last.grade, last.itemType, pid, gs);
    }
  }

  lemma {:induction false} EntryAwardsConfigured(entries: seq<GradeEntry>, t: ItemType, pid: Id, gs: seq<GradeConfig>)
    ensures forall k :: 0 <= k < |EntryAwards(entries, t, pid, gs)| ==>
      var a := EntryAwards(entries, t, pid, gs)[k];
      FindGrade(gs, a.key).Some? && a.gradeLabel == LabelOf(gs, a.key) && a.itemType == t
  {
    if entries != [] {
      EntryAwardsConfigured(entries[..|entries| - 1], t, pid, gs);
    }
  }
  // ---------------------------------------------------------------------
  // The grade map and the grade table

  /** The grade map after some awards: one entry per awarded key, each the
      tally of that key, and `order` lists the map's keys once each, in
      insertion order. */
  ghost predicate MapTallies(gmap: map<string, GradeBreakdown>, order: seq<string>, awards: seq<Award>, gs: seq<GradeConfig>) {
    && (forall k :: k in gmap <==> k in KeysOf(awards))
    && (forall k :: k in gmap ==> gmap[k] == Tally(awards, k, LabelOf(gs, k)))
    && (forall i, j :: 0 <= i < j < |order| ==> order[i] != order[j])
    && (forall k :: k in order <==> k in gmap)
  }

  /** Get-or-create the key's entry, then credit it: the map still tallies
      the awards, now including `a`. */
  lemma RecordAward(gmap: map<string, GradeBreakdown>, order: seq<string>, awards: seq<Award>, gs: seq<GradeConfig>, a: Award,
                    gmap': map<string, GradeBreakdown>, order': seq<string>)
    requires MapTallies(gmap, order, awards, gs)
    requires a.gradeLabel == LabelOf(gs, a.key)
    requires var created := if a.key in gmap then gmap else gmap[a.key := GradeBreakdown(a.key, a.gradeLabel, 0, NoCounts, NoPoints)];
      gmap' == created[a.key := CreditGrade(created[a.key], a.itemType, a.points)]
    requires order' == if a.key in gmap then order else order + [a.key]
    ensures MapTallies(gmap', order', awards + [a], gs)
  {
    var created := if a.key in gmap then gmap else gmap[a.key := GradeBreakdown(a.key, a.gradeLabel, 0, NoCounts, NoPoints)];
    var updated := gmap';
    var after := awards + [a];
    AwardSnoc(awards, a, a.key, a.gradeLabel);
    assert created[a.key] == Tally(awards, a.key, a.gradeLabel);
    assert updated[a.key] == Tally(after, a.key, LabelOf(gs, a.key));
    forall k | k in updated ensures updated[k] == Tally(after, k, LabelOf(gs, k)) {
      if k != a.key {
        AwardSnoc(awards, a, k, LabelOf(gs, k));
      }
    }
    assert forall k :: k in updated <==> k in KeysOf(after);
    assert forall k :: k in order' <==> k in updated;
    if a.key !in gmap {
      forall i, j | 0 <= i < j < |order'| ensures order'[i] != order'[j] {
        if j < |order| {
          assert order'[i] == order[i] && order'[j] == order[j];
        } else {
          assert order'[i] == order[i] && order[i] in gmap;
        }
      }
    }
  }

  /** The per-key count and points sums over a list of keys. */
  datatype Sums = Sums(count: int, points: int)

  function KeySums(awards: seq<Award>, keys: seq<string>, gs: seq<GradeConfig>): Sums {
    if keys == [] then Sums(0, 0)
    else
      var b := Tally(awards, keys[0], LabelOf(gs, keys[0]));
      var rest := KeySums(awards, keys[1..], gs);
      Sums(b.count + rest.count, b.points.total + rest.points)
  }

  lemma {:induction false} KeySumsNoAwards(keys: seq<string>, gs: seq<GradeConfig>)
    ensures KeySums([], keys, gs) == Sums(0, 0)
  {
    if keys != [] {
      KeySumsNoAwards(keys[1..], gs);
    }
  }

  /** Dropping the head of a list of distinct keys leaves distinct keys,
      none of them the head. */
  lemma DistinctTail(keys: seq<string>)
    requires keys != []
    requires forall i, j :: 0 <= i < j < |keys| ==> keys[i] != keys[j]
    ensures forall i, j :: 0 <= i < j < |keys[1..]| ==> keys[1..][i] != keys[1..][j]
    ensures keys[0] !in keys[1..]
  {
    var tail := keys[1..];
    forall i, j | 0 <= i < j < |tail| ensures tail[i] != tail[j] {
      assert tail[i] == keys[i + 1] && tail[j] == keys[j + 1];
    }
    forall i | 0 <= i < |tail| ensures tail[i] != keys[0] {
      assert tail[i] == keys[i + 1];
    }
  }

  /** One more award adds to its own key's sums only. */
  lemma {:induction false} KeySumsSnoc(awards: seq<Award>, a: Award, keys: seq<string>, gs: seq<GradeConfig>)
    requires forall i, j :: 0 <= i < j < |keys| ==> keys[i] != keys[j]
    ensures KeySums(awards + [a], keys, gs) ==
      var r := KeySums(awards, keys, gs);
      if a.key in keys then Sums(r.count + 1, r.points + a.points) else r
  {
    if keys != [] {
      var tail := keys[1..];
      DistinctTail(keys);
      KeySumsSnoc(awards, a, tail, gs);
      var gradeLabel := LabelOf(gs, keys[0]);
      AwardSnoc(awards, a, keys[0], gradeLabel);
      assert a.key in keys <==> a.key == keys[0] || a.key in tail by {
        assert keys == [keys[0]] + tail;
      }
    }
  }

  /** Summed over distinct keys that cover every awarded key, the tallies
      count every award once and add up to the awards' total. */
  lemma {:induction false} KeySumsTotal(awards: seq<Award>, keys: seq<string>, gs: seq<GradeConfig>)
    requires forall i, j :: 0 <= i < j < |keys| ==> keys[i] != keys[j]
    requires forall k :: k in KeysOf(awards) ==> k in keys
    ensures KeySums(awards, keys, gs) == Sums(|awards|, AwardsTotal(awards))
  {
    if awards == [] {
      KeySumsNoAwards(keys, gs);
    } else {
      var init := awards[..|awards| - 1];
      var a := awards[|awards| - 1];
      assert awards == init + [a];
      AwardSnoc(init, a, a.key, "");
      KeySumsTotal(init, keys, gs);
      KeySumsSnoc(init, a, keys, gs);
    }
  }

  /** `Array.from(gradeMap.values())`: the entries in insertion order. */
  function ValuesInOrder(gmap: map<string, GradeBreakdown>, order: seq<string>): (vs: seq<GradeBreakdown>)
    requires forall k :: k in order ==> k in gmap
    ensures |vs| == |order|
    ensures forall i :: 0 <= i < |order| ==> vs[i] == gmap[order[i]]
  {
    if order == [] then [] else [gmap[order[0]]] + ValuesInOrder(gmap, order[1..])
  }

  function PointsOf(b: GradeBreakdown): int { b.points.total }
  function CountOf(b: GradeBreakdown): int { b.count }
  function KeyOf(b: GradeBreakdown): string { b.grade }

  lemma {:induction false} ValuesSums(gmap: map<string, GradeBreakdown>, order: seq<string>, awards: seq<Award>, gs: seq<GradeConfig>)
    requires forall k :: k in order ==> k in gmap && gmap[k] == Tally(awards, k, LabelOf(gs, k))
    ensures SumOf(ValuesInOrder(gmap, order), CountOf) == KeySums(awards, order, gs).count
    ensures SumOf(ValuesInOrder(gmap, order), PointsOf) == KeySums(awards, order, gs).points
  {
    if order != [] {
      ValuesSums(gmap, order[1..], awards, gs);
      var vs := ValuesInOrder(gmap, order);
      assert vs[1..] == ValuesInOrder(gmap, order[1..]);
    }
  }

  /** `localeCompare`, read as the lexicographic order of character codes. */
  predicate StrLe(a: string, b: string) {
    a == [] || (b != [] && (a[0] < b[0] || (a[0] == b[0] && StrLe(a[1..], b[1..]))))
  }

  lemma {:induction false} StrLeTotal(a: string, b: string)
    ensures StrLe(a, b) || StrLe(b, a)
  {
    if a != [] && b != [] && a[0] == b[0] {
      StrLeTotal(a[1..], b[1..]);
    }
  }

  lemma {:induction false} StrLeTrans(a: string, b: string, c: string)
    requires StrLe(a, b) && StrLe(b, c)
    ensures StrLe(a, c)
  {
    if a != [] && b != [] && c != [] && a[0] == b[0] && b[0] == c[0] {
      StrLeTrans(a[1..], b[1..], c[1..]);
    }
  }

  lemma {:induction false} StrLeAntisym(a: string, b: string)
    requires StrLe(a, b) && StrLe(b, a)
    ensures a == b
  {
    if a != [] && b != [] {
      StrLeAntisym(a[1..], b[1..]);
      assert a == [a[0]] + a[1..] && b == [b[0]] + b[1..];
    }
  }

  /** The grade table's comparator: by key. */
  function KeyOrder(): (GradeBreakdown, GradeBreakdown) -> bool {
    (x: GradeBreakdown, y: GradeBreakdown) => StrLe(x.grade, y.grade)
  }

  lemma KeyOrderIsTotalPreorder()
    ensures TotalPreorder(KeyOrder())
  {
    forall x: GradeBreakdown, y: GradeBreakdown ensures StrLe(x.grade, y.grade) || StrLe(y.grade, x.grade) {
      StrLeTotal(x.grade, y.grade);
    }
    forall x: GradeBreakdown, y: GradeBreakdown, z: GradeBreakdown | StrLe(x.grade, y.grade) && StrLe(y.grade, z.grade)
      ensures StrLe(x.grade, z.grade)
    {
      StrLeTrans(x.grade, y.grade, z.grade);
    }
  }

  /** What the grade table promises: each entry is the tally of its key,
      the entries' keys are exactly the awarded keys, and the keys are
      strictly increasing. */
  ghost predicate GradeTableOk(table: seq<GradeBreakdown>, credits: seq<Award>, gs: seq<GradeConfig>) {
    && (forall k :: 0 <= k < |table| ==> table[k] == Tally(credits, table[k].grade, LabelOf(gs, table[k].grade)))
    && (forall key :: key in KeysOf(credits) <==> HasGrade(table, key))
    && (forall i, j :: 0 <= i < j < |table| ==> StrLe(table[i].grade, table[j].grade) && table[i].grade != table[j].grade)
  }

  /** Sorting the map's values by key gives the grade table, and its counts
      and points add up to the awards'. */
  lemma GradeTableFromMap(gmap: map<string, GradeBreakdown>, order: seq<string>, credits: seq<Award>, gs: seq<GradeConfig>)
    requires MapTallies(gmap, order, credits, gs)
    ensures forall k :: k in order ==> k in gmap
    ensures var table := SortBy(ValuesInOrder(gmap, order), KeyOrder());
      && GradeTableOk(table, credits, gs)
      && SumOf(table, PointsOf) == AwardsTotal(credits)
      && SumOf(table, CountOf) == |credits|
  {
    var values := ValuesInOrder(gmap, order);
    var table := SortBy(values, KeyOrder());
    ValuesAreTallies(gmap, order, credits, gs);
    TableEntries(values, credits, gs);
    TableKeys(values, order, table);
    ValuesSums(gmap, order, credits, gs);
    KeySumsTotal(credits, order, gs);
    SortBySum(values, KeyOrder(), PointsOf);
    SortBySum(values, KeyOrder(), CountOf);
  }

  /** The map's values in insertion order are tallies with distinct keys,
      namely the keys of `order`. */
  lemma ValuesAreTallies(gmap: map<string, GradeBreakdown>, order: seq<string>, credits: seq<Award>, gs: seq<GradeConfig>)
    requires MapTallies(gmap, order, credits, gs)
    ensures var values := ValuesInOrder(gmap, order);
      && (forall i :: 0 <= i < |values| ==> values[i] == Tally(credits, values[i].grade, LabelOf(gs, values[i].grade)))
      && (forall i :: 0 <= i < |values| ==> values[i].grade == order[i])
      && DistinctBy(values, KeyOf)
  {
    var values := ValuesInOrder(gmap, order);
    forall i | 0 <= i < |values|
      ensures values[i] == Tally(credits, order[i], LabelOf(gs, order[i]))
      ensures values[i].grade == order[i]
    {
      var k := order[i];
      assert values[i] == gmap[k];
      assert gmap[k] == Tally(credits, k, LabelOf(gs, k));
    }
    forall i, j | 0 <= i < j < |values| ensures KeyOf(values[i]) != KeyOf(values[j]) {
      assert order[i] != order[j];
    }
  }

  /** Sorting tallies with distinct keys gives strictly increasing keys. */
  lemma TableEntries(values: seq<GradeBreakdown>, credits: seq<Award>, gs: seq<GradeConfig>)
    requires forall i :: 0 <= i < |values| ==> values[i] == Tally(credits, values[i].grade, LabelOf(gs, values[i].grade))
    requires DistinctBy(values, KeyOf)
    ensures var table := SortBy(values, KeyOrder());
      && (forall k :: 0 <= k < |table| ==> table[k] == Tally(credits, table[k].grade, LabelOf(gs, table[k].grade)))
      && (forall i, j :: 0 <= i < j < |table| ==> StrLe(table[i].grade, table[j].grade) && table[i].grade != table[j].grade)
  {
    TableTallies(values, credits, gs);
    TableKeysIncrease(values);
  }

  /** Sorting keeps every entry a tally: the sorted table holds only values. */
  lemma TableTallies(values: seq<GradeBreakdown>, credits: seq<Award>, gs: seq<GradeConfig>)
    requires forall i :: 0 <= i < |values| ==> values[i] == Tally(credits, values[i].grade, LabelOf(gs, values[i].grade))
    ensures var table := SortBy(values, KeyOrder());
      forall k :: 0 <= k < |table| ==> table[k] == Tally(credits, table[k].grade, LabelOf(gs, table[k].grade))
  {
    var table := SortBy(values, KeyOrder());
    forall k | 0 <= k < |table|
      ensures table[k] == Tally(credits, table[k].grade, LabelOf(gs, table[k].grade))
    {
      SortByMembers(values, KeyOrder(), table[k]);
    }
  }

  /** Sorting values with distinct keys by key makes the keys strictly increasing. */
  lemma TableKeysIncrease(values: seq<GradeBreakdown>)
    requires DistinctBy(values, KeyOf)
    ensures var table := SortBy(values, KeyOrder());
      forall i, j :: 0 <= i < j < |table| ==> StrLe(table[i].grade, table[j].grade) && table[i].grade != table[j].grade
  {
    var table := SortBy(values, KeyOrder());
    SortByDistinct(values, KeyOrder(), KeyOf);
    KeyOrderIsTotalPreorder();
    SortBySorted(values, KeyOrder());
    assert forall i, j :: 0 <= i < j < |table| ==> KeyOrder()(table[i], table[j]) && KeyOf(table[i]) != KeyOf(table[j]);
  }

  /** `key` is the grade of some entry of `table`. */
  predicate HasGrade(table: seq<GradeBreakdown>, key: string) {
    exists k :: 0 <= k < |table| && table[k].grade == key
  }

  /** The sorted values carry exactly the keys of `order`. */
  lemma TableKeys(values: seq<GradeBreakdown>, order: seq<string>, table: seq<GradeBreakdown>)
    requires |values| == |order|
    requires forall i :: 0 <= i < |values| ==> values[i].grade == order[i]
    requires table == SortBy(values, KeyOrder())
    ensures forall key :: key in order <==> HasGrade(table, key)
  {
    forall key ensures key in order <==> HasGrade(table, key) {
      if key in order {
        var i :| 0 <= i < |order| && order[i] == key;
        SortByMembers(values, KeyOrder(), values[i]);
        var k :| 0 <= k < |table| && table[k] == values[i];
        assert table[k].grade == key;
      }
      if HasGrade(table, key) {
        var k :| 0 <= k < |table| && table[k].grade == key;
        SortByMembers(values, KeyOrder(), table[k]);
        var i :| 0 <= i < |values| && values[i] == table[k];
        assert order[i] == key;
      }
    }
  }

  // ---------------------------------------------------------------------
  // The query

  /** Some grade entry of the item names the participant's raw id: the
      `grade.participant equals participantId` part of the query. */
  predicate GradedFor(item: Item, pid: Id) {
    exists k :: 0 <= k < |item.grade| && item.grade[k].participant == Some(Raw(pid))
  }

  /** The item is placed or graded for the participant: the query's filter. */
  predicate NamesParticipant(item: Item, pid: Id) {
    InSomeSlot(Loose, item, pid) || GradedFor(item, pid)
  }

  /** The query result: the items naming the participant, in order. It
      keeps exactly those: each item it returns names the participant, and
      no item naming it is left out. */
  function SelectionQuery(items: seq<Item>, pid: Id): (r: seq<Item>)
    ensures |r| <= |items|
    ensures forall k :: 0 <= k < |r| ==> NamesParticipant(r[k], pid)
    ensures forall k :: 0 <= k < |items| && NamesParticipant(items[k], pid) ==> items[k] in r
    ensures FilteredBy(r, items, (item: Item) => NamesParticipant(item, pid))
  {
    if items == [] then EmptyFiltered((item: Item) => NamesParticipant(item, pid)); []
    else
      var init := items[..|items| - 1];
      var last := items[|items| - 1];
      var r0 := SelectionQuery(init, pid);
      assert items == init + [last];
      FilterStep(r0, init, (item: Item) => NamesParticipant(item, pid), last);
      if NamesParticipant(last, pid) then r0 + [last] else r0
  }

  /** Entries none of which names the participant award nothing. */
  lemma {:induction false} EntryAwardsEmpty(entries: seq<GradeEntry>, t: ItemType, pid: Id, gs: seq<GradeConfig>)
    requires forall k :: 0 <= k < |entries| ==> entries[k].participant != Some(Raw(pid))
    ensures EntryAwards(entries, t, pid, gs) == []
  {
    if entries != [] {
      var init := entries[..|entries| - 1];
      assert forall k :: 0 <= k < |init| ==> init[k] == entries[k];
      EntryAwardsEmpty(init, t, pid, gs);
    }
  }

  /** An item the query drops credits nothing. */
  lemma DroppedItemCreditsNothing(item: Item, pid: Id, gs: seq<GradeConfig>)
    requires !NamesParticipant(item, pid)
    ensures CreditedPosition(Guarded, item, pid).None?
    ensures EntryAwards(item.grade, item.itemType, pid, gs) == []
  {
    EntryAwardsEmpty(item.grade, item.itemType, pid, gs);
  }

  /** Running the loop over the query result credits exactly the positions
      that running it over every item would: the same counts, ... */
  lemma {:induction false} SelectionKeepsCounts(items: seq<Item>, pid: Id, p: Position, t: ItemType)
    ensures CreditedCount(SelectionQuery(items, pid), pid, p, t) == CreditedCount(items, pid, p, t)
  {
    if items != [] {
      var init := items[..|items| - 1];
      var last := items[|items| - 1];
      var step := if CreditedPosition(Guarded, last, pid) == Some(p) && last.itemType == t then 1 else 0;
      assert CreditedCount(items, pid, p, t) == CreditedCount(init, pid, p, t) + step;
      SelectionKeepsCounts(init, pid, p, t);
      var d0 := SelectionQuery(init, pid);
      if NamesParticipant(last, pid) {
        var docs := d0 + [last];
        assert SelectionQuery(items, pid) == docs;
        assert docs[..|docs| - 1] == d0;
        assert CreditedCount(docs, pid, p, t) == CreditedCount(d0, pid, p, t) + step;
      } else {
        assert SelectionQuery(items, pid) == d0;
        DroppedItemCreditsNothing(last, pid, []);
        assert step == 0;
      }
    }
  }

  /** ... the same number of credited items ... */
  lemma {:induction false} SelectionKeepsCreditedItems(items: seq<Item>, pid: Id)
    ensures CreditedItems(SelectionQuery(items, pid), pid) == CreditedItems(items, pid)
  {
    if items != [] {
      var init := items[..|items| - 1];
      var last := items[|items| - 1];
      SelectionKeepsCreditedItems(init, pid);
      var d0 := SelectionQuery(init, pid);
      if NamesParticipant(last, pid) {
        var docs := d0 + [last];
        assert docs[..|docs| - 1] == d0;
      } else {
        DroppedItemCreditsNothing(last, pid, []);
      }
    }
  }

  /** ... the same position points ... */
  lemma {:induction false} SelectionKeepsPositionPoints(items: seq<Item>, pid: Id, ps: PointSystem)
    ensures FirstMatchTotal(Guarded, SelectionQuery(items, pid), pid, ps) == FirstMatchTotal(Guarded, items, pid, ps)
  {
    if items != [] {
      var init := items[..|items| - 1];
      var last := items[|items| - 1];
      SelectionKeepsPositionPoints(init, pid, ps);
      var d0 := SelectionQuery(init, pid);
      if NamesParticipant(last, pid) {
        var docs := d0 + [last];
        assert docs[..|docs| - 1] == d0;
      } else {
        DroppedItemCreditsNothing(last, pid, []);
      }
    }
  }

  /** ... and thus the same position breakdowns. */
  lemma SelectionKeepsPositions(items: seq<Item>, pid: Id, ps: PointSystem, p: Position)
    ensures ExpectedPosition(SelectionQuery(items, pid), pid, ps, p) == ExpectedPosition(items, pid, ps, p)
  {
    SelectionKeepsCounts(items, pid, p, Group);
    SelectionKeepsCounts(items, pid, p, Individual);
  }

  /** ... and exactly the same grade awards, in the same order. */
  lemma {:induction false} SelectionKeepsGrades(items: seq<Item>, pid: Id, gs: seq<GradeConfig>)
    ensures GradeCredits(SelectionQuery(items, pid), pid, gs) == GradeCredits(items, pid, gs)
  {
    if items != [] {
      var init := items[..|items| - 1];
      var last := items[|items| - 1];
      SelectionKeepsGrades(init, pid, gs);
      var d0 := SelectionQuery(init, pid);
      if NamesParticipant(last, pid) {
        var docs := d0 + [last];
        assert docs[..|docs| - 1] == d0;
      } else {
        DroppedItemCreditsNothing(last, pid, gs);
      }
    }
  }

  // ---------------------------------------------------------------------
  // calculateParticipantPoints

  /** `settings.gradeSystem || []` */
  function GradeSystemOf(s: Settings): seq<GradeConfig> {
    if s.gradeSystem.Some? then s.gradeSystem.value else []
  }

  /** The breakdown returned from the `catch` block. */
  function EmptyBreakdown(pid: Id): (r: ParticipantPointsBreakdown)
    ensures r.totalPoints == 0 && r.grades.breakdown == []
    ensures r.pointSystem == PointSystemReport(DefaultPoints(), [])
  {
    ParticipantPointsBreakdown(pid, 0,
      Positions(EmptyPosition, EmptyPosition, EmptyPosition, 0),
      Grades([], 0),
      Summary(0, 0, 0),
      PointSystemReport(DefaultPoints(), []))
  }

  /** The positions part: each position's counts and points under
      first-match crediting over every item, and their total. */
  ghost predicate PositionsOk(pos: Positions, items: seq<Item>, pid: Id, ps: PointSystem) {
    && pos.first == ExpectedPosition(items, pid, ps, First)
    && pos.second == ExpectedPosition(items, pid, ps, Second)
    && pos.third == ExpectedPosition(items, pid, ps, Third)
    && pos.totalPositionPoints == FirstMatchTotal(Guarded, items, pid, ps)
  }

  /** The grades part: the grade table of the awards, and their total,
      which is also the sum of the table's points. */
  ghost predicate GradesOk(grades: Grades, credits: seq<Award>, gs: seq<GradeConfig>) {
    && GradeTableOk(grades.breakdown, credits, gs)
    && grades.totalGradePoints == AwardsTotal(credits)
    && grades.totalGradePoints == SumOf(grades.breakdown, PointsOf)
  }

  /** What a successful calculation returns for the participant, given every
      item: the positions and grades parts, totals that add up, and the
      point system in force. */
  ghost predicate BreakdownOk(r: ParticipantPointsBreakdown, items: seq<Item>, pid: Id, ps: PointSystem, gs: seq<GradeConfig>) {
    var credits := GradeCredits(items, pid, gs);
    && r.participantId == pid
    && PositionsOk(r.positions, items, pid, ps)
    && GradesOk(r.grades, credits, gs)
    && r.totalPoints == r.positions.totalPositionPoints + r.grades.totalGradePoints
    && r.summary == Summary(|SelectionQuery(items, pid)|, CreditedItems(items, pid), |credits|)
    && r.pointSystem == PointSystemReport(ps, gs)
  }

  /** One more entry appends its award, if any. */
  lemma EntryAwardsStep(awards0: seq<Award>, entries: seq<GradeEntry>, j: int, t: ItemType, pid: Id, gs: seq<GradeConfig>)
    requires 0 <= j < |entries|
    ensures var a := EntryAward(entries[j], t, pid, gs);
      awards0 + EntryAwards(entries[..j + 1], t, pid, gs) ==
        (awards0 + EntryAwards(entries[..j], t, pid, gs)) + (if a.Some? then [a.value] else [])
  {
    assert entries[..j + 1][..j] == entries[..j];
  }

  /** The body of the `forEach` over an item's grade entries: an entry with
      a key, naming the participant, whose key is in the grade system, gets
      its key's entry created if needed and then credited. */
  method RecordEntry(e: GradeEntry, t: ItemType, pid: Id, gs: seq<GradeConfig>,
                     gmap0: map<string, GradeBreakdown>, order0: seq<string>, total0: int,
                     ghost awards0: seq<Award>, ghost awards: seq<Award>)
    returns (gmap: map<string, GradeBreakdown>, order: seq<string>, total: int)
    requires MapTallies(gmap0, order0, awards0, gs)
    requires total0 == AwardsTotal(awards0)
    requires var a := EntryAward(e, t, pid, gs);
      awards == awards0 + (if a.Some? then [a.value] else [])
    ensures MapTallies(gmap, order, awards, gs) && total == AwardsTotal(awards)
  {
    gmap, order, total := gmap0, order0, total0;
    if e.grade != "" && SlotMatches(Guarded, e.participant, pid) {
      var found := FindGrade(gs, e.grade);
      if found.Some? {
        var g := found.value;
        if e.grade !in gmap {
          gmap := gmap[e.grade := GradeBreakdown(e.grade, g.grade, 0, NoCounts, NoPoints)];
          order := order + [e.grade];
        }
        var points := GradePoints(g, t);
        gmap := gmap[e.grade := CreditGrade(gmap[e.grade], t, points)];
        total := total + points;
        ghost var a := Award(e.grade, g.grade, t, points);
        RecordAward(gmap0, order0, awards0, gs, a, gmap, order);
        AwardSnoc(awards0, a, a.key, a.gradeLabel);
        return;
      }
    }
    assert awards0 + [] == awards0;
  }

  /** The grade entries of one item: each entry that names the participant
      with a configured key is recorded in the grade map. */
  method TallyGrades(entries: seq<GradeEntry>, t: ItemType, pid: Id, gs: seq<GradeConfig>,
                     gmap0: map<string, GradeBreakdown>, order0: seq<string>, total0: int, ghost awards0: seq<Award>)
    returns (gmap: map<string, GradeBreakdown>, order: seq<string>, total: int)
    requires MapTallies(gmap0, order0, awards0, gs)
    requires total0 == AwardsTotal(awards0)
    ensures MapTallies(gmap, order, awards0 + EntryAwards(entries, t, pid, gs), gs)
    ensures total == AwardsTotal(awards0 + EntryAwards(entries, t, pid, gs))
  {
    gmap, order, total := gmap0, order0, total0;
    var j := 0;
    assert awards0 + EntryAwards(entries[..0], t, pid, gs) == awards0;
    while j < |entries|
      invariant 0 <= j <= |entries|
      invariant MapTallies(gmap, order, awards0 + EntryAwards(entries[..j], t, pid, gs), gs)
      invariant total == AwardsTotal(awards0 + EntryAwards(entries[..j], t, pid, gs))
    {
      EntryAwardsStep(awards0, entries, j, t, pid, gs);
      gmap, order, total := RecordEntry(entries[j], t, pid, gs, gmap, order, total,
        awards0 + EntryAwards(entries[..j], t, pid, gs), awards0 + EntryAwards(entries[..j + 1], t, pid, gs));
      j := j + 1;
    }
    assert entries[..j] == entries;
  }

  /** The body of the `forEach` over the queried items: credit at most one
      position (First, then Second, then Third), then record the item's
      grade entries. */
  method ProcessItem(item: Item, pid: Id, ps: PointSystem, gs: seq<GradeConfig>,
                     first0: PositionBreakdown, second0: PositionBreakdown, third0: PositionBreakdown, positionPoints0: int,
                     gmap0: map<string, GradeBreakdown>, order0: seq<string>, gradePoints0: int, ghost awards0: seq<Award>)
    returns (first: PositionBreakdown, second: PositionBreakdown, third: PositionBreakdown, positionPoints: int,
             gmap: map<string, GradeBreakdown>, order: seq<string>, gradePoints: int)
    requires MapTallies(gmap0, order0, awards0, gs)
    requires gradePoints0 == AwardsTotal(awards0)
    ensures var c := CreditedPosition(Guarded, item, pid);
      && first == (if c == Some(First) then CreditPlace(first0, item.itemType, Rate(ps, First, item.itemType)) else first0)
      && second == (if c == Some(Second) then CreditPlace(second0, item.itemType, Rate(ps, Second, item.itemType)) else second0)
      && third == (if c == Some(Third) then CreditPlace(third0, item.itemType, Rate(ps, Third, item.itemType)) else third0)
    ensures positionPoints == positionPoints0 + FirstMatchItemPoints(Guarded, item, pid, ps)
    ensures MapTallies(gmap, order, awards0 + EntryAwards(item.grade, item.itemType, pid, gs), gs)
    ensures gradePoints == AwardsTotal(awards0 + EntryAwards(item.grade, item.itemType, pid, gs))
  {
    first, second, third, positionPoints := first0, second0, third0, positionPoints0;
    var results := item.results;
    var t := item.itemType;
    if SlotMatches(Guarded, results.first, pid) {
      var points := ForType(ps.first, t);
      first := CreditPlace(first, t, points);
      positionPoints := positionPoints + points;
    } else if SlotMatches(Guarded, results.second, pid) {
      var points := ForType(ps.second, t);
      second := CreditPlace(second, t, points);
      positionPoints := positionPoints + points;
    } else if SlotMatches(Guarded, results.third, pid) {
      var points := ForType(ps.third, t);
      third := CreditPlace(third, t, points);
      positionPoints := positionPoints + points;
    }
    gmap, order, gradePoints := TallyGrades(item.grade, t, pid, gs, gmap0, order0, gradePoints0, awards0);
  }

  /** `calculateParticipantPoints` (the detailed one). A failed fetch of the
      settings or of the items gives the empty breakdown; otherwise the
      breakdown is the one `BreakdownOk` describes for the stored points
      and grade system. */
  method CalculateParticipantPoints(settings: Fetch<Settings>, items: Fetch<seq<Item>>, pid: Id)
    returns (r: ParticipantPointsBreakdown)
    ensures settings.FetchFailed? || items.FetchFailed? ==> r == EmptyBreakdown(pid)
    ensures settings.Fetched? && items.Fetched? ==>
      BreakdownOk(r, items.value, pid, ResolvePoints(settings.value.pointsSystem), GradeSystemOf(settings.value))
  {
    if settings.FetchFailed? {
      return EmptyBreakdown(pid);
    }
    var ps := ResolvePoints(settings.value.pointsSystem);
    var gs := GradeSystemOf(settings.value);
    if items.FetchFailed? {
      return EmptyBreakdown(pid);
    }
    r := BreakdownOf(items.value, pid, ps, gs);
  }

  /** The body of the `try` once both reads have succeeded: run the query,
      walk its result, sort the grade table and assemble the response. */
  method BreakdownOf(items: seq<Item>, pid: Id, ps: PointSystem, gs: seq<GradeConfig>) returns (r: ParticipantPointsBreakdown)
    ensures BreakdownOk(r, items, pid, ps, gs)
  {
    var docs := SelectionQuery(items, pid);
    var first, second, third, totalPositionPoints, gmap, order, totalGradePoints := ProcessItems(docs, pid, ps, gs);
    var gradeBreakdowns := SortBy(ValuesInOrder(gmap, order), KeyOrder());
    r := ParticipantPointsBreakdown(
      pid,
      totalPositionPoints + totalGradePoints,
      Positions(first, second, third, totalPositionPoints),
      Grades(gradeBreakdowns, totalGradePoints),
      Summary(|docs|, first.count + second.count + third.count, SumOf(gradeBreakdowns, CountOf)),
      PointSystemReport(ps, gs));
    BreakdownAssembled(r, items, pid, ps, gs, gmap, order);
  }

  /** The parts computed over the query result, put together as the method
      does, form the breakdown of all items. */
  lemma BreakdownAssembled(r: ParticipantPointsBreakdown, items: seq<Item>, pid: Id, ps: PointSystem, gs: seq<GradeConfig>,
                           gmap: map<string, GradeBreakdown>, order: seq<string>)
    requires var docs := SelectionQuery(items, pid);
      && r.positions.first == ExpectedPosition(docs, pid, ps, First)
      && r.positions.second == ExpectedPosition(docs, pid, ps, Second)
      && r.positions.third == ExpectedPosition(docs, pid, ps, Third)
      && r.positions.totalPositionPoints == FirstMatchTotal(Guarded, docs, pid, ps)
      && MapTallies(gmap, order, GradeCredits(docs, pid, gs), gs)
      && r.grades.breakdown == SortBy(ValuesInOrder(gmap, order), KeyOrder())
      && r.grades.totalGradePoints == AwardsTotal(GradeCredits(docs, pid, gs))
    requires r.participantId == pid
    requires r.totalPoints == r.positions.totalPositionPoints + r.grades.totalGradePoints
    requires r.summary == Summary(|SelectionQuery(items, pid)|,
      r.positions.first.count + r.positions.second.count + r.positions.third.count, SumOf(r.grades.breakdown, CountOf))
    requires r.pointSystem == PointSystemReport(ps, gs)
    ensures BreakdownOk(r, items, pid, ps, gs)
  {
    PositionsAssembled(r.positions, items, pid, ps);
    GradesAssembled(r.grades, items, pid, gs, gmap, order);
  }

  /** The `forEach` over the queried items, from empty counters and an
      empty grade map. */
  method ProcessItems(docs: seq<Item>, pid: Id, ps: PointSystem, gs: seq<GradeConfig>)
    returns (first: PositionBreakdown, second: PositionBreakdown, third: PositionBreakdown, totalPositionPoints: int,
             gmap: map<string, GradeBreakdown>, order: seq<string>, totalGradePoints: int)
    ensures first == ExpectedPosition(docs, pid, ps, First)
    ensures second == ExpectedPosition(docs, pid, ps, Second)
    ensures third == ExpectedPosition(docs, pid, ps, Third)
    ensures totalPositionPoints == FirstMatchTotal(Guarded, docs, pid, ps)
    ensures MapTallies(gmap, order, GradeCredits(docs, pid, gs), gs)
    ensures totalGradePoints == AwardsTotal(GradeCredits(docs, pid, gs))
  {
    first, second, third := EmptyPosition, EmptyPosition, EmptyPosition;
    gmap, order := map[], [];
    totalPositionPoints, totalGradePoints := 0, 0;
    var i := 0;
    while i < |docs|
      invariant 0 <= i <= |docs|
      invariant first == ExpectedPosition(docs[..i], pid, ps, First)
      invariant second == ExpectedPosition(docs[..i], pid, ps, Second)
      invariant third == ExpectedPosition(docs[..i], pid, ps, Third)
      invariant totalPositionPoints == FirstMatchTotal(Guarded, docs[..i], pid, ps)
      invariant MapTallies(gmap, order, GradeCredits(docs[..i], pid, gs), gs)
      invariant totalGradePoints == AwardsTotal(GradeCredits(docs[..i], pid, gs))
    {
      var item := docs[i];
      assert docs[..i + 1][..i] == docs[..i];
      ExpectedPositionStep(docs[..i + 1], pid, ps, First);
      ExpectedPositionStep(docs[..i + 1], pid, ps, Second);
      ExpectedPositionStep(docs[..i + 1], pid, ps, Third);
      first, second, third, totalPositionPoints, gmap, order, totalGradePoints :=
        ProcessItem(item, pid, ps, gs, first, second, third, totalPositionPoints, gmap, order, totalGradePoints,
                    GradeCredits(docs[..i], pid, gs));
      i := i + 1;
    }
    assert docs[..i] == docs;
  }

  /** The positions counted over the query result are those of all items. */
  lemma PositionsAssembled(pos: Positions, items: seq<Item>, pid: Id, ps: PointSystem)
    requires var docs := SelectionQuery(items, pid);
      && pos.first == ExpectedPosition(docs, pid, ps, First)
      && pos.second == ExpectedPosition(docs, pid, ps, Second)
      && pos.third == ExpectedPosition(docs, pid, ps, Third)
      && pos.totalPositionPoints == FirstMatchTotal(Guarded, docs, pid, ps)
    ensures PositionsOk(pos, items, pid, ps)
    ensures pos.first.count + pos.second.count + pos.third.count == CreditedItems(items, pid)
  {
    SelectionKeepsPositions(items, pid, ps, First);
    SelectionKeepsPositions(items, pid, ps, Second);
    SelectionKeepsPositions(items, pid, ps, Third);
    SelectionKeepsPositionPoints(items, pid, ps);
    PositionCountsAddUp(items, pid, ps);
  }

  /** The grade map built over the query result, read out and sorted by
      key, is the grade table of all items' awards. */
  lemma GradesAssembled(grades: Grades, items: seq<Item>, pid: Id, gs: seq<GradeConfig>,
                        gmap: map<string, GradeBreakdown>, order: seq<string>)
    requires var docs := SelectionQuery(items, pid);
      && MapTallies(gmap, order, GradeCredits(docs, pid, gs), gs)
      && (forall k :: k in order ==> k in gmap)
      && grades.breakdown == SortBy(ValuesInOrder(gmap, order), KeyOrder())
      && grades.totalGradePoints == AwardsTotal(GradeCredits(docs, pid, gs))
    ensures GradesOk(grades, GradeCredits(items, pid, gs), gs)
    ensures SumOf(grades.breakdown, CountOf) == |GradeCredits(items, pid, gs)|
  {
    SelectionKeepsGrades(items, pid, gs);
    GradeTableFromMap(gmap, order, GradeCredits(items, pid, gs), gs);
  }

  /** `getParticipantTotalPoints`: the breakdown's total. */
  method GetParticipantTotalPoints(settings: Fetch<Settings>, items: Fetch<seq<Item>>, pid: Id) returns (total: int)
    ensures settings.FetchFailed? || items.FetchFailed? ==> total == 0
    ensures settings.Fetched? && items.Fetched? ==>
      var ps := ResolvePoints(settings.value.pointsSystem);
      total == FirstMatchTotal(Guarded, items.value, pid, ps) + AwardsTotal(GradeCredits(items.value, pid, GradeSystemOf(settings.value)))
  {
    var breakdown := CalculateParticipantPoints(settings, items, pid);
    total := breakdown.totalPoints;
  }
}
