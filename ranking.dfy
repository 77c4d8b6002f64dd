/** Tie-aware competition ranking ("1224" style) and its display labels,
    from src/utilities/rankingUtils.ts. */
module Ranking {
  import opened Sorting
  import opened Sequences

  /** An entity with its rank, its text such as "T-2nd", and whether
      another entity shares its score. */
  datatype RankedItem<T> = RankedItem(item: T, rank: int, displayRank: string, isTied: bool)

  /** The comparator `(a, b) => getScore(b) - getScore(a)` read as
      "a may be placed before b": highest score first. */
  function ScoreDesc<T>(getScore: T -> int): (T, T) -> bool {
    (a: T, b: T) => getScore(a) >= getScore(b)
  }

  lemma ScoreDescIsTotalPreorder<T(!new)>(getScore: T -> int)
    ensures TotalPreorder(ScoreDesc(getScore))
  {
  }

  /** Non-increasing scores: SortedBy for ScoreDesc, spelt out. */
  ghost predicate SortedDesc<T>(s: seq<T>, getScore: T -> int) {
    forall i, j :: 0 <= i < j < |s| ==> getScore(s[i]) >= getScore(s[j])
  }

  /** The entities of a ranking, in ranking order. */
  function ItemsOf<T>(rs: seq<RankedItem<T>>): (s: seq<T>)
    ensures |s| == |rs|
    ensures forall i :: 0 <= i < |rs| ==> s[i] == rs[i].item
  {
    seq(|rs|, i requires 0 <= i < |rs| => rs[i].item)
  }

  /** How many entities of `s` score strictly more than `x`. */
  function CountAbove<T>(s: seq<T>, getScore: T -> int, x: int): nat {
    if s == [] then 0 else (if getScore(s[0]) > x then 1 else 0) + CountAbove(s[1..], getScore, x)
  }

  /** Entity `i` of the sorted list has the same score as a neighbour. */
  predicate TiedAt<T>(s: seq<T>, getScore: T -> int, i: int)
    requires 0 <= i < |s|
  {
    (i > 0 && getScore(s[i - 1]) == getScore(s[i])) || (i < |s| - 1 && getScore(s[i + 1]) == getScore(s[i]))
  }

  /** What the ranking promises of its output: the entities in
      non-increasing score order; each rank is one more than the number of
      entities that score strictly more (competition ranking); the tie flag
      is set exactly when a neighbour has the same score. */
  ghost predicate CompetitionRanked<T>(ranked: seq<RankedItem<T>>, getScore: T -> int) {
    var s := ItemsOf(ranked);
    && SortedDesc(s, getScore)
    && (forall i :: 0 <= i < |ranked| ==> ranked[i].rank == 1 + CountAbove(s, getScore, getScore(s[i])))
    && (forall i {:trigger ranked[i].isTied} :: 0 <= i < |ranked| ==> ranked[i].isTied == TiedAt(s, getScore, i))
  }

  /** Every label is FormatRank of the entry's rank and tie flag. */
  ghost predicate Labelled<T>(ranked: seq<RankedItem<T>>) {
    ranked == [] || (Labelled(ranked[..|ranked| - 1]) && LabelOk(ranked[|ranked| - 1]))
  }

  ghost predicate LabelOk<T>(e: RankedItem<T>) {
    e.displayRank == FormatRank(e.rank, e.isTied)
  }

  lemma {:induction false} LabelledAt<T>(ranked: seq<RankedItem<T>>, i: int)
    requires Labelled(ranked) && 0 <= i < |ranked|
    ensures ranked[i].displayRank == FormatRank(ranked[i].rank, ranked[i].isTied)
  {
    if i < |ranked| - 1 {
      var init := ranked[..|ranked| - 1];
      LabelledAt(init, i);
      assert init[i] == ranked[i];
    }
  }

  /** If exactly the first `k` entities score above `x`, `k` entities do. */
  lemma {:induction false} CountAboveSplit<T>(s: seq<T>, getScore: T -> int, x: int, k: nat)
    requires k <= |s|
    requires forall j :: 0 <= j < k ==> getScore(s[j]) > x
    requires forall j :: k <= j < |s| ==> getScore(s[j]) <= x
    ensures CountAbove(s, getScore, x) == k
  {
    if s != [] {
      var t := s[1..];
      if k > 0 {
        assert forall j :: 0 <= j < k - 1 ==> t[j] == s[j + 1];
        assert forall j :: k - 1 <= j < |t| ==> t[j] == s[j + 1];
        CountAboveSplit(t, getScore, x, k - 1);
      } else {
        assert forall j :: 0 <= j < |t| ==> t[j] == s[j + 1];
        CountAboveSplit(t, getScore, x, 0);
      }
    }
  }

  /** If nothing from position `k` on scores above `x`, at most `k` entities do. */
  lemma {:induction false} CountAboveBound<T>(s: seq<T>, getScore: T -> int, x: int, k: nat)
    requires forall j :: k <= j < |s| ==> getScore(s[j]) <= x
    ensures CountAbove(s, getScore, x) <= k
  {
    if s != [] {
      var t := s[1..];
      assert forall j :: 0 <= j < |t| ==> t[j] == s[j + 1];
      CountAboveBound(t, getScore, x, if k > 0 then k - 1 else 0);
    }
  }

  /** A higher score never has more entities above it. */
  lemma {:induction false} CountAboveAntitone<T>(s: seq<T>, getScore: T -> int, x: int, y: int)
    requires y <= x
    ensures CountAbove(s, getScore, x) <= CountAbove(s, getScore, y)
  {
    if s != [] { CountAboveAntitone(s[1..], getScore, x, y); }
  }

  /** An entity scoring `x > y` is above `y` but not above `x`. */
  lemma {:induction false} CountAboveStrict<T>(s: seq<T>, getScore: T -> int, x: int, y: int, i: nat)
    requires i < |s| && getScore(s[i]) == x && y < x
    ensures CountAbove(s, getScore, x) < CountAbove(s, getScore, y)
  {
    if i == 0 {
      CountAboveAntitone(s[1..], getScore, x, y);
    } else {
      CountAboveStrict(s[1..], getScore, x, y, i - 1);
    }
  }

  /** Entry `k` of the walk over `sorted`: its entity, its competition
      rank, its tie flag and its label. */
  ghost predicate EntryOk<T>(sorted: seq<T>, getScore: T -> int, k: int, e: RankedItem<T>)
    requires 0 <= k < |sorted|
  {
    && e.item == sorted[k]
    && e.rank == 1 + CountAbove(sorted, getScore, getScore(sorted[k]))
    && e.isTied == TiedAt(sorted, getScore, k)
    && LabelOk(e)
  }

  /** The walk has produced correct entries for the first `|ranked|`
      entities of `sorted`. */
  ghost predicate Walked<T>(ranked: seq<RankedItem<T>>, sorted: seq<T>, getScore: T -> int) {
    && |ranked| <= |sorted|
    && (ranked == [] ||
        (Walked(ranked[..|ranked| - 1], sorted, getScore) && EntryOk(sorted, getScore, |ranked| - 1, ranked[|ranked| - 1])))
  }

  lemma {:induction false} WalkedAt<T>(ranked: seq<RankedItem<T>>, sorted: seq<T>, getScore: T -> int, k: int)
    requires Walked(ranked, sorted, getScore) && 0 <= k < |ranked|
    ensures EntryOk(sorted, getScore, k, ranked[k])
  {
    if k < |ranked| - 1 {
      var init := ranked[..|ranked| - 1];
      WalkedAt(init, sorted, getScore, k);
      assert init[k] == ranked[k];
    }
  }

  lemma {:induction false} WalkedLabelled<T>(ranked: seq<RankedItem<T>>, sorted: seq<T>, getScore: T -> int)
    requires Walked(ranked, sorted, getScore)
    ensures Labelled(ranked)
  {
    if ranked != [] {
      WalkedLabelled(ranked[..|ranked| - 1], sorted, getScore);
    }
  }

  /** A complete walk over a sorted list is a competition ranking of it. */
  lemma WalkedComplete<T>(ranked: seq<RankedItem<T>>, sorted: seq<T>, getScore: T -> int)
    requires Walked(ranked, sorted, getScore) && |ranked| == |sorted|
    requires SortedDesc(sorted, getScore)
    ensures ItemsOf(ranked) == sorted
    ensures CompetitionRanked(ranked, getScore)
    ensures Labelled(ranked)
  {
    forall k | 0 <= k < |ranked|
      ensures EntryOk(sorted, getScore, k, ranked[k])
    {
      WalkedAt(ranked, sorted, getScore, k);
    }
    assert ItemsOf(ranked) == sorted;
    WalkedLabelled(ranked, sorted, getScore);
  }

  /** An entry that is right for the next entity extends the walk. */
  lemma WalkStep<T>(ranked: seq<RankedItem<T>>, sorted: seq<T>, getScore: T -> int, e: RankedItem<T>)
    requires Walked(ranked, sorted, getScore) && |ranked| < |sorted|
    requires EntryOk(sorted, getScore, |ranked|, e)
    ensures Walked(ranked + [e], sorted, getScore)
  {
    assert (ranked + [e])[..|ranked|] == ranked;
  }

  /** One step of the walk: the rank carried over from entity `i - 1`, or
      `i + 1` when the score drops, is the competition rank of entity `i`. */
  lemma RankStepHolds<T>(sorted: seq<T>, getScore: T -> int, i: int, before: int, after: int)
    requires SortedDesc(sorted, getScore) && 0 <= i < |sorted|
    requires i == 0 ==> before == 1
    requires i > 0 ==> before == 1 + CountAbove(sorted, getScore, getScore(sorted[i - 1]))
    requires after == if i > 0 && getScore(sorted[i]) < getScore(sorted[i - 1]) then i + 1 else before
    ensures after == 1 + CountAbove(sorted, getScore, getScore(sorted[i]))
  {
    var x := getScore(sorted[i]);
    if i == 0 {
      CountAboveSplit(sorted, getScore, x, 0);
    } else if x < getScore(sorted[i - 1]) {
      CountAboveSplit(sorted, getScore, x, i);
    }
  }

  /** `calculateRanks`: sorts a copy of `items` by descending score, then
      walks it. */
  method CalculateRanks<T(!new)>(items: seq<T>, getScore: T -> int) returns (ranked: seq<RankedItem<T>>)
    ensures ItemsOf(ranked) == SortBy(items, ScoreDesc(getScore))
    ensures multiset(ItemsOf(ranked)) == multiset(items)
    ensures CompetitionRanked(ranked, getScore)
    ensures Labelled(ranked)
  {
    var sorted := SortBy(items, ScoreDesc(getScore));
    assert SortedDesc(sorted, getScore) by {
      ScoreDescIsTotalPreorder(getScore);
      SortBySorted(items, ScoreDesc(getScore));
    }
    ranked := WalkRanks(sorted, getScore);
    WalkedComplete(ranked, sorted, getScore);
  }

  /** The body of the loop of `calculateRanks` for entity `i`: the rank
      carried over, or `i + 1` when the score drops below the previous
      one, and the entry built with it. */
  method RankEntry<T>(sorted: seq<T>, getScore: T -> int, i: int, before: int) returns (currentRank: int, entry: RankedItem<T>)
    requires SortedDesc(sorted, getScore) && 0 <= i < |sorted|
    requires i == 0 ==> before == 1
    requires i > 0 ==> before == 1 + CountAbove(sorted, getScore, getScore(sorted[i - 1]))
    ensures currentRank == 1 + CountAbove(sorted, getScore, getScore(sorted[i]))
    ensures entry.rank == currentRank
    ensures EntryOk(sorted, getScore, i, entry)
  {
    currentRank := before;
    var currentScore := getScore(sorted[i]);
    if i > 0 {
      var prevScore := getScore(sorted[i - 1]);
      if currentScore < prevScore {
        currentRank := i + 1;
      }
    }
    RankStepHolds(sorted, getScore, i, before, currentRank);
    var isTied := (i > 0 && getScore(sorted[i - 1]) == currentScore)
      || (i < |sorted| - 1 && getScore(sorted[i + 1]) == currentScore);
    entry := RankedItem(sorted[i], currentRank, FormatRank(currentRank, isTied), isTied);
  }

  /** The loop of `calculateRanks` over the sorted copy, keeping
      `currentRank`, which jumps to the 1-based position whenever the
      score drops. */
  method WalkRanks<T>(sorted: seq<T>, getScore: T -> int) returns (ranked: seq<RankedItem<T>>)
    requires SortedDesc(sorted, getScore)
    ensures |ranked| == |sorted|
    ensures Walked(ranked, sorted, getScore)
  {
    ranked := [];
    var currentRank := 1;
    var i := 0;
    while i < |sorted|
      invariant 0 <= i <= |sorted|
      invariant |ranked| == i
      invariant i == 0 ==> currentRank == 1
      invariant i > 0 ==> currentRank == 1 + CountAbove(sorted, getScore, getScore(sorted[i - 1]))
      invariant Walked(ranked, sorted, getScore)
    {
      var entry;
      currentRank, entry := RankEntry(sorted, getScore, i, currentRank);
      WalkStep(ranked, sorted, getScore, entry);
      ranked := ranked + [entry];
      i := i + 1;
    }
  }

  /** The first entity is ranked 1. */
  lemma FirstRankIsOne<T>(ranked: seq<RankedItem<T>>, getScore: T -> int)
    requires CompetitionRanked(ranked, getScore)
    requires |ranked| > 0
    ensures ranked[0].rank == 1
  {
    var s := ItemsOf(ranked);
    CountAboveSplit(s, getScore, getScore(s[0]), 0);
  }

  /** Ranks never decrease along the ranking, and rank `i` (0-based) is at
      most `i + 1`. */
  lemma RanksMonotone<T>(ranked: seq<RankedItem<T>>, getScore: T -> int, i: int, j: int)
    requires CompetitionRanked(ranked, getScore)
    requires 0 <= i <= j < |ranked|
    ensures ranked[i].rank <= ranked[j].rank
    ensures ranked[j].rank <= j + 1
  {
    var s := ItemsOf(ranked);
    if i < j { assert getScore(s[i]) >= getScore(s[j]); }
    CountAboveAntitone(s, getScore, getScore(s[i]), getScore(s[j]));
    CountAboveBound(s, getScore, getScore(s[j]), j);
  }

  /** Neighbours with equal scores share a rank; after a strict drop in
      score the rank is the 1-based position. */
  lemma RankStep<T>(ranked: seq<RankedItem<T>>, getScore: T -> int, i: int)
    requires CompetitionRanked(ranked, getScore)
    requires 0 < i < |ranked|
    ensures getScore(ranked[i].item) == getScore(ranked[i - 1].item) ==> ranked[i].rank == ranked[i - 1].rank
    ensures getScore(ranked[i].item) < getScore(ranked[i - 1].item) ==> ranked[i].rank == i + 1
  {
    var s := ItemsOf(ranked);
    if getScore(s[i]) < getScore(s[i - 1]) {
      forall j | 0 <= j < i ensures getScore(s[j]) > getScore(s[i]) {
        if j < i - 1 { assert getScore(s[j]) >= getScore(s[i - 1]); }
      }
      CountAboveSplit(s, getScore, getScore(s[i]), i);
    }
  }

  /** Two entities share a rank exactly when they share a score. */
  lemma SameRankIffSameScore<T>(ranked: seq<RankedItem<T>>, getScore: T -> int, i: int, j: int)
    requires CompetitionRanked(ranked, getScore)
    requires 0 <= i < |ranked| && 0 <= j < |ranked|
    ensures ranked[i].rank == ranked[j].rank <==> getScore(ranked[i].item) == getScore(ranked[j].item)
  {
    var s := ItemsOf(ranked);
    if getScore(s[i]) > getScore(s[j]) {
      CountAboveStrict(s, getScore, getScore(s[i]), getScore(s[j]), i);
    } else if getScore(s[j]) > getScore(s[i]) {
      CountAboveStrict(s, getScore, getScore(s[j]), getScore(s[i]), j);
    }
  }

  /** `formatRank`: optional "T-" prefix, the decimal rank, its suffix. */
  function FormatRank(rank: int, isTied: bool): (text: string)
    ensures isTied <==> |text| >= 2 && text[..2] == "T-"
    ensures |text| >= 3 && text[|text| - 2..] == RankSuffix(rank)
  {
    var digits := IntToString(rank);
    var text := (if isTied then "T-" else "") + digits + RankSuffix(rank);
    assert isTied ==> text[..2] == "T-";
    assert !isTied ==> text[0] == digits[0];
    text
  }

  /** JavaScript `a % m` for `m > 0`: the remainder takes the sign of `a`. */
  function JsRem(a: int, m: int): (r: int)
    requires m > 0
    ensures -m < r < m
    ensures a >= 0 ==> r == a % m
    ensures a < 0 ==> -m < r <= 0 && (a - r) % m == 0
  {
    if a >= 0 then a % m
    else
      var q := (-a) / m;
      assert a + (-a) % m == m * -q;
      MultipleRem(-q, m);
      -((-a) % m)
  }

  /** A multiple of `m` leaves no remainder. */
  lemma MultipleRem(k: int, m: int)
    requires m > 0
    ensures (m * k) % m == 0
  {
    var q := (m * k) / m;
    var t := k - q;
    assert (m * k) % m == m * t;
  }

  /** `getRankSuffix`: "th" for 11 to 13 modulo 100, otherwise st/nd/rd
      by the last digit, otherwise th. */
  function RankSuffix(rank: int): (s: string)
    ensures |s| == 2
    ensures s in {"st", "nd", "rd", "th"}
  {
    var h := JsRem(rank, 100);
    if 11 <= h <= 13 then "th"
    else
      match JsRem(rank, 10)
      case 1 => "st"
      case 2 => "nd"
      case 3 => "rd"
      case _ => "th"
  }

  function Digit(d: int): (c: char)
    requires 0 <= d < 10
    ensures '0' <= c <= '9' && c as int - '0' as int == d
  {
    "0123456789"[d]
  }

  /** The decimal numeral of `n`, as a template literal prints it. */
  function NatToString(n: nat): (s: string)
    ensures |s| >= 1
    ensures forall i :: 0 <= i < |s| ==> '0' <= s[i] <= '9'
    ensures |s| > 1 ==> s[0] != '0'
  {
    if n < 10 then [Digit(n)] else NatToString(n / 10) + [Digit(n % 10)]
  }

  function IntToString(i: int): (s: string)
    ensures |s| >= 1 && s[0] != 'T'
  {
    if i < 0 then "-" + NatToString(-i) else NatToString(i)
  }

  /** The number a string of decimal digits denotes. */
  function DigitsValue(s: string): int {
    if s == [] then 0 else 10 * DigitsValue(s[..|s| - 1]) + (s[|s| - 1] as int - '0' as int)
  }

  lemma {:induction false} NatToStringRoundTrip(n: nat)
    ensures DigitsValue(NatToString(n)) == n
  {
    if n >= 10 {
      NatToStringRoundTrip(n / 10);
      var s := NatToString(n);
      assert s[..|s| - 1] == NatToString(n / 10);
    }
  }

  /** Reads a text back: the tie flag from the prefix, the rank from the
      digits before the two-letter suffix. */
  function ParseDisplayRank(text: string): (int, bool) {
    var tied := |text| >= 2 && text[..2] == "T-";
    var rest := if tied then text[2..] else text;
    var digits := if |rest| >= 2 then rest[..|rest| - 2] else "";
    (DigitsValue(digits), tied)
  }

  /** Reading back an optional "T-", a numeral that does not start with
      'T' and a two-letter suffix. */
  lemma ParseDisplayRankParts(tied: bool, digits: string, suffix: string)
    requires |digits| >= 1 && digits[0] != 'T' && |suffix| == 2
    ensures ParseDisplayRank((if tied then "T-" else "") + digits + suffix) == (DigitsValue(digits), tied)
  {
    var text := (if tied then "T-" else "") + digits + suffix;
    var rest := digits + suffix;
    assert text == (if tied then "T-" else "") + rest;
    if tied {
      assert text[..2] == "T-";
      assert text[2..] == rest;
    } else {
      assert text[0] == digits[0];
      assert text[..2] != "T-";
    }
    var r := if tied then text[2..] else text;
    assert r == rest;
    assert r[..|r| - 2] == digits;
  }

  /** A text of a non-negative rank determines the rank and the tie flag. */
  lemma FormatRankRoundTrip(rank: nat, isTied: bool)
    ensures ParseDisplayRank(FormatRank(rank, isTied)) == (rank, isTied)
  {
    var digits := NatToString(rank);
    assert IntToString(rank) == digits;
    ParseDisplayRankParts(isTied, digits, RankSuffix(rank));
    NatToStringRoundTrip(rank);
  }

  /** The ordinal suffixes the doc comment and the tests call out. */
  lemma RankSuffixExamples()
    ensures RankSuffix(1) == "st" && RankSuffix(2) == "nd" && RankSuffix(3) == "rd" && RankSuffix(4) == "th"
    ensures RankSuffix(11) == "th" && RankSuffix(12) == "th" && RankSuffix(13) == "th" && RankSuffix(111) == "th"
    ensures RankSuffix(21) == "st" && RankSuffix(22) == "nd" && RankSuffix(23) == "rd"
  {
  }

  /** For a non-negative rank, the suffix by cases; it repeats every 100. */
  lemma RankSuffixByCases(n: nat)
    ensures RankSuffix(n) == "st" <==> n % 10 == 1 && n % 100 != 11
    ensures RankSuffix(n) == "nd" <==> n % 10 == 2 && n % 100 != 12
    ensures RankSuffix(n) == "rd" <==> n % 10 == 3 && n % 100 != 13
    ensures RankSuffix(n) == "th" <==> n % 10 !in {1, 2, 3} || 11 <= n % 100 <= 13
  {
    var h := n % 100;
    var d := n % 10;
    assert JsRem(n, 100) == h && JsRem(n, 10) == d;
    LastDigitOfHundreds(n);
    assert 11 <= h <= 13 ==> d == h - 10;
  }

  /** The suffix repeats every 100 ranks. */
  lemma RankSuffixPeriodic(n: nat)
    ensures RankSuffix(n + 100) == RankSuffix(n)
  {
    ModShift(n);
    assert JsRem(n + 100, 100) == JsRem(n, 100) && JsRem(n + 100, 10) == JsRem(n, 10);
  }

  /** The last digit of `n` is the last digit of `n % 100`. */
  lemma {:induction false} LastDigitOfHundreds(n: nat)
    ensures n % 100 % 10 == n % 10
    decreases n
  {
    if n >= 100 {
      LastDigitOfHundreds(n - 100);
      ModShift(n - 100);
    }
  }

  /** Adding 100 keeps both the last two digits and the last digit. */
  lemma ModShift(m: nat)
    ensures (m + 100) % 100 == m % 100
    ensures (m + 100) % 10 == m % 10
  {
    assert (m + 100) / 100 == m / 100 + 1;
    assert (m + 100) / 10 == m / 10 + 10;
  }

  /** Labels of the doc-comment example. */
  lemma FormatRankDocLabels()
    ensures FormatRank(1, true) == "T-1st" && FormatRank(3, false) == "3rd"
    ensures FormatRank(4, true) == "T-4th" && FormatRank(6, false) == "6th"
  {
  }

  /** A tied second place and the two-digit ranks 11 and 21. */
  lemma FormatRankExamples()
    ensures FormatRank(2, true) == "T-2nd" && FormatRank(11, false) == "11th" && FormatRank(21, false) == "21st"
  {
    assert NatToString(11) == NatToString(1) + [Digit(1)];
    assert NatToString(21) == NatToString(2) + [Digit(1)];
  }

  /** The doc-comment example: scores 100, 100, 90, 80, 80, 70 are ranked
      1, 1, 3, 4, 4, 6, and labelled T-1st, T-1st, 3rd, T-4th, T-4th, 6th. */
  lemma DocExample(ranked: seq<RankedItem<int>>)
    requires CompetitionRanked(ranked, (x: int) => x)
    requires Labelled(ranked)
    requires ItemsOf(ranked) == [100, 100, 90, 80, 80, 70]
    ensures |ranked| == 6
    ensures ranked[0].rank == 1 && ranked[1].rank == 1 && ranked[2].rank == 3
    ensures ranked[3].rank == 4 && ranked[4].rank == 4 && ranked[5].rank == 6
    ensures ranked[0].displayRank == "T-1st" && ranked[1].displayRank == "T-1st" && ranked[2].displayRank == "3rd"
    ensures ranked[3].displayRank == "T-4th" && ranked[4].displayRank == "T-4th" && ranked[5].displayRank == "6th"
  {
    DocExampleRanks(ranked);
    FormatRankDocLabels();
    LabelledAt(ranked, 0);
    LabelledAt(ranked, 1);
    LabelledAt(ranked, 2);
    LabelledAt(ranked, 3);
    LabelledAt(ranked, 4);
    LabelledAt(ranked, 5);
  }

  /** `calculateRanks` run on the doc-comment scores: the order is kept and
      the ranks and labels are the documented ones. */
  method CalculateRanksDocExample() returns (ranked: seq<RankedItem<int>>)
    ensures ItemsOf(ranked) == [100, 100, 90, 80, 80, 70]
    ensures |ranked| == 6
    ensures ranked[0].rank == 1 && ranked[1].rank == 1 && ranked[2].rank == 3
    ensures ranked[3].rank == 4 && ranked[4].rank == 4 && ranked[5].rank == 6
    ensures ranked[0].displayRank == "T-1st" && ranked[1].displayRank == "T-1st" && ranked[2].displayRank == "3rd"
    ensures ranked[3].displayRank == "T-4th" && ranked[4].displayRank == "T-4th" && ranked[5].displayRank == "6th"
  {
    var scores := [100, 100, 90, 80, 80, 70];
    var f := (x: int) => x;
    assert SortedBy(scores, ScoreDesc(f));
    SortedIsFixpoint(scores, ScoreDesc(f));
    ranked := CalculateRanks(scores, f);
    DocExample(ranked);
  }

  /** The ranks and tie flags of the doc-comment example. */
  lemma DocExampleRanks(ranked: seq<RankedItem<int>>)
    requires CompetitionRanked(ranked, (x: int) => x)
    requires ItemsOf(ranked) == [100, 100, 90, 80, 80, 70]
    ensures |ranked| == 6
    ensures ranked[0].rank == 1 && ranked[1].rank == 1 && ranked[2].rank == 3
    ensures ranked[3].rank == 4 && ranked[4].rank == 4 && ranked[5].rank == 6
    ensures ranked[0].isTied && ranked[1].isTied && !ranked[2].isTied
    ensures ranked[3].isTied && ranked[4].isTied && !ranked[5].isTied
  {
    var s := ItemsOf(ranked);
    var f := (x: int) => x;
    assert ranked[0].item == 100 && ranked[1].item == 100 && ranked[2].item == 90;
    assert ranked[3].item == 80 && ranked[4].item == 80 && ranked[5].item == 70;
    FirstRankIsOne(ranked, f);
    RankStep(ranked, f, 1);
    RankStep(ranked, f, 2);
    RankStep(ranked, f, 3);
    RankStep(ranked, f, 4);
    RankStep(ranked, f, 5);
    assert ranked[0].isTied == TiedAt(s, f, 0) && ranked[1].isTied == TiedAt(s, f, 1);
    assert ranked[2].isTied == TiedAt(s, f, 2) && ranked[3].isTied == TiedAt(s, f, 3);
    assert ranked[4].isTied == TiedAt(s, f, 4) && ranked[5].isTied == TiedAt(s, f, 5);
  }

  /** The styling flags of `getPositionStyleClass`. */
  datatype PositionStyle = PositionStyle(isFirst: bool, isSecond: bool, isThird: bool, isTop3: bool)

  /** `getPositionStyleClass`: top-3 styling by rank; the tie flag is not used. */
  function GetPositionStyleClass(rank: int, isTied: bool): (c: PositionStyle)
    ensures c.isFirst <==> rank == 1
    ensures c.isSecond <==> rank == 2
    ensures c.isThird <==> rank == 3
    ensures c.isTop3 <==> rank <= 3
    ensures c.isFirst || c.isSecond || c.isThird ==> c.isTop3
    ensures rank >= 1 && c.isTop3 ==> (c.isFirst || c.isSecond || c.isThird)
    ensures !(c.isFirst && c.isSecond) && !(c.isFirst && c.isThird) && !(c.isSecond && c.isThird)
  {
    PositionStyle(rank == 1, rank == 2, rank == 3, rank <= 3)
  }

  /** The styling depends on the rank alone. */
  lemma StyleIgnoresTie(rank: int)
    ensures GetPositionStyleClass(rank, true) == GetPositionStyleClass(rank, false)
  {
  }

  /** `getItemsInRank`: the entries with the given rank, in their order. */
  function ItemsInRank<T>(rs: seq<RankedItem<T>>, rank: int): (r: seq<RankedItem<T>>)
    ensures forall i :: 0 <= i < |r| ==> r[i].rank == rank
    ensures IsSubsequence(r, rs)
    ensures FilteredBy(r, rs, (e: RankedItem<T>) => e.rank == rank)
  {
    if rs == [] then EmptyFiltered((e: RankedItem<T>) => e.rank == rank); []
    else
      var rest := ItemsInRank(rs[1..], rank);
      assert rs == [rs[0]] + rs[1..];
      FilteredByCons(rest, rs[1..], (e: RankedItem<T>) => e.rank == rank, rs[0]);
      if rs[0].rank == rank then [rs[0]] + rest else rest
  }

  /** No entry holding the rank is left out. */
  lemma {:induction false} ItemsInRankComplete<T>(rs: seq<RankedItem<T>>, rank: int, i: int)
    requires 0 <= i < |rs| && rs[i].rank == rank
    ensures rs[i] in ItemsInRank(rs, rank)
  {
    if i > 0 {
      assert rs[1..][i - 1] == rs[i];
      ItemsInRankComplete(rs[1..], rank, i - 1);
    }
  }

  /** `isRankTied`: more than one entry holds the rank. */
  function IsRankTied<T>(rs: seq<RankedItem<T>>, rank: int): (tied: bool)
    ensures tied <==> exists i, j :: 0 <= i < j < |rs| && rs[i].rank == rank && rs[j].rank == rank
  {
    ItemsInRankTwo(rs, rank);
    |ItemsInRank(rs, rank)| > 1
  }

  /** The filter keeps every entry with the rank: it has more than one
      element exactly when two positions hold that rank. */
  lemma {:induction false} ItemsInRankTwo<T>(rs: seq<RankedItem<T>>, rank: int)
    ensures |ItemsInRank(rs, rank)| > 1 <==>
      exists i, j :: 0 <= i < j < |rs| && rs[i].rank == rank && rs[j].rank == rank
  {
    if rs != [] {
      var t := rs[1..];
      ItemsInRankTwo(t, rank);
      ItemsInRankNonEmpty(t, rank);
      if |ItemsInRank(rs, rank)| > 1 {
        if rs[0].rank == rank {
          var j :| 0 <= j < |t| && t[j].rank == rank;
          assert rs[j + 1] == t[j];
        } else {
          var i, j :| 0 <= i < j < |t| && t[i].rank == rank && t[j].rank == rank;
          assert rs[i + 1] == t[i] && rs[j + 1] == t[j];
        }
      }
      if exists i, j :: 0 <= i < j < |rs| && rs[i].rank == rank && rs[j].rank == rank {
        var i, j :| 0 <= i < j < |rs| && rs[i].rank == rank && rs[j].rank == rank;
        assert t[j - 1] == rs[j];
        if i > 0 { assert t[i - 1] == rs[i]; }
      }
    }
  }

  lemma {:induction false} ItemsInRankNonEmpty<T>(rs: seq<RankedItem<T>>, rank: int)
    ensures |ItemsInRank(rs, rank)| > 0 <==> exists j :: 0 <= j < |rs| && rs[j].rank == rank
  {
    if rs != [] {
      ItemsInRankNonEmpty(rs[1..], rank);
      if exists j :: 0 <= j < |rs| && rs[j].rank == rank {
        var j :| 0 <= j < |rs| && rs[j].rank == rank;
        if j > 0 { assert rs[1..][j - 1] == rs[j]; }
      }
      if exists j :: 0 <= j < |rs[1..]| && rs[1..][j].rank == rank {
        var j :| 0 <= j < |rs[1..]| && rs[1..][j].rank == rank;
        assert rs[j + 1] == rs[1..][j];
      }
    }
  }

  /** On a ranking, a rank is tied exactly when some entry holding it
      carries the tie flag. */
  lemma IsRankTiedIffFlagged<T>(ranked: seq<RankedItem<T>>, getScore: T -> int, rank: int)
    requires CompetitionRanked(ranked, getScore)
    ensures IsRankTied(ranked, rank) <==> exists i :: 0 <= i < |ranked| && ranked[i].rank == rank && ranked[i].isTied
  {
    if IsRankTied(ranked, rank) {
      TiedRankIsFlagged(ranked, getScore, rank);
    }
    if exists i :: 0 <= i < |ranked| && ranked[i].rank == rank && ranked[i].isTied {
      var i :| 0 <= i < |ranked| && ranked[i].rank == rank && ranked[i].isTied;
      FlaggedRankIsTied(ranked, getScore, rank, i);
    }
  }

  /** Of two entries sharing a rank, the earlier carries the tie flag. */
  lemma TiedRankIsFlagged<T>(ranked: seq<RankedItem<T>>, getScore: T -> int, rank: int)
    requires CompetitionRanked(ranked, getScore)
    requires IsRankTied(ranked, rank)
    ensures exists i :: 0 <= i < |ranked| && ranked[i].rank == rank && ranked[i].isTied
  {
    ItemsInRankTwo(ranked, rank);
    var i, j :| 0 <= i < j < |ranked| && ranked[i].rank == rank && ranked[j].rank == rank;
    SameRankIffSameScore(ranked, getScore, i, j);
    EqualScoresTieNeighbours(ItemsOf(ranked), getScore, i, j);
    assert ranked[i].isTied;
  }

  /** In a non-increasing list, an entity scoring the same as a later one
      scores the same as its successor. */
  lemma EqualScoresTieNeighbours<T>(s: seq<T>, getScore: T -> int, i: int, j: int)
    requires SortedDesc(s, getScore)
    requires 0 <= i < j < |s| && getScore(s[i]) == getScore(s[j])
    ensures TiedAt(s, getScore, i)
  {
    assert getScore(s[i]) >= getScore(s[i + 1]) >= getScore(s[j]);
  }

  /** An entry with the tie flag shares its rank with a neighbour. */
  lemma FlaggedRankIsTied<T>(ranked: seq<RankedItem<T>>, getScore: T -> int, rank: int, i: int)
    requires CompetitionRanked(ranked, getScore)
    requires 0 <= i < |ranked| && ranked[i].rank == rank && ranked[i].isTied
    ensures IsRankTied(ranked, rank)
  {
    var s := ItemsOf(ranked);
    assert TiedAt(s, getScore, i);
    ItemsInRankTwo(ranked, rank);
    if i > 0 && getScore(s[i - 1]) == getScore(s[i]) {
      SameRankIffSameScore(ranked, getScore, i - 1, i);
      assert ranked[i - 1].rank == rank;
    } else {
      SameRankIffSameScore(ranked, getScore, i, i + 1);
      assert ranked[i + 1].rank == rank;
    }
  }
}
