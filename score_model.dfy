/**
 * The value-level part of the score tracker: difficulty multipliers and
 * points, the level table and level lookup, the statistics records, what one
 * recorded answer does to them, and the merge that rebuilds them from storage.
 */
module ScoreModel {
  import opened Wrappers
  import opened QuestionData

  // ------------------------------------------------------------------ points

  /**
   * `DIFFICULTY_MULTIPLIERS[level] || 1.0`, in quarters: 1.0, 1.25, 1.5 and
   * 1.75 are 4/4 to 7/4, and every other level falls back to 4/4.
   */
  function MultiplierQuarters(level: int): (k: nat)
    ensures 4 <= k <= 7
    ensures k != 4 ==> 2 <= level <= 4
  {
    if level == 1 then 4
    else if level == 2 then 5
    else if level == 3 then 6
    else if level == 4 then 7
    else 4
  }

  /** `Math.ceil(x / 4)` for a natural number `x`. */
  function CeilQuarter(x: nat): (r: nat)
    ensures 4 * r - 3 <= x <= 4 * r
  {
    (x + 3) / 4
  }

  datatype Points = Points(earned: nat, possible: nat)

  /**
   * `calculatePoints`: points for `correctParts` of the three parts at a
   * difficulty level, both rounded up.
   */
  function CalculatePoints(correctParts: nat, difficultyLevel: int): (p: Points)
    ensures 4 * p.earned - 3 <= correctParts * MultiplierQuarters(difficultyLevel) <= 4 * p.earned
    ensures 4 * p.possible - 3 <= 3 * MultiplierQuarters(difficultyLevel) <= 4 * p.possible
  {
    var k := MultiplierQuarters(difficultyLevel);
    Points(CeilQuarter(correctParts * k), CeilQuarter(3 * k))
  }

  /**
   * For a score of 0 to 3: nothing is earned for nothing, something for any
   * correct part, never more than possible, and all of it exactly for 3.
   */
  lemma {:induction false} PointsBounds(n: nat, level: int)
    requires n <= 3
    ensures CalculatePoints(n, level).earned <= CalculatePoints(n, level).possible
    ensures CalculatePoints(n, level).earned == 0 <==> n == 0
    ensures CalculatePoints(n, level).earned == CalculatePoints(n, level).possible <==> n == 3
  {
    var k := MultiplierQuarters(level);
    var p := CalculatePoints(n, level);
    assert p.possible == (3 * k + 3) / 4;
    if n == 0 {
      assert p.earned == 0;
    } else if n == 1 {
      assert p.earned == (k + 3) / 4;
    } else if n == 2 {
      assert p.earned == (2 * k + 3) / 4;
    } else {
      assert p.earned == (3 * k + 3) / 4;
    }
  }

  /** More correct parts never earn fewer points. */
  lemma {:induction false} PointsMonotone(n: nat, m: nat, level: int)
    requires n <= m
    ensures CalculatePoints(n, level).earned <= CalculatePoints(m, level).earned
  {
    var k := MultiplierQuarters(level);
    MulMonotone(n, m, k);
  }

  lemma {:induction false} MulMonotone(n: nat, m: nat, k: nat)
    requires n <= m
    ensures n * k <= m * k
    decreases m - n
  {
    if n < m {
      MulMonotone(n, m - 1, k);
      assert m * k == (m - 1) * k + k;
    }
  }

  /** The possible points per level, and the worked example (2, 2) -> (3, 4). */
  lemma PointsTable()
    ensures CalculatePoints(3, 1).possible == 3
    ensures CalculatePoints(3, 2).possible == 4
    ensures CalculatePoints(3, 3).possible == 5
    ensures CalculatePoints(3, 4).possible == 6
    ensures CalculatePoints(0, 9).possible == 3
    ensures CalculatePoints(2, 2) == Points(3, 4)
    ensures CalculatePoints(1, 4) == Points(2, 6)
  {
  }

  // ------------------------------------------------------------------ levels

  datatype LevelInfo = LevelInfo(
    emoji: string,
    title: string,
    description: string,
    minPoints: int,
    minAccuracy: int)

  /** `DEFAULT_LEVELS`. */
  const DefaultLevels: seq<LevelInfo> := [
    LevelInfo("\U{1F95A}", "Beginner", "Just getting started!", 0, 0),
    LevelInfo("\U{1F423}", "Novice", "Making progress!", 5, 0),
    LevelInfo("\U{1F424}", "Learner", "Building confidence!", 12, 60),
    LevelInfo("\U{1F986}", "Skilled", "Getting the hang of it!", 25, 70),
    LevelInfo("\U{1F986}\U{2728}", "Expert", "Impressive skills!", 50, 80),
    LevelInfo("\U{1FABF}\U{1F451}", "Master", "Absolute mastery achieved!", 75, 90)
  ]

  /** A level is reached when both its points and its accuracy thresholds are met. */
  predicate Meets(l: LevelInfo, points: int, accuracy: real) {
    points >= l.minPoints && accuracy >= l.minAccuracy as real
  }

  /** The highest index below `n` whose level is reached, if any. */
  function HighestMet(levels: seq<LevelInfo>, points: int, accuracy: real, n: nat): (r: Option<nat>)
    requires n <= |levels|
    ensures r.Some? ==> r.value < n && Meets(levels[r.value], points, accuracy)
    ensures r.Some? ==> forall j :: r.value < j < n ==> !Meets(levels[j], points, accuracy)
    ensures r.None? ==> forall j :: 0 <= j < n ==> !Meets(levels[j], points, accuracy)
  {
    if n == 0 then None
    else if Meets(levels[n - 1], points, accuracy) then Some(n - 1)
    else HighestMet(levels, points, accuracy, n - 1)
  }

  /** The index of the current level: the highest one reached, else the first. */
  function LevelIndex(levels: seq<LevelInfo>, points: int, accuracy: real): (i: nat)
    requires |levels| > 0
    ensures i < |levels|
    ensures Meets(levels[i], points, accuracy) || i == 0
    ensures forall j :: i < j < |levels| ==> !Meets(levels[j], points, accuracy)
  {
    match HighestMet(levels, points, accuracy, |levels|)
    case Some(i) => i
    case None => 0
  }

  /** Raising the points or the accuracy never lowers the level. */
  lemma {:induction false} LevelIndexMonotone(levels: seq<LevelInfo>, p1: int, p2: int, a1: real, a2: real)
    requires |levels| > 0 && p1 <= p2 && a1 <= a2
    ensures LevelIndex(levels, p1, a1) <= LevelIndex(levels, p2, a2)
  {
  }

  /**
   * With a first level that asks for nothing and every later level asking
   * for some points, a blank record sits on the first level.
   */
  lemma BlankIsFirstLevel(levels: seq<LevelInfo>)
    requires |levels| > 0 && levels[0].minPoints <= 0 && levels[0].minAccuracy <= 0
    requires forall j :: 1 <= j < |levels| ==> levels[j].minPoints > 0
    ensures LevelIndex(levels, 0, 0.0) == 0
  {
  }

  /** Worked examples on the default table. */
  lemma DefaultLevelsExamples()
    ensures LevelIndex(DefaultLevels, 0, 0.0) == 0
    ensures LevelIndex(DefaultLevels, 30, 75.0) == 3
    ensures LevelIndex(DefaultLevels, 100, 50.0) == 1
    ensures LevelIndex(DefaultLevels, 80, 95.0) == 5
  {
    assert Meets(DefaultLevels[3], 30, 75.0);
    assert Meets(DefaultLevels[1], 100, 50.0);
    assert Meets(DefaultLevels[5], 80, 95.0);
  }

  /** `(correct / attempts) * 100`, or 0 before the first attempt. */
  function Accuracy(correct: nat, attempts: nat): (a: real)
    ensures a >= 0.0
    ensures attempts == 0 ==> a == 0.0
    ensures attempts > 0 ==> a * attempts as real == correct as real * 100.0
    ensures correct <= attempts ==> a <= 100.0
  {
    if attempts > 0 then (correct as real / attempts as real) * 100.0 else 0.0
  }

  // --------------------------------------------------------- statistics data

  datatype ModeStats = ModeStats(attempts: nat, correct: nat, points: nat, streak: nat, recordStreak: nat)

  datatype CategoryStats = CategoryStats(attempts: nat, correct: nat, points: nat)

  /** `ScoreData`: the record of the single mode and the per-category records. */
  datatype ScoreData = ScoreData(errorSpotter: ModeStats, categoryStats: map<Category, CategoryStats>)

  /** Every category has a record. */
  predicate Complete(m: map<Category, CategoryStats>) {
    forall c: Category :: c in m
  }

  /** The invariants the tracker keeps between attempts. */
  predicate Consistent(d: ScoreData) {
    && d.errorSpotter.correct <= d.errorSpotter.attempts
    && d.errorSpotter.streak <= d.errorSpotter.recordStreak
    && forall c :: c in d.categoryStats ==> d.categoryStats[c].correct <= d.categoryStats[c].attempts
  }

  const BlankMode: ModeStats := ModeStats(0, 0, 0, 0, 0)

  const BlankCategory: CategoryStats := CategoryStats(0, 0, 0)

  /** `blankCategoryStats`. */
  function BlankCategories(): (m: map<Category, CategoryStats>)
    ensures Complete(m)
    ensures forall c :: c in m ==> m[c] == BlankCategory
  {
    CategoriesClosed();
    map c | c in AllCategories :: BlankCategory
  }

  /** `blankScoreData`: all zeros, every category present. */
  function Blank(): (d: ScoreData)
    ensures Complete(d.categoryStats) && Consistent(d)
    ensures d.errorSpotter == BlankMode
    ensures forall c :: c in d.categoryStats ==> d.categoryStats[c] == BlankCategory
  {
    ScoreData(BlankMode, BlankCategories())
  }

  // -------------------------------------------------------------- recordScore

  /** What `recordScore` makes of the statistics. */
  function Recorded(d: ScoreData, pointsEarned: nat, pointsPossible: nat, category: Option<Category>): (r: ScoreData)
    requires category.Some? ==> category.value in d.categoryStats
  {
    var full := pointsEarned == pointsPossible;
    var m := d.errorSpotter;
    var streak := if full then m.streak + 1 else 0;
    var mode := ModeStats(
      m.attempts + 1,
      if full then m.correct + 1 else m.correct,
      m.points + pointsEarned,
      streak,
      if streak > m.recordStreak then streak else m.recordStreak);
    var cats :=
      if category.None? then d.categoryStats
      else
        var c := d.categoryStats[category.value];
        d.categoryStats[category.value := CategoryStats(
          c.attempts + 1, if full then c.correct + 1 else c.correct, c.points + pointsEarned)];
    ScoreData(mode, cats)
  }

  /**
   * One attempt more; points added; a full score raises correct and streak,
   * anything else ends the streak; the record streak is the larger of the old
   * record and the new streak.
   */
  lemma RecordedMode(d: ScoreData, e: nat, p: nat, category: Option<Category>)
    requires category.Some? ==> category.value in d.categoryStats
    ensures var m, m' := d.errorSpotter, Recorded(d, e, p, category).errorSpotter;
      && m'.attempts == m.attempts + 1
      && m'.points == m.points + e
      && (e == p ==> m'.correct == m.correct + 1 && m'.streak == m.streak + 1)
      && (e != p ==> m'.correct == m.correct && m'.streak == 0)
      && m'.recordStreak == (if m'.streak > m.recordStreak then m'.streak else m.recordStreak)
  {
  }

  /**
   * Only the named category's record changes, in step with the mode record;
   * without a category no category record changes; the key set is kept.
   */
  lemma RecordedCategories(d: ScoreData, e: nat, p: nat, category: Option<Category>)
    requires category.Some? ==> category.value in d.categoryStats
    ensures var cs, cs' := d.categoryStats, Recorded(d, e, p, category).categoryStats;
      && cs'.Keys == cs.Keys
      && (forall c :: c in cs && category != Some(c) ==> cs'[c] == cs[c])
      && (category.Some? ==>
            var c, c' := cs[category.value], cs'[category.value];
            c'.attempts == c.attempts + 1 && c'.points == c.points + e &&
            c'.correct == (if e == p then c.correct + 1 else c.correct))
  {
  }

  /** Recording an attempt keeps the invariants and completeness. */
  lemma RecordedConsistent(d: ScoreData, e: nat, p: nat, category: Option<Category>)
    requires category.Some? ==> category.value in d.categoryStats
    requires Consistent(d)
    ensures Consistent(Recorded(d, e, p, category))
    ensures Complete(d.categoryStats) ==> Complete(Recorded(d, e, p, category).categoryStats)
  {
  }

  /**
   * From blank: two full scores and a partial one give 3 attempts, 2 correct,
   * 8 points, streak 0 and record streak 2.
   */
  lemma RecordedSequenceExample()
    ensures var d1 := Recorded(Blank(), 3, 3, Some(Operators));
      var d2 := Recorded(d1, 3, 3, Some(Variables));
      var d3 := Recorded(d2, 2, 3, Some(Selection));
      d3.errorSpotter == ModeStats(3, 2, 8, 0, 2)
  {
  }

  // ------------------------------------------------------------ persistence

  /**
   * What reading the storage key yields once parsed: `Unreadable` covers the
   * empty string, `null` and text `JSON.parse` rejects; `Parsed` holds
   * whichever of the two top-level fields the stored object has.
   */
  datatype Blob =
    | Unreadable
    | Parsed(mode: Option<ModeStats>, categoryStats: Option<map<Category, CategoryStats>>)

  /** `JSON.stringify` of the statistics. */
  function Serialize(d: ScoreData): (b: Blob)
    ensures b.Parsed? && b.mode == Some(d.errorSpotter) && b.categoryStats == Some(d.categoryStats)
  {
    Parsed(Some(d.errorSpotter), Some(d.categoryStats))
  }

  /**
   * `loadScores` after the read: blank when nothing usable is stored; else the
   * stored mode record replaces the blank one wholesale, and the stored
   * category records are laid over the blank ones.
   */
  function Merge(stored: Option<Blob>): (d: ScoreData)
    ensures Complete(d.categoryStats)
    ensures (stored.None? || stored == Some(Unreadable)) ==> d == Blank()
    ensures stored.Some? && stored.value.Parsed? ==>
      d.errorSpotter == (if stored.value.mode.Some? then stored.value.mode.value else BlankMode)
    ensures stored.Some? && stored.value.Parsed? ==> forall c :: c in d.categoryStats ==>
      d.categoryStats[c] ==
        (if stored.value.categoryStats.Some? && c in stored.value.categoryStats.value
         then stored.value.categoryStats.value[c] else BlankCategory)
  {
    match stored
    case None => Blank()
    case Some(Unreadable) => Blank()
    case Some(Parsed(mode, cats)) =>
      ScoreData(
        if mode.Some? then mode.value else BlankMode,
        if cats.Some? then BlankCategories() + cats.value else BlankCategories())
  }

  /** Saving complete statistics and loading them back gives them back. */
  lemma {:induction false} MergeSerialized(d: ScoreData)
    requires Complete(d.categoryStats)
    ensures Merge(Some(Serialize(d))) == d
  {
    var m := Merge(Some(Serialize(d))).categoryStats;
    assert m.Keys == d.categoryStats.Keys;
    assert forall c :: c in m ==> m[c] == d.categoryStats[c];
  }

  /** A loaded state is consistent whenever the stored records are. */
  lemma MergeConsistent(stored: Option<Blob>)
    requires stored.Some? && stored.value.Parsed? && stored.value.mode.Some? ==>
      stored.value.mode.value.correct <= stored.value.mode.value.attempts &&
      stored.value.mode.value.streak <= stored.value.mode.value.recordStreak
    requires stored.Some? && stored.value.Parsed? && stored.value.categoryStats.Some? ==>
      forall c :: c in stored.value.categoryStats.value ==>
        stored.value.categoryStats.value[c].correct <= stored.value.categoryStats.value[c].attempts
    ensures Consistent(Merge(stored))
  {
  }
  // ------------------------------------------------------- streak emojis

  datatype Denomination = Denomination(value: nat, emoji: string)

  /** Golden goose 50, eagle 25, swan 10, duck 5, duckling 1. */
  const StreakDenominations: seq<Denomination> := [
    Denomination(50, "\U{1FABF}"),
    Denomination(25, "\U{1F985}"),
    Denomination(10, "\U{1F9A2}"),
    Denomination(5, "\U{1F986}"),
    Denomination(1, "\U{1F424}")
  ]

  predicate Positive(ds: seq<Denomination>) {
    forall i :: 0 <= i < |ds| ==> ds[i].value > 0
  }

  /** How many of each denomination the greedy change-making takes, largest first. */
  function GreedyCounts(n: nat, ds: seq<Denomination>): (cs: seq<nat>)
    requires Positive(ds)
    ensures |cs| == |ds|
  {
    if ds == [] then [] else [n / ds[0].value] + GreedyCounts(n % ds[0].value, ds[1..])
  }

  /** The value the counts stand for. */
  function Total(cs: seq<nat>, ds: seq<Denomination>): nat
    requires |cs| == |ds|
  {
    if ds == [] then 0 else cs[0] * ds[0].value + Total(cs[1..], ds[1..])
  }

  /** `s.repeat(k)`. */
  function Repeat(s: string, k: nat): string {
    if k == 0 then "" else s + Repeat(s, k - 1)
  }

  /** Each denomination's emoji repeated by its count, in table order. */
  function Render(ds: seq<Denomination>, cs: seq<nat>): string
    requires |cs| == |ds|
  {
    if ds == [] then "" else Repeat(ds[0].emoji, cs[0]) + Render(ds[1..], cs[1..])
  }

  /** Rendering the greedy counts takes the first denomination, then renders the rest on what is left. */
  lemma RenderGreedyStep(n: nat, ds: seq<Denomination>)
    requires Positive(ds) && |ds| > 0
    ensures Positive(ds[1..])
    ensures Render(ds, GreedyCounts(n, ds)) ==
      Repeat(ds[0].emoji, n / ds[0].value) + Render(ds[1..], GreedyCounts(n % ds[0].value, ds[1..]))
  {
    var cs := GreedyCounts(n, ds);
    assert cs[1..] == GreedyCounts(n % ds[0].value, ds[1..]);
  }

  /** Taking the most units of `v` that fit leaves the remainder. */
  lemma TakeUnits(n: nat, v: nat)
    requires v > 0
    ensures (n / v) * v <= n && n - (n / v) * v == n % v
  {
  }

  /**
   * One pass of the greedy loop: appending the emoji of denomination `i` as
   * many times as it fits and keeping the remainder leaves the final string unchanged.
   */
  lemma GreedyLoopStep(result: string, remaining: nat, ds: seq<Denomination>, i: nat)
    requires Positive(ds) && i < |ds|
    ensures Positive(ds[i..]) && Positive(ds[i + 1..])
    ensures var v := ds[i].value; var c := remaining / v;
      (if c > 0 then result + Repeat(ds[i].emoji, c) else result)
        + Render(ds[i + 1..], GreedyCounts(if c > 0 then remaining - c * v else remaining, ds[i + 1..]))
      == result + Render(ds[i..], GreedyCounts(remaining, ds[i..]))
  {
    var v := ds[i].value;
    assert ds[i..][0] == ds[i] && ds[i..][1..] == ds[i + 1..];
    RenderGreedyStep(remaining, ds[i..]);
    TakeUnits(remaining, v);
    if remaining / v == 0 {
      assert remaining % v == remaining;
    }
  }

  /** The emoji string `formatStreakEmojis` produces for a streak. */
  function StreakEmojis(streak: nat): string {
    Render(StreakDenominations, GreedyCounts(streak, StreakDenominations))
  }

  /** When the last denomination is 1 the greedy counts add up to exactly `n`. */
  lemma {:induction false} GreedyTotal(n: nat, ds: seq<Denomination>)
    requires Positive(ds) && |ds| > 0 && ds[|ds| - 1].value == 1
    ensures Total(GreedyCounts(n, ds), ds) == n
  {
    var v := ds[0].value;
    var cs := GreedyCounts(n, ds);
    if |ds| == 1 {
      assert cs == [n];
    } else {
      GreedyTotal(n % v, ds[1..]);
      assert cs[1..] == GreedyCounts(n % v, ds[1..]);
      assert (n / v) * v + n % v == n;
    }
  }

  lemma GreedyHeadFits(n: nat, ds: seq<Denomination>)
    requires Positive(ds) && |ds| > 0
    ensures GreedyCounts(n, ds)[0] * ds[0].value <= n
  {
    var v := ds[0].value;
    assert (n / v) * v + n % v == n;
  }

  /**
   * Greedy: after the first denomination, what each one takes is worth less
   * than one unit of the denomination before it.
   */
  lemma {:induction false} GreedyFits(n: nat, ds: seq<Denomination>)
    requires Positive(ds)
    ensures forall i :: 1 <= i < |ds| ==> GreedyCounts(n, ds)[i] * ds[i].value < ds[i - 1].value
  {
    if |ds| > 1 {
      var v := ds[0].value;
      var cs := GreedyCounts(n, ds);
      var rest := GreedyCounts(n % v, ds[1..]);
      assert cs[1..] == rest;
      GreedyFits(n % v, ds[1..]);
      GreedyHeadFits(n % v, ds[1..]);
      forall i | 1 <= i < |ds| ensures cs[i] * ds[i].value < ds[i - 1].value {
        assert cs[i] == rest[i - 1];
        if i > 1 {
          assert ds[1..][i - 1] == ds[i] && ds[1..][i - 2] == ds[i - 1];
        }
      }
    }
  }

  /**
   * For the streak table: the values add up to the streak, at most one eagle,
   * two swans, one duck and four ducklings, and a zero streak shows nothing.
   */
  lemma StreakEmojisCounts(streak: nat)
    ensures var cs := GreedyCounts(streak, StreakDenominations);
      && Total(cs, StreakDenominations) == streak
      && cs[1] <= 1 && cs[2] <= 2 && cs[3] <= 1 && cs[4] <= 4
    ensures streak == 0 ==> StreakEmojis(streak) == ""
  {
    var ds := StreakDenominations;
    GreedyTotal(streak, ds);
    GreedyFits(streak, ds);
    if streak == 0 {
      GreedyZero(ds);
      RenderZero(ds, GreedyCounts(0, ds));
    }
  }

  lemma {:induction false} GreedyZero(ds: seq<Denomination>)
    requires Positive(ds)
    ensures forall i :: 0 <= i < |ds| ==> GreedyCounts(0, ds)[i] == 0
  {
    if ds != [] {
      GreedyZero(ds[1..]);
      assert GreedyCounts(0, ds)[1..] == GreedyCounts(0, ds[1..]);
    }
  }

  lemma {:induction false} RenderZero(ds: seq<Denomination>, cs: seq<nat>)
    requires |cs| == |ds| && forall i :: 0 <= i < |cs| ==> cs[i] == 0
    ensures Render(ds, cs) == ""
  {
    if ds != [] {
      RenderZero(ds[1..], cs[1..]);
    }
  }

  /** A streak of 37 is an eagle, a swan and two ducklings. */
  lemma StreakEmojisExample()
    ensures StreakEmojis(37) == "\U{1F985}\U{1F9A2}\U{1F424}\U{1F424}"
  {
    var ds := StreakDenominations;
    GreedyCountsOf37();
    assert ds[4..][1..] == [] && ds[3..][1..] == ds[4..] && ds[2..][1..] == ds[3..] && ds[1..][1..] == ds[2..];
    var duckling := "\U{1F424}";
    assert Repeat(duckling, 2) == duckling + duckling;
    assert Render(ds[4..], [2]) == duckling + duckling;
    assert Render(ds[3..], [0, 2]) == duckling + duckling;
    assert Render(ds[2..], [1, 0, 2]) == "\U{1F9A2}" + duckling + duckling;
    assert Render(ds[1..], [1, 1, 0, 2]) == "\U{1F985}\U{1F9A2}" + duckling + duckling;
  }

  lemma GreedyCountsOf37()
    ensures GreedyCounts(37, StreakDenominations) == [0, 1, 1, 0, 2]
  {
    var ds := StreakDenominations;
    assert ds[4..][1..] == [] && ds[3..][1..] == ds[4..] && ds[2..][1..] == ds[3..] && ds[1..][1..] == ds[2..];
    assert GreedyCounts(2, ds[4..]) == [2];
    assert GreedyCounts(2, ds[3..]) == [0, 2];
    assert GreedyCounts(12, ds[2..]) == [1, 0, 2];
    assert GreedyCounts(37, ds[1..]) == [1, 1, 0, 2];
  }
}
