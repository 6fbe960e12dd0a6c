/**
 * The stateful score tracker: a key-value store standing for the browser's
 * local storage, and the `ScoreManager` object that updates its statistics in
 * place and writes them through to that store after every change.
 */
module ScoreTracker {
  import opened Wrappers
  import opened QuestionData
  import opened ScoreModel

  /** The key the statistics are stored under. */
  const StorageKey: string := "error-spotter-stats"

  /**
   * Local storage: stored values, already parsed, by key. When it is not
   * `available`, reads and writes throw; when it is not `writable` (a full
   * quota), writes throw while reads still work.
   */
  class Storage {
    var items: map<string, Blob>
    var available: bool
    var writable: bool

    constructor (items: map<string, Blob>, available: bool, writable: bool)
      ensures this.items == items && this.available == available && this.writable == writable
    {
      this.items := items;
      this.available := available;
      this.writable := writable;
    }

    /** Whether a write goes through: the storage works and has room. */
    predicate Accepts()
      reads this
    {
      available && writable
    }

    /** What a read of `key` leaves the loader with; `None` when it is absent or the read throws. */
    function Read(key: string): (r: Option<Blob>)
      reads this
      ensures r.Some? <==> available && key in items
      ensures r.Some? ==> r.value == items[key]
    {
      if available && key in items then Some(items[key]) else None
    }

    /** The stored values after a write of `b` under `key`; a throwing write changes nothing. */
    function Written(key: string, b: Blob): (m: map<string, Blob>)
      reads this
      ensures Accepts() ==> m.Keys == items.Keys + {key} && m[key] == b
      ensures forall k :: k in items && k != key ==> k in m && m[k] == items[k]
      ensures !Accepts() ==> m == items
    {
      if Accepts() then items[key := b] else items
    }

    /** `getItem`: `threw` when the storage is unavailable. */
    method GetItem(key: string) returns (threw: bool, value: Option<Blob>)
      ensures threw == !available
      ensures !threw ==> value == Read(key)
    {
      threw := !available;
      value := if !threw && key in items then Some(items[key]) else None;
    }

    /** `setItem`: `threw` when the storage is unavailable or full, and then nothing is written. */
    method SetItem(key: string, b: Blob) returns (threw: bool)
      modifies this`items
      ensures threw == !(available && writable)
      ensures items == old(Written(key, b))
    {
      threw := !(available && writable);
      if !threw {
        items := items[key := b];
      }
    }
  }

  /** `loadScores`: read the stored statistics, falling back to blank on any failure. */
  method LoadScores(storage: Storage) returns (d: ScoreData)
    ensures d == Merge(storage.Read(StorageKey))
    ensures Complete(d.categoryStats)
  {
    var threw, stored := storage.GetItem(StorageKey);
    if threw {
      d := Blank();
    } else {
      d := Merge(stored);
    }
  }

  /** What `getOverallStats` reports, without the floating-point progress percentage. */
  datatype OverallStats = OverallStats(
    accuracy: real,
    totalPoints: nat,
    totalAttempts: nat,
    totalCorrect: nat,
    currentLevel: LevelInfo,
    levelIndex: nat,
    nextLevel: Option<LevelInfo>,
    streak: nat)

  class ScoreManager {
    const storage: Storage
    const levels: seq<LevelInfo>
    var scores: ScoreData

    /**
     * The object invariant: a level table to look in, and a record for every
     * category. `Consistent` (correct <= attempts, streak <= record) is not
     * part of it: a record loaded from storage may break it, so the methods
     * promise only to keep it when it held before.
     */
    ghost predicate Valid()
      reads this
    {
      |levels| > 0 && Complete(scores.categoryStats)
    }

    /** The in-memory statistics are what the storage holds, whenever it can hold anything. */
    ghost predicate Persisted()
      reads this, storage
    {
      storage.available ==> storage.Read(StorageKey) == Some(Serialize(scores))
    }

    /** The constructor: custom levels or the defaults, statistics loaded from storage. */
    constructor (customLevels: Option<seq<LevelInfo>>, storage: Storage)
      requires customLevels.Some? ==> |customLevels.value| > 0
      ensures Valid() && this.storage == storage
      ensures levels == if customLevels.Some? then customLevels.value else DefaultLevels
      ensures scores == Merge(storage.Read(StorageKey))
    {
      this.storage := storage;
      this.levels := if customLevels.Some? then customLevels.value else DefaultLevels;
      var loaded := LoadScores(storage);
      this.scores := loaded;
    }

    /**
     * `saveScores`: write the statistics through, ignoring a failing write. A
     * write refused by a full storage leaves the old value there, and the
     * statistics are then no longer persisted.
     */
    method SaveScores()
      modifies storage`items
      ensures storage.writable ==> Persisted()
      ensures storage.items ==
        if storage.Accepts() then old(storage.items)[StorageKey := Serialize(scores)] else old(storage.items)
    {
      var threw := storage.SetItem(StorageKey, Serialize(scores));
    }

    function GetStreak(): (s: nat)
      reads this
      ensures s == scores.errorSpotter.streak
      ensures Consistent(scores) ==> s <= scores.errorSpotter.recordStreak
    {
      scores.errorSpotter.streak
    }

    /** `resetStreak`: only the current streak drops to 0; the record stays. */
    method ResetStreak()
      requires Valid()
      modifies this`scores, storage`items
      ensures Valid() && (storage.writable ==> Persisted())
      ensures scores == old(scores).(errorSpotter := old(scores).errorSpotter.(streak := 0))
      ensures old(Consistent(scores)) ==> Consistent(scores)
      ensures storage.items ==
        if storage.Accepts() then old(storage.items)[StorageKey := Serialize(scores)] else old(storage.items)
    {
      scores := scores.(errorSpotter := scores.errorSpotter.(streak := 0));
      SaveScores();
    }

    /**
     * `recordScore`: one more attempt, its points added, a full score extends
     * the streak and anything else ends it; the named category is updated
     * alike; then the statistics are written through.
     */
    method RecordScore(pointsEarned: nat, pointsPossible: nat, category: Option<Category>)
      requires Valid()
      modifies this`scores, storage`items
      ensures Valid() && (storage.writable ==> Persisted())
      ensures scores == Recorded(old(scores), pointsEarned, pointsPossible, category)
      ensures old(Consistent(scores)) ==> Consistent(scores)
      ensures storage.items ==
        if storage.Accepts() then old(storage.items)[StorageKey := Serialize(scores)] else old(storage.items)
    {
      ghost var before := scores;
      var stats := scores.errorSpotter;
      stats := stats.(attempts := stats.attempts + 1);
      stats := stats.(points := stats.points + pointsEarned);
      var isFullyCorrect := pointsEarned == pointsPossible;
      if isFullyCorrect {
        stats := stats.(correct := stats.correct + 1);
        stats := stats.(streak := stats.streak + 1);
        if stats.streak > stats.recordStreak {
          stats := stats.(recordStreak := stats.streak);
        }
      } else {
        stats := stats.(streak := 0);
      }
      scores := scores.(errorSpotter := stats);
      if category.Some? {
        var c := scores.categoryStats[category.value];
        c := c.(attempts := c.attempts + 1);
        c := c.(points := c.points + pointsEarned);
        if isFullyCorrect {
          c := c.(correct := c.correct + 1);
        }
        scores := scores.(categoryStats := scores.categoryStats[category.value := c]);
      }
      if Consistent(before) {
        RecordedConsistent(before, pointsEarned, pointsPossible, category);
      }
      SaveScores();
    }

    /**
     * `getOverallStats`: the mode totals, the accuracy, the highest level
     * reached (found by scanning the table downwards) and the level after it.
     */
    method GetOverallStats() returns (r: OverallStats)
      requires Valid()
      ensures r.totalAttempts == scores.errorSpotter.attempts
      ensures r.totalCorrect == scores.errorSpotter.correct
      ensures r.totalPoints == scores.errorSpotter.points
      ensures r.streak == scores.errorSpotter.streak
      ensures r.accuracy == Accuracy(r.totalCorrect, r.totalAttempts)
      ensures r.levelIndex == LevelIndex(levels, r.totalPoints, r.accuracy)
      ensures r.currentLevel == levels[r.levelIndex]
      ensures r.nextLevel == if r.levelIndex + 1 < |levels| then Some(levels[r.levelIndex + 1]) else None
    {
      var stats := scores.errorSpotter;
      var totalAttempts, totalCorrect, totalPoints := stats.attempts, stats.correct, stats.points;
      var accuracy := if totalAttempts > 0 then (totalCorrect as real / totalAttempts as real) * 100.0 else 0.0;

      var current := 0;
      var i := |levels| - 1;
      while i >= 0
        invariant -1 <= i < |levels|
        invariant current == 0
        invariant forall j :: i < j < |levels| ==> !Meets(levels[j], totalPoints, accuracy)
      {
        if totalPoints >= levels[i].minPoints && accuracy >= levels[i].minAccuracy as real {
          current := i;
          break;
        }
        i := i - 1;
      }

      var next := if current < |levels| - 1 then Some(levels[current + 1]) else None;
      r := OverallStats(accuracy, totalPoints, totalAttempts, totalCorrect,
                        levels[current], current, next, stats.streak);
    }

    /** `getModeStats` / the mode part of `getAllModeStats`: the live mode record. */
    function GetModeStats(): (m: ModeStats)
      reads this
      ensures m == scores.errorSpotter
      ensures Consistent(scores) ==> m.correct <= m.attempts && m.streak <= m.recordStreak
    {
      scores.errorSpotter
    }

    /**
     * `getAllModeStats`: the live statistics, every category present; once
     * they have been written to working storage they are exactly what a new
     * tracker built on that storage would load.
     */
    function GetAllModeStats(): (d: ScoreData)
      requires Valid()
      reads this, storage
      ensures d == scores && Complete(d.categoryStats)
      ensures Persisted() && storage.available ==> Merge(storage.Read(StorageKey)) == d
    {
      MergeSerialized(scores);
      scores
    }

    /** `getCategoryStats`: the per-category records, every category present. */
    function GetCategoryStats(): (m: map<Category, CategoryStats>)
      requires Valid()
      reads this
      ensures Complete(m)
      ensures m == scores.categoryStats
    {
      scores.categoryStats
    }

    /** `resetAllScores`: back to blank, written through. */
    method ResetAllScores()
      requires Valid()
      modifies this`scores, storage`items
      ensures Valid() && Consistent(scores) && (storage.writable ==> Persisted())
      ensures scores == Blank()
      ensures storage.items ==
        if storage.Accepts() then old(storage.items)[StorageKey := Serialize(scores)] else old(storage.items)
    {
      scores := Blank();
      SaveScores();
    }

    /** `formatStreakEmojis`: the greedy goose/eagle/swan/duck/duckling rendering of a streak. */
    method FormatStreakEmojis(streak: nat) returns (s: string)
      ensures s == StreakEmojis(streak)
      ensures streak == 0 ==> s == ""
    {
      if streak == 0 {
        StreakEmojisCounts(streak);
        return "";
      }
      s := RenderGreedy(streak, StreakDenominations);
    }
  }

  /**
   * The loop of `formatStreakEmojis` over a table of denominations: take as
   * many of each as fit, append its emoji that many times, keep the remainder.
   */
  method RenderGreedy(streak: nat, ds: seq<Denomination>) returns (result: string)
    requires Positive(ds)
    ensures result == Render(ds, GreedyCounts(streak, ds))
  {
    result := "";
    var remaining: nat := streak;
    var i := 0;
    assert ds[i..] == ds;
    while i < |ds|
      invariant 0 <= i <= |ds|
      invariant result + Render(ds[i..], GreedyCounts(remaining, ds[i..])) == Render(ds, GreedyCounts(streak, ds))
    {
      var d := ds[i];
      var count := remaining / d.value;
      GreedyLoopStep(result, remaining, ds, i);
      if count > 0 {
        result := result + Repeat(d.emoji, count);
        remaining := remaining - count * d.value;
      }
      i := i + 1;
    }
    assert ds[i..] == [];
  }

  /** Rebuilding the tracker on the same storage restores the statistics it had written. */
  method ReopenRestoresScores(m: ScoreManager) returns (m2: ScoreManager)
    requires m.Valid() && m.Persisted() && m.storage.available
    ensures m2.Valid() && m2.storage == m.storage
    ensures m2.scores == m.scores
  {
    MergeSerialized(m.scores);
    m2 := new ScoreManager(None, m.storage);
  }

  /**
   * A full storage: the attempt is recorded in memory, the write is refused,
   * and a tracker rebuilt on the same storage loads the statistics stored
   * before the attempt.
   */
  method RecordOnFullStorage(m: ScoreManager, pointsEarned: nat, pointsPossible: nat, category: Option<Category>)
    returns (m2: ScoreManager)
    requires m.Valid() && m.storage.available && !m.storage.writable
    modifies m, m.storage
    ensures m.scores == Recorded(old(m.scores), pointsEarned, pointsPossible, category)
    ensures m.storage.items == old(m.storage.items)
    ensures m2.storage == m.storage
    ensures m2.scores == old(Merge(m.storage.Read(StorageKey)))
  {
    m.RecordScore(pointsEarned, pointsPossible, category);
    m2 := new ScoreManager(None, m.storage);
  }
}
