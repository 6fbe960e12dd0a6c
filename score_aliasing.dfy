/**
 * The category records as the program holds them in memory: each record is an
 * object, the blank baseline is a table of such objects, and the load merge
 * `{ ...blankCategoryStats, ...stored }` copies references rather than
 * records. This module keeps that behaviour as written; the rest of the model
 * works on values.
 */
module ScoreAliasing {
  import opened QuestionData
  import opened ScoreModel

  /** A category record as a mutable object. */
  class CategoryRecord {
    var attempts: nat
    var correct: nat
    var points: nat

    constructor ()
      ensures attempts == 0 && correct == 0 && points == 0
    {
      attempts := 0;
      correct := 0;
      points := 0;
    }

    /** The record's current value, as `JSON.stringify` would write it. */
    function Value(): CategoryStats
      reads this
    {
      CategoryStats(attempts, correct, points)
    }
  }

  /**
   * `{ ...blankCategoryStats, ...stored }`: the stored references laid over
   * the blank ones, so a category the stored data lacks gets the blank
   * object itself.
   */
  function SpreadMerge(blank: map<Category, CategoryRecord>, stored: map<Category, CategoryRecord>)
    : (live: map<Category, CategoryRecord>)
    ensures live.Keys == blank.Keys + stored.Keys
    ensures forall c :: c in stored ==> live[c] == stored[c]
    ensures forall c :: c in blank && c !in stored ==> live[c] == blank[c]
  {
    blank + stored
  }

  /** The category part of `recordScore`, updating the live record in place. */
  method RecordCategory(live: map<Category, CategoryRecord>, c: Category, pointsEarned: nat, full: bool)
    requires c in live
    modifies live[c]
    ensures live[c].attempts == old(live[c].attempts) + 1
    ensures live[c].points == old(live[c].points) + pointsEarned
    ensures live[c].correct == if full then old(live[c].correct) + 1 else old(live[c].correct)
  {
    var record := live[c];
    record.attempts := record.attempts + 1;
    record.points := record.points + pointsEarned;
    if full {
      record.correct := record.correct + 1;
    }
  }

  /** `JSON.parse(JSON.stringify(...))` of a table of records: their values at this moment. */
  function Snapshot(table: map<Category, CategoryRecord>): (m: map<Category, CategoryStats>)
    reads set c | c in table :: table[c]
    ensures m.Keys == table.Keys
    ensures forall c :: c in table ==> m[c] == table[c].Value()
  {
    map c | c in table :: table[c].Value()
  }

  /**
   * As written: load data whose category map lacks `operators`, record one
   * full score in that category, then reset. The reset copies the blank
   * table, whose `operators` record the first attempt has changed, so the
   * reset statistics start that category at one attempt instead of zero.
   */
  method SharedBlankAfterReset() returns (reset: map<Category, CategoryStats>)
    ensures Operators in reset && reset[Operators] == CategoryStats(1, 1, 3)
    ensures reset[Operators] != BlankCategory
  {
    var blankOperators := new CategoryRecord();
    var blankVariables := new CategoryRecord();
    var blank := map[Operators := blankOperators, Variables := blankVariables];
    var storedVariables := new CategoryRecord();
    var live := SpreadMerge(blank, map[Variables := storedVariables]);
    RecordCategory(live, Operators, 3, true);
    reset := Snapshot(blank);
  }
}
