/**
 * One quiz round of the error-spotter screen: the category table with its
 * difficulty levels, the pool a question is drawn from, the category filter,
 * the feedback colour, and the round itself (answering, feedback, next
 * question) with the single score report each submission sends.
 */
module Quiz {
  import opened Wrappers
  import opened QuestionData
  import opened ScoreModel
  import opened Grader

  /** One row of the category table: a tag, its title, its level and its multiplier in quarters. */
  datatype CategoryInfo = CategoryInfo(id: Category, title: string, level: int, multiplierQuarters: nat)

  /** The category table, in the order the checkboxes are shown. */
  const Categories: seq<CategoryInfo> := [
    CategoryInfo(InputOutput, "Input/Output", 1, 4),
    CategoryInfo(Operators, "Operators", 1, 4),
    CategoryInfo(Variables, "Variables", 1, 4),
    CategoryInfo(Selection, "Selection (If/Else)", 2, 5),
    CategoryInfo(Strings, "String methods", 2, 5),
    CategoryInfo(IterationFor, "Iteration (For)", 2, 5),
    CategoryInfo(IterationWhile, "Iteration (While)", 2, 5),
    CategoryInfo(IterationDoUntil, "Iteration (Do-Until)", 3, 6),
    CategoryInfo(Switch, "Selection (Switch)", 3, 6),
    CategoryInfo(Arrays, "Arrays", 4, 7),
    CategoryInfo(Subprograms, "Functions & Procedures", 4, 7),
    CategoryInfo(Files, "File Operations", 4, 7)
  ]

  /** `Array.prototype.find` by tag: the first row with that tag, if any. */
  function FindCategory(table: seq<CategoryInfo>, id: Category): (r: Option<CategoryInfo>)
    ensures r.None? <==> forall i :: 0 <= i < |table| ==> table[i].id != id
    ensures r.Some? ==> exists i :: 0 <= i < |table| && table[i] == r.value &&
                          r.value.id == id && forall j :: 0 <= j < i ==> table[j].id != id
  {
    if table == [] then None
    else if table[0].id == id then Some(table[0])
    else
      var r := FindCategory(table[1..], id);
      assert forall i :: 1 <= i < |table| ==> table[i] == table[1..][i - 1];
      if r.Some? then
        var k :| 0 <= k < |table[1..]| && table[1..][k] == r.value && r.value.id == id &&
                 forall j :: 0 <= j < k ==> table[1..][j].id != id;
        assert table[k + 1] == r.value;
        r
      else r
  }

  /** `categoryInfo?.level || 1`: the level of the question's category, 1 when missing or 0. */
  function DifficultyLevel(id: Category): int {
    var info := FindCategory(Categories, id);
    if info.Some? && info.value.level != 0 then info.value.level else 1
  }

  /** The level each category is graded at. */
  function TableLevel(id: Category): int {
    match id
    case InputOutput | Operators | Variables => 1
    case Selection | Strings | IterationFor | IterationWhile => 2
    case IterationDoUntil | Switch => 3
    case Arrays | Subprograms | Files => 4
  }

  /**
   * Every category has a row, so the fallback never applies: the level is the
   * table's, between 1 and 4, and the row's multiplier is the one points are
   * computed with at that level.
   */
  lemma DifficultyLevelOfTable(id: Category)
    ensures DifficultyLevel(id) == TableLevel(id)
    ensures 1 <= DifficultyLevel(id) <= 4
    ensures FindCategory(Categories, id).Some?
    ensures FindCategory(Categories, id).value.multiplierQuarters == MultiplierQuarters(DifficultyLevel(id))
  {
    CategoriesTable();
    CategoriesClosed();
    var i := TableRow(id);
    FindUnique(Categories, id, i);
  }

  /** The row of a category in the table. */
  function TableRow(id: Category): (i: nat)
    ensures i < |Categories| && Categories[i].id == id
  {
    match id
    case InputOutput => 0
    case Operators => 1
    case Variables => 2
    case Selection => 3
    case Strings => 4
    case IterationFor => 5
    case IterationWhile => 6
    case IterationDoUntil => 7
    case Switch => 8
    case Arrays => 9
    case Subprograms => 10
    case Files => 11
  }

  /** In a table whose tags are distinct, the lookup finds the one row with the tag. */
  lemma FindUnique(table: seq<CategoryInfo>, id: Category, i: nat)
    requires i < |table| && table[i].id == id
    requires forall a, b :: 0 <= a < b < |table| ==> table[a].id != table[b].id
    ensures FindCategory(table, id) == Some(table[i])
  {
    var r := FindCategory(table, id);
    var k :| 0 <= k < |table| && table[k] == r.value &&
             r.value.id == id && forall j :: 0 <= j < k ==> table[j].id != id;
  }

  /**
   * The tags of the table are the twelve categories in declaration order, and
   * each row's level is the one the category is graded at, with the multiplier
   * of that level.
   */
  lemma CategoriesTable()
    ensures |Categories| == |AllCategories|
    ensures forall i :: 0 <= i < |Categories| ==> Categories[i].id == AllCategories[i]
    ensures forall i :: 0 <= i < |Categories| ==> Categories[i].level == TableLevel(Categories[i].id)
    ensures forall i :: 0 <= i < |Categories| ==>
      Categories[i].multiplierQuarters == MultiplierQuarters(Categories[i].level)
  {
  }

  // ------------------------------------------------------------------ the pool

  /** The questions whose category is selected, in their original order. */
  function Filter(questions: seq<Question>, selected: set<Category>): (r: seq<Question>)
    ensures |r| <= |questions|
    ensures forall q :: q in r <==> q in questions && q.category in selected
  {
    if questions == [] then []
    else
      var rest := Filter(questions[1..], selected);
      assert forall q :: q in questions <==> q == questions[0] || q in questions[1..];
      if questions[0].category in selected then [questions[0]] + rest else rest
  }

  /** The pool a question is drawn from: the filtered questions, or all of them when none match. */
  function Pool(questions: seq<Question>, selected: set<Category>): (r: seq<Question>)
    ensures |questions| > 0 ==> |r| > 0
    ensures forall q :: q in r ==> q in questions
  {
    var filtered := Filter(questions, selected);
    if |filtered| > 0 then filtered else questions
  }

  /**
   * When any question matches the selection the pool is exactly the matching
   * ones; when none does it is the whole bank.
   */
  lemma PoolShape(questions: seq<Question>, selected: set<Category>)
    ensures (exists q :: q in questions && q.category in selected) ==>
      forall q :: q in Pool(questions, selected) <==> q in questions && q.category in selected
    ensures (forall q :: q in questions ==> q.category !in selected) ==> Pool(questions, selected) == questions
  {
    var filtered := Filter(questions, selected);
    if exists q :: q in questions && q.category in selected {
      var q :| q in questions && q.category in selected;
      assert q in filtered;
    } else {
      HeadIsMember(filtered);
    }
  }

  lemma HeadIsMember(s: seq<Question>)
    ensures |s| > 0 ==> s[0] in s
  {
  }

  /** With every category selected (the initial state) the pool is the whole bank. */
  lemma {:induction false} FilterAll(questions: seq<Question>)
    ensures Filter(questions, AllSelected()) == questions
  {
    if questions != [] {
      CategoriesClosed();
      FilterAll(questions[1..]);
      assert questions == [questions[0]] + questions[1..];
    }
  }

  /** The selection the screen starts with: every category. */
  function AllSelected(): (s: set<Category>)
    ensures forall c: Category :: c in s
  {
    CategoriesClosed();
    set c | c in AllCategories
  }

  /** `toggleCategory`'s update: drop the tag if present, add it otherwise. */
  function Toggled(selected: set<Category>, id: Category): (r: set<Category>)
    ensures id in r <==> id !in selected
    ensures forall c :: c != id ==> (c in r <==> c in selected)
  {
    if id in selected then selected - {id} else selected + {id}
  }

  /** Toggling the same tag twice gives back the selection. */
  lemma ToggledTwice(selected: set<Category>, id: Category)
    ensures Toggled(Toggled(selected, id), id) == selected
  {
  }

  // ------------------------------------------------------------------ feedback

  datatype FeedbackColor = Green | Yellow | Red

  /** `getFeedbackColor`: green for full marks, yellow for one or two parts, red otherwise. */
  function FeedbackColorOf(score: int): FeedbackColor {
    if score == 3 then Green else if score >= 1 then Yellow else Red
  }

  /** The colour tells how many parts of a graded answer were right. */
  lemma FeedbackColorOfVerdict(v: Verdict)
    ensures FeedbackColorOf(v.Score()) == Green <==> v.line && v.errorType && v.correction
    ensures FeedbackColorOf(v.Score()) == Red <==> !v.line && !v.errorType && !v.correction
    ensures FeedbackColorOf(v.Score()) == Yellow <==> 1 <= v.Score() <= 2
  {
  }

  // ------------------------------------------------------------------ the round

  /** One call of `onScoreUpdate`: the points of a submission and the question's category. */
  datatype ScoreReport = ScoreReport(earned: nat, possible: nat, category: Category)

  /** The report a graded submission sends: points for its score at its category's level. */
  function ReportFor(q: Question, score: nat): ScoreReport {
    var p := CalculatePoints(score, DifficultyLevel(q.category));
    ScoreReport(p.earned, p.possible, q.category)
  }

  /** A report never credits more than the question is worth, and full marks earn all of it. */
  lemma ReportBounds(q: Question, v: Verdict)
    ensures ReportFor(q, v.Score()).earned <= ReportFor(q, v.Score()).possible
    ensures ReportFor(q, v.Score()).earned == ReportFor(q, v.Score()).possible <==>
      v.line && v.errorType && v.correction
    ensures ReportFor(q, v.Score()).possible == 3 + TableLevel(q.category) - 1
  {
    DifficultyLevelOfTable(q.category);
    PointsBounds(v.Score(), DifficultyLevel(q.category));
    PointsTable();
  }

  /** The state of the quiz screen: the question shown, the three inputs, the feedback and the selection. */
  class QuizRound {
    const questions: seq<Question>
    var current: Option<Question>
    var lineNumber: string
    var errorType: string
    var correction: string
    var showFeedback: bool
    var feedback: seq<FeedbackItem>
    var score: nat
    var selected: set<Category>
    /** Every call of `onScoreUpdate`, oldest first. */
    var reports: seq<ScoreReport>

    /** A question from the bank is on screen and the score is one of 0..3. */
    ghost predicate Valid()
      reads this
    {
      |questions| > 0 && current.Some? && current.value in questions && score <= 3
    }

    /** The inputs are all filled in, which the Submit button and the Enter key require. */
    predicate Filled()
      reads this
    {
      |lineNumber| > 0 && |errorType| > 0 && |correction| > 0
    }

    /**
     * The state right after `checkAnswer`, given the reports sent before it:
     * the score and the feedback are the grade of the inputs on screen, the
     * feedback is shown, and exactly one report for that score was sent.
     */
    ghost predicate Submitted(before: seq<ScoreReport>)
      reads this
    {
      current.Some? && showFeedback &&
      score == Grade(current.value.answer, lineNumber, errorType, correction).Score() &&
      feedback == GradedFeedback(current.value.answer, lineNumber, errorType, correction) &&
      reports == before + [ReportFor(current.value, score)]
    }

    /** The screen opens with every category selected and a first question drawn from the whole bank. */
    constructor(questions: seq<Question>, choice: nat)
      requires choice < |questions|
      ensures Valid() && this.questions == questions && selected == AllSelected()
      ensures current == Some(questions[choice]) && !showFeedback && reports == []
      ensures lineNumber == "" && errorType == "" && correction == ""
      ensures feedback == [] && score == 0
    {
      this.questions := questions;
      selected := AllSelected();
      reports := [];
      new;
      FilterAll(questions);
      GenerateQuestion(choice);
    }

    /**
     * `generateQuestion`: draw the question at `choice` from the pool (the
     * random index is a parameter) and clear the inputs, the feedback and the score.
     */
    method GenerateQuestion(choice: nat)
      requires |questions| > 0 && choice < |Pool(questions, selected)|
      modifies this`current, this`lineNumber, this`errorType, this`correction,
               this`showFeedback, this`feedback, this`score
      ensures Valid() && current == Some(Pool(questions, selected)[choice])
      ensures lineNumber == "" && errorType == "" && correction == ""
      ensures !showFeedback && feedback == [] && score == 0
    {
      PoolShape(questions, selected);
      var pool := Pool(questions, selected);
      current := Some(pool[choice]);
      lineNumber := "";
      errorType := "";
      correction := "";
      showFeedback := false;
      feedback := [];
      score := 0;
    }

    /**
     * `toggleCategory`: flip one tag of the selection; the new selection
     * changes `generateQuestion`, whose effect then draws a new question.
     */
    method ToggleCategory(id: Category, choice: nat)
      requires |questions| > 0 && choice < |Pool(questions, Toggled(selected, id))|
      modifies this`selected, this`current, this`lineNumber, this`errorType, this`correction,
               this`showFeedback, this`feedback, this`score
      ensures selected == Toggled(old(selected), id)
      ensures Valid() && current == Some(Pool(questions, selected)[choice])
      ensures lineNumber == "" && errorType == "" && correction == ""
      ensures !showFeedback && feedback == [] && score == 0 && reports == old(reports)
    {
      selected := Toggled(selected, id);
      GenerateQuestion(choice);
    }

    /** Typing into the line-number input; the input is disabled while feedback is shown. */
    method SetLineNumber(value: string)
      modifies this`lineNumber
      ensures lineNumber == if old(showFeedback) then old(lineNumber) else value
    {
      if !showFeedback {
        lineNumber := value;
      }
    }

    /** Typing into the error-type input; disabled while feedback is shown. */
    method SetErrorType(value: string)
      modifies this`errorType
      ensures errorType == if old(showFeedback) then old(errorType) else value
    {
      if !showFeedback {
        errorType := value;
      }
    }

    /** Typing into the correction input; disabled while feedback is shown. */
    method SetCorrection(value: string)
      modifies this`correction
      ensures correction == if old(showFeedback) then old(correction) else value
    {
      if !showFeedback {
        correction := value;
      }
    }

    /**
     * `checkAnswer`: grade the three inputs against the current question,
     * show the feedback, and report the points once.
     */
    method CheckAnswer()
      requires Valid()
      modifies this`score, this`feedback, this`showFeedback, this`reports
      ensures Valid() && showFeedback
      ensures score == old(Grade(current.value.answer, lineNumber, errorType, correction).Score())
      ensures feedback == old(GradedFeedback(current.value.answer, lineNumber, errorType, correction))
      ensures reports == old(reports + [ReportFor(current.value, Grade(current.value.answer, lineNumber, errorType, correction).Score())])
    {
      var q := current.value;
      ghost var verdict := Grade(q.answer, lineNumber, errorType, correction);
      var currentScore, items := Grader.CheckAnswer(q.answer, lineNumber, errorType, correction);
      assert currentScore == verdict.Score() <= 3;
      score := currentScore;
      feedback := items;
      showFeedback := true;
      reports := reports + [ReportFor(q, currentScore)];
    }

    /**
     * `handleKeyPress` for Enter: with feedback shown it starts the next
     * round; otherwise it submits only when all three inputs are filled in.
     */
    method PressEnter(choice: nat)
      requires Valid() && (showFeedback ==> choice < |Pool(questions, selected)|)
      modifies this`current, this`lineNumber, this`errorType, this`correction,
               this`showFeedback, this`feedback, this`score, this`reports
      ensures Valid()
      ensures old(showFeedback) ==>
        current == Some(Pool(questions, selected)[choice]) &&
        lineNumber == "" && errorType == "" && correction == "" &&
        !showFeedback && feedback == [] && score == 0 && reports == old(reports)
      ensures !old(showFeedback) && old(Filled()) ==> Submitted(old(reports))
      ensures !old(showFeedback) ==>
        current == old(current) && lineNumber == old(lineNumber) &&
        errorType == old(errorType) && correction == old(correction)
      ensures !old(showFeedback) && !old(Filled()) ==> unchanged(this)
    {
      if showFeedback {
        GenerateQuestion(choice);
      } else if Filled() {
        CheckAnswer();
      }
    }

    /** The Submit button: shown only without feedback, enabled only when all inputs are filled in. */
    method ClickSubmit()
      requires Valid()
      modifies this`score, this`feedback, this`showFeedback, this`reports
      ensures Valid()
      ensures !old(showFeedback) && old(Filled()) ==> Submitted(old(reports))
      ensures old(showFeedback) || !old(Filled()) ==> unchanged(this)
    {
      if !showFeedback && Filled() {
        CheckAnswer();
      }
    }

    /** The Next Question button, shown in place of Submit while feedback is shown. */
    method ClickNext(choice: nat)
      requires Valid() && (showFeedback ==> choice < |Pool(questions, selected)|)
      modifies this`current, this`lineNumber, this`errorType, this`correction,
               this`showFeedback, this`feedback, this`score
      ensures Valid() && reports == old(reports)
      ensures old(showFeedback) ==>
        current == Some(Pool(questions, selected)[choice]) &&
        lineNumber == "" && errorType == "" && correction == "" &&
        !showFeedback && feedback == [] && score == 0
      ensures !old(showFeedback) ==> unchanged(this)
    {
      if showFeedback {
        GenerateQuestion(choice);
      }
    }
  }

  /**
   * A question is reported at most once: after a submission, neither Enter
   * nor Submit reports again until the next question is drawn.
   */
  method SubmitTwiceReportsOnce(round: QuizRound, choice: nat)
    requires round.Valid() && !round.showFeedback && round.Filled()
    requires choice < |Pool(round.questions, round.selected)|
    modifies round
    ensures |round.reports| == |old(round.reports)| + 1
  {
    round.ClickSubmit();
    ResubmitReportsNothing(round, choice);
  }

  /** With feedback shown, Submit and then Enter send no report. */
  method ResubmitReportsNothing(round: QuizRound, choice: nat)
    requires round.Valid() && round.showFeedback
    requires choice < |Pool(round.questions, round.selected)|
    modifies round
    ensures round.reports == old(round.reports)
  {
    round.ClickSubmit();
    round.PressEnter(choice);
  }
}
