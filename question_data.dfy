/**
 * The question records of the quiz: the closed set of topic categories, the
 * two error kinds, the canonical answer, the single quiz mode, and a sample
 * of the question bank with its well-formedness conditions.
 */
module QuestionData {
  import opened JsText

  /** The twelve topic tags; the score tracker keys its per-category records by the same set. */
  datatype Category =
    | InputOutput | Operators | Variables | Selection | Strings | IterationFor
    | IterationWhile | IterationDoUntil | Switch | Arrays | Subprograms | Files

  /** The tag as the program spells it. */
  function CategoryId(c: Category): string {
    match c
    case InputOutput => "input-output"
    case Operators => "operators"
    case Variables => "variables"
    case Selection => "selection"
    case Strings => "strings"
    case IterationFor => "iteration-for"
    case IterationWhile => "iteration-while"
    case IterationDoUntil => "iteration-do-until"
    case Switch => "switch"
    case Arrays => "arrays"
    case Subprograms => "subprograms"
    case Files => "files"
  }

  /** The categories in the order the program declares them. */
  const AllCategories: seq<Category> := [
    InputOutput, Operators, Variables, Selection, Strings, IterationFor,
    IterationWhile, IterationDoUntil, Switch, Arrays, Subprograms, Files
  ]

  /** Every category is listed once, and distinct categories have distinct tags. */
  lemma CategoriesClosed()
    ensures |AllCategories| == 12
    ensures forall c: Category :: c in AllCategories
    ensures forall i, j :: 0 <= i < j < |AllCategories| ==> AllCategories[i] != AllCategories[j]
    ensures forall a: Category, b: Category :: CategoryId(a) == CategoryId(b) ==> a == b
  {
    forall c: Category ensures c in AllCategories {
      match c
      case InputOutput => assert AllCategories[0] == c;
      case Operators => assert AllCategories[1] == c;
      case Variables => assert AllCategories[2] == c;
      case Selection => assert AllCategories[3] == c;
      case Strings => assert AllCategories[4] == c;
      case IterationFor => assert AllCategories[5] == c;
      case IterationWhile => assert AllCategories[6] == c;
      case IterationDoUntil => assert AllCategories[7] == c;
      case Switch => assert AllCategories[8] == c;
      case Arrays => assert AllCategories[9] == c;
      case Subprograms => assert AllCategories[10] == c;
      case Files => assert AllCategories[11] == c;
    }
  }

  datatype ErrorType = Syntax | Logic

  /** The keyword the learner is asked to type. */
  function Keyword(k: ErrorType): (w: string)
    ensures |w| > 0 && forall i :: 0 <= i < |w| ==> 'a' <= w[i] <= 'z'
  {
    match k
    case Syntax => "syntax"
    case Logic => "logic"
  }

  datatype Answer = Answer(
    lineNumber: int,          // 1-based line of the faulty statement
    errorType: ErrorType,
    corrections: seq<string>, // every accepted phrasing of the fixed line
    explanation: string)

  datatype Question = Question(
    description: string,
    code: seq<string>,
    answer: Answer,
    category: Category)

  /**
   * The conditions every entry of the bank meets: the line number points into
   * the program, and there is at least one accepted correction, none of them blank.
   */
  predicate WellFormed(q: Question) {
    && 1 <= q.answer.lineNumber <= |q.code|
    && |q.answer.corrections| >= 1
    && forall i :: 0 <= i < |q.answer.corrections| ==> NonBlank(q.answer.corrections[i])
  }

  datatype QuizMode = QuizMode(id: string, title: string, description: string, emoji: string)

  const ErrorSpotterMode: string := "Error Spotter"

  /** The mode table: a single mode, filed under its own id. */
  const QuizModes: map<string, QuizMode> := map[
    ErrorSpotterMode := QuizMode(
      ErrorSpotterMode, "Error Spotter",
      "Find and correct syntax and logic errors in OCR ERL code", "\U{1F50D}")
  ]

  lemma QuizModesSingle()
    ensures QuizModes.Keys == {ErrorSpotterMode}
    ensures forall k :: k in QuizModes ==> QuizModes[k].id == k
  {
  }

  // ------------------------------------------------------------- sample bank

  /** Some entries of the question bank, copied field for field. */
  const SampleQuestions: seq<Question> := [
    Question(
      "This program calculates the area of a rectangle by multiplying length and width, then displays the result.",
      ["length = int(input(\"Enter length \"))",
       "width = int(input(\"Enter width \"))",
       "area = length * width",
       "print(\"Area is \" + area"],
      Answer(4, Syntax, ["print(\"Area is \" + area)"],
             "The print statement is missing its closing bracket."),
      InputOutput),
    Question(
      "This program asks the user to input their name and then displays a personalized greeting message.",
      ["name = input(\"Enter your name \")", "print(\"Hello \" + name"],
      Answer(2, Syntax, ["print(\"Hello \" + name)"],
             "The print statement is missing its closing bracket."),
      InputOutput),
    Question(
      "This program calculates the area of a rectangle by multiplying length and width, then displays the result.",
      ["length = float(input(\"Enter length \"))",
       "width = float(input(\"Enter width \"))",
       "area = length + width",
       "print(\"Area is \" + area)"],
      Answer(3, Logic, ["area = length * width", "area = width * length"],
             "The area formula requires multiplication (*), not addition (+)."),
      Operators),
    Question(
      "This program calculates the area of a circle using the formula \U{3C0} \U{D7} r\U{B2}.",
      ["const pi = 3.14",
       "radius = input(\"Enter radius \")",
       "area = pi * radius",
       "print(\"Area is \" + area)"],
      Answer(3, Logic,
             ["area = pi * radius * radius", "area = pi * radius ^ 2", "area = pi * (radius ^ 2)"],
             "The formula for circle area requires radius squared (r\U{B2}), not just radius."),
      Operators),
    Question(
      "This program uses a switch statement to convert a grade letter to a description.",
      ["grade = input(\"Enter your grade \")",
       "switch grade:",
       "    case \"A\":",
       "        print(\"Excellent\")",
       "    case \"B\":",
       "        print(\"Good\")",
       "    case \"C\":",
       "        print(\"Satisfactory\")",
       "endwhile"],
      Answer(9, Syntax, ["endswitch"],
             "Switch statements must end with \"endswitch\", not \"endwhile\"."),
      Switch)
  ]

  lemma SampleQuestionsWellFormed()
    ensures forall i :: 0 <= i < |SampleQuestions| ==> WellFormed(SampleQuestions[i])
  {
    forall i, j | 0 <= i < |SampleQuestions| && 0 <= j < |SampleQuestions[i].answer.corrections|
      ensures NonBlank(SampleQuestions[i].answer.corrections[j])
    {
      assert !IsSpace(SampleQuestions[i].answer.corrections[j][0]);
    }
  }

  /** Line 4 of a 4-line program and line 9 of a 9-line program; some entries accept several corrections. */
  lemma SampleQuestionsShapes()
    ensures SampleQuestions[0].answer.lineNumber == |SampleQuestions[0].code| == 4
    ensures SampleQuestions[4].answer.lineNumber == |SampleQuestions[4].code| == 9
    ensures |SampleQuestions[2].answer.corrections| == 2
    ensures |SampleQuestions[3].answer.corrections| == 3
  {
  }
}
