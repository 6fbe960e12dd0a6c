/**
 * Grading one submission (the body of `checkAnswer`): the line number is read
 * with `parseInt`, the error type and the correction are normalised and
 * compared, and the score is the number of parts that are right.
 */
module Grader {
  import opened Wrappers
  import opened JsText
  import opened QuestionData

  /** Error-type normalisation: lower-case, trim, collapse white-space runs. */
  function NormalizeErrorType(s: string): string {
    CollapseSpaces(Trim(Lower(s)))
  }

  /** Correction normalisation: collapse white-space runs, trim, single quotes to double. */
  function NormalizeCorrection(s: string): string {
    ReplaceQuotes(Trim(CollapseSpaces(s)))
  }

  /** A normalised error type has no upper case and no stray white space. */
  lemma NormalizeErrorTypeShape(s: string)
    ensures var r := NormalizeErrorType(s); Trimmed(r) && Collapsed(r) && NoUpper(r)
  {
    var l := Lower(s);
    var t := Trim(l);
    SliceKeepsNoUpper(l, LeadingSpaces(l), TrimHi(l));
    CollapseIsCollapsed(t);
    CollapseKeepsTrimmed(t);
    CollapseKeepsNoUpper(t);
  }

  /** A normalised correction has no single quote and no stray white space. */
  lemma NormalizeCorrectionShape(s: string)
    ensures var r := NormalizeCorrection(s); Trimmed(r) && Collapsed(r) && '\'' !in r
  {
    var t := Trim(CollapseSpaces(s));
    CollapseIsCollapsed(s);
    TrimKeepsCollapsed(CollapseSpaces(s));
    ReplaceQuotesKeepsShape(t);
  }

  /** A lower-case, trimmed, collapsed string is its own normal form. */
  lemma NormalizeErrorTypeFixed(s: string)
    requires Trimmed(s) && Collapsed(s) && NoUpper(s)
    ensures NormalizeErrorType(s) == s
  {
    LowerOfNoUpper(s);
    TrimOfTrimmed(s);
    CollapseOfCollapsed(s);
  }

  lemma NormalizeErrorTypeIdempotent(s: string)
    ensures NormalizeErrorType(NormalizeErrorType(s)) == NormalizeErrorType(s)
  {
    NormalizeErrorTypeShape(s);
    NormalizeErrorTypeFixed(NormalizeErrorType(s));
  }

  /** A trimmed, collapsed string without single quotes is its own normal form. */
  lemma NormalizeCorrectionFixed(s: string)
    requires Trimmed(s) && Collapsed(s) && '\'' !in s
    ensures NormalizeCorrection(s) == s
  {
    CollapseOfCollapsed(s);
    TrimOfTrimmed(s);
    ReplaceQuotesOfQuoteless(s);
  }

  lemma NormalizeCorrectionIdempotent(s: string)
    ensures NormalizeCorrection(NormalizeCorrection(s)) == NormalizeCorrection(s)
  {
    NormalizeCorrectionShape(s);
    NormalizeCorrectionFixed(NormalizeCorrection(s));
  }

  // ------------------------------------------------------------- the parts

  predicate LineCorrect(input: string, answer: Answer) {
    ParseInt(input) == Some(answer.lineNumber)
  }

  predicate ErrorTypeCorrect(input: string, kind: ErrorType) {
    var n := NormalizeErrorType(input);
    n == Keyword(kind) || n == Keyword(kind) + " error"
  }

  predicate CorrectionCorrect(input: string, corrections: seq<string>) {
    exists i :: 0 <= i < |corrections| && NormalizeCorrection(input) == NormalizeCorrection(corrections[i])
  }

  datatype Verdict = Verdict(line: bool, errorType: bool, correction: bool) {
    /** The number of parts that are right. */
    function Score(): (n: nat)
      ensures n <= 3
      ensures n == 3 <==> line && errorType && correction
      ensures n == 0 <==> !line && !errorType && !correction
    {
      (if line then 1 else 0) + (if errorType then 1 else 0) + (if correction then 1 else 0)
    }
  }

  /** The verdict on each of the three parts of a submission. */
  function Grade(answer: Answer, lineInput: string, typeInput: string, correctionInput: string): Verdict {
    Verdict(
      LineCorrect(lineInput, answer),
      ErrorTypeCorrect(typeInput, answer.errorType),
      CorrectionCorrect(correctionInput, answer.corrections))
  }

  // ------------------------------------------------------------- properties

  /** A number that does not parse matches no line. */
  lemma LineNaNNeverMatches(input: string, answer: Answer)
    requires ParseInt(input) == None
    ensures !LineCorrect(input, answer)
  {
  }

  /** Surrounding white space does not matter to the error type. */
  lemma ErrorTypePaddedKeyword(pre: string, post: string, kind: ErrorType)
    requires AllSpace(pre) && AllSpace(post)
    ensures ErrorTypeCorrect(pre + Keyword(kind) + post, kind)
  {
    var w := Keyword(kind);
    assert Trimmed(w) && Collapsed(w);
    NormalizePadded(pre, w, post);
  }

  /** A normalised word with white space around it normalises to the word. */
  lemma NormalizePadded(pre: string, w: string, post: string)
    requires w != [] && NoUpper(w) && Trimmed(w) && Collapsed(w)
    requires AllSpace(pre) && AllSpace(post)
    ensures NormalizeErrorType(pre + w + post) == w
  {
    var l := Lower(pre + w + post);
    assert l == Lower(pre) + w + Lower(post) by {
      LowerAppend(pre + w, post);
      LowerAppend(pre, w);
      LowerOfNoUpper(w);
    }
    assert Trim(l) == w by { TrimPadded(Lower(pre), w, Lower(post)); }
    assert CollapseSpaces(w) == w by { CollapseOfCollapsed(w); }
  }

  /** The error type is read case-insensitively. */
  lemma ErrorTypeCaseInsensitive(s: string, kind: ErrorType)
    ensures ErrorTypeCorrect(s, kind) == ErrorTypeCorrect(Lower(s), kind)
  {
    LowerOfNoUpper(Lower(s));
  }

  /** An accepted error type is never blank, so an empty field always loses the mark. */
  lemma ErrorTypeNeedsText(s: string, kind: ErrorType)
    requires ErrorTypeCorrect(s, kind)
    ensures NonBlank(s)
  {
    var l := Lower(s);
    TrimEmpty(l);
  }

  /** No answer is accepted for both kinds. */
  lemma ErrorTypeKindsExclusive(s: string)
    ensures !(ErrorTypeCorrect(s, Syntax) && ErrorTypeCorrect(s, Logic))
  {
    var n := NormalizeErrorType(s);
    if ErrorTypeCorrect(s, Syntax) {
      assert n[0] == 's';
    }
  }

  /** Upper case is accepted: "SYNTAX" names a syntax error. */
  lemma ErrorTypeUpperExample(s: string)
    requires s == "SYNTAX"
    ensures ErrorTypeCorrect(s, Syntax)
  {
    ErrorTypeCaseInsensitive(s, Syntax);
    LowerOfUpperKeyword(s);
    KeywordIsNormal(Syntax);
  }

  lemma LowerOfUpperKeyword(s: string)
    requires s == "SYNTAX"
    ensures Lower(s) == Keyword(Syntax)
  {
  }

  /** Padding is accepted: " syntax " names a syntax error. */
  lemma ErrorTypePaddedExample(s: string)
    requires s == " syntax "
    ensures ErrorTypeCorrect(s, Syntax)
  {
    assert s == " " + Keyword(Syntax) + " ";
    ErrorTypePaddedKeyword(" ", " ", Syntax);
  }

  /** The long form is accepted: the keyword, any white-space run, then "error". */
  lemma ErrorTypeLongForm(run: string, kind: ErrorType)
    requires run != [] && AllSpace(run)
    ensures ErrorTypeCorrect(Keyword(kind) + run + "error", kind)
  {
    var w := Keyword(kind);
    assert Trimmed(w) && Collapsed(w);
    ErrorWord();
    NormalizeJoin(w, run, "error");
  }

  lemma ErrorWord()
    ensures "error" != [] && Trimmed("error") && Collapsed("error") && NoUpper("error")
    ensures " " + "error" == " error"
  {
  }

  /** Two normalised words joined by any white-space run normalise to the words joined by one space. */
  lemma NormalizeJoin(w: string, run: string, e: string)
    requires w != [] && NoUpper(w) && Trimmed(w) && Collapsed(w)
    requires e != [] && NoUpper(e) && Trimmed(e) && Collapsed(e)
    requires run != [] && AllSpace(run)
    ensures NormalizeErrorType(w + run + e) == w + (" " + e)
  {
    var lr := Lower(run);
    var l := w + (lr + e);
    assert Lower(w + run + e) == l && Trimmed(l) by { LowerJoin(w, run, e); }
    assert Trim(l) == l by { TrimOfTrimmed(l); }
    assert CollapseSpaces(l) == w + (" " + e) by { CollapseJoin(w, lr, e); }
  }

  /** Lower-casing two lower-case words joined by white space. */
  lemma LowerJoin(w: string, run: string, e: string)
    requires w != [] && NoUpper(w) && !IsSpace(w[0])
    requires e != [] && NoUpper(e) && !IsSpace(e[|e| - 1])
    ensures Lower(w + run + e) == w + (Lower(run) + e)
    ensures Trimmed(w + (Lower(run) + e))
  {
    LowerAppend(w + run, e);
    LowerAppend(w, run);
    LowerOfNoUpper(w);
    LowerOfNoUpper(e);
    var l := w + (Lower(run) + e);
    assert l[0] == w[0] && l[|l| - 1] == e[|e| - 1];
  }

  /** Collapsing two collapsed words joined by a white-space run. */
  lemma CollapseJoin(w: string, run: string, e: string)
    requires w != [] && Collapsed(w) && !IsSpace(w[|w| - 1])
    requires run != [] && AllSpace(run)
    requires e != [] && Collapsed(e) && !IsSpace(e[0])
    ensures CollapseSpaces(w + (run + e)) == w + (" " + e)
  {
    CollapsePrefix(w, run + e);
    CollapseRun(run, e);
    CollapseOfCollapsed(e);
  }

  /** The other kind is refused: "logic" does not name a syntax error. */
  lemma ErrorTypeWrongKindExample()
    ensures !ErrorTypeCorrect("logic", Syntax)
  {
    NormalizeErrorTypeFixed("logic");
  }

  /** Correction matching does not change when the learner's text is normalised first. */
  lemma CorrectionNormalizedInput(s: string, corrections: seq<string>)
    ensures CorrectionCorrect(NormalizeCorrection(s), corrections) == CorrectionCorrect(s, corrections)
  {
    NormalizeCorrectionIdempotent(s);
  }

  /** A non-blank correction does not normalise to the empty string. */
  lemma NormalizeCorrectionNonBlank(s: string)
    requires NonBlank(s)
    ensures NormalizeCorrection(s) != []
  {
    var c := CollapseSpaces(s);
    CollapseNonBlank(s);
    TrimEmpty(c);
  }

  lemma {:induction false} CollapseNonBlank(s: string)
    requires NonBlank(s)
    ensures NonBlank(CollapseSpaces(s))
    decreases |s|
  {
    if IsSpace(s[0]) {
      var k := LeadingSpaces(s);
      var i :| 0 <= i < |s| && !IsSpace(s[i]);
      assert k <= i;
      assert !IsSpace(s[k..][i - k]);
      CollapseNonBlank(s[k..]);
      var r := CollapseSpaces(s[k..]);
      var j :| 0 <= j < |r| && !IsSpace(r[j]);
      assert CollapseSpaces(s)[j + 1] == r[j];
    } else {
      assert !IsSpace(CollapseSpaces(s)[0]);
    }
  }

  /** Single and double quotes are interchangeable in a correction. */
  lemma CorrectionQuotesIgnored(s: string, corrections: seq<string>)
    ensures NormalizeCorrection(ReplaceQuotes(s)) == NormalizeCorrection(s)
    ensures CorrectionCorrect(ReplaceQuotes(s), corrections) == CorrectionCorrect(s, corrections)
  {
    var c := CollapseSpaces(s);
    ReplaceQuotesCommutesCollapse(s);
    ReplaceQuotesCommutesTrim(c);
    ReplaceQuotesOfQuoteless(ReplaceQuotes(Trim(c)));
  }

  /** The width of a white-space run does not matter in a correction. */
  lemma CorrectionSpacingIgnored(s: string, corrections: seq<string>)
    ensures NormalizeCorrection(CollapseSpaces(s)) == NormalizeCorrection(s)
    ensures CorrectionCorrect(CollapseSpaces(s), corrections) == CorrectionCorrect(s, corrections)
  {
    CollapseIsCollapsed(s);
    CollapseOfCollapsed(CollapseSpaces(s));
  }

  /** Letter case does matter in a correction: `Print` is refused where `print` is expected. */
  lemma CorrectionCaseExample(s: string, canon: string)
    requires s == "P" && canon == "p"
    ensures !CorrectionCorrect(s, [canon])
  {
    NormalizeCorrectionFixed(canon);
    NormalizeCorrectionFixed(s);
  }

  /** The canonical submission (the line as a decimal, the keyword, the first correction) scores 3. */
  lemma CanonicalScoresThree(q: Question)
    requires WellFormed(q)
    ensures Grade(q.answer, DecimalString(q.answer.lineNumber), Keyword(q.answer.errorType),
                  q.answer.corrections[0]).Score() == 3
  {
    var a := q.answer;
    assert LineCorrect(DecimalString(a.lineNumber), a) by { ParseIntOfDecimal(a.lineNumber); }
    assert ErrorTypeCorrect(Keyword(a.errorType), a.errorType) by { KeywordIsNormal(a.errorType); }
    assert CorrectionCorrect(a.corrections[0], a.corrections);
  }

  /** Each keyword is its own normal form. */
  lemma KeywordIsNormal(kind: ErrorType)
    ensures NormalizeErrorType(Keyword(kind)) == Keyword(kind)
  {
    var w := Keyword(kind);
    assert Trimmed(w) && Collapsed(w);
    NormalizeErrorTypeFixed(w);
  }

  /** With every field left empty nothing is right. */
  lemma EmptyScoresZero(q: Question)
    requires WellFormed(q)
    ensures Grade(q.answer, "", "", "").Score() == 0
  {
    ParseIntOfBlank("");
    if ErrorTypeCorrect("", q.answer.errorType) {
      ErrorTypeNeedsText("", q.answer.errorType);
    }
    if CorrectionCorrect("", q.answer.corrections) {
      var i :| 0 <= i < |q.answer.corrections| &&
               NormalizeCorrection("") == NormalizeCorrection(q.answer.corrections[i]);
      NormalizeCorrectionNonBlank(q.answer.corrections[i]);
    }
  }

  // ------------------------------------------------------------- checkAnswer

  /** One line of feedback per part, in the order the program shows them. */
  datatype FeedbackItem =
      /** `givenLine` is shown only for a number other than 0 (`NaN` and 0 are falsy). */
    | LineFeedback(correct: bool, expectedLine: int, givenLine: Option<int>)
      /** `givenType` is `None` for the "please enter an error type" prompt. */
    | TypeFeedback(correct: bool, expectedType: ErrorType, givenType: Option<string>)
      /** An incorrect correction shows the first accepted correction. */
    | CorrectionFeedback(correct: bool, example: Option<string>, explanation: string)

  /** What a wrong error type is shown as: the normalised input, or "different type of" when that is empty. */
  function ShownType(typeInput: string): string {
    var n := NormalizeErrorType(typeInput);
    if n == "" then "different type of" else n
  }

  /** The line item: the verdict, the expected line, and the parsed input unless it is right, `NaN` or 0. */
  function LineItem(answer: Answer, lineInput: string): FeedbackItem {
    var ok := LineCorrect(lineInput, answer);
    LineFeedback(ok, answer.lineNumber, if ok || ParseInt(lineInput) == Some(0) then None else ParseInt(lineInput))
  }

  /** The type item: the verdict, the expected kind, and what was typed unless it is right or empty. */
  function TypeItem(answer: Answer, typeInput: string): FeedbackItem {
    var ok := ErrorTypeCorrect(typeInput, answer.errorType);
    TypeFeedback(ok, answer.errorType, if ok || |typeInput| == 0 then None else Some(ShownType(typeInput)))
  }

  /** The correction item: the verdict, the first accepted correction on a miss, and the explanation. */
  function CorrectionItem(answer: Answer, correctionInput: string): FeedbackItem {
    var ok := CorrectionCorrect(correctionInput, answer.corrections);
    CorrectionFeedback(ok, if ok || |answer.corrections| == 0 then None else Some(answer.corrections[0]),
      answer.explanation)
  }

  /** The three feedback items shown for a submission, in the order the program shows them. */
  function GradedFeedback(answer: Answer, lineInput: string, typeInput: string, correctionInput: string)
    : seq<FeedbackItem>
  {
    [LineItem(answer, lineInput), TypeItem(answer, typeInput), CorrectionItem(answer, correctionInput)]
  }

  lemma LongKeywords()
    ensures Keyword(Syntax) + " error" == "syntax error"
    ensures Keyword(Logic) + " error" == "logic error"
  {
  }

  /** The line-number part: `parseInt` the input and compare it with the answer. */
  method CheckLine(answer: Answer, lineInput: string) returns (ok: bool, item: FeedbackItem)
    ensures ok == LineCorrect(lineInput, answer)
    ensures item == LineItem(answer, lineInput)
  {
    var userLineNumber := ParseInt(lineInput);
    if userLineNumber == Some(answer.lineNumber) {
      ok := true;
      item := LineFeedback(true, answer.lineNumber, None);
    } else {
      ok := false;
      // `NaN` and 0 are falsy, so neither is echoed back
      var shown := if userLineNumber == Some(0) then None else userLineNumber;
      item := LineFeedback(false, answer.lineNumber, shown);
    }
  }

  /** The error-type part: normalise the input and compare it with the two accepted spellings. */
  method CheckErrorType(answer: Answer, typeInput: string) returns (ok: bool, item: FeedbackItem)
    ensures ok == ErrorTypeCorrect(typeInput, answer.errorType)
    ensures item == TypeItem(answer, typeInput)
  {
    LongKeywords();
    var normalizedUserType := NormalizeErrorType(typeInput);
    ok := false;
    if answer.errorType == Syntax {
      ok := normalizedUserType == "syntax" || normalizedUserType == "syntax error";
    } else if answer.errorType == Logic {
      ok := normalizedUserType == "logic" || normalizedUserType == "logic error";
    }
    if ok {
      item := TypeFeedback(true, answer.errorType, None);
    } else if |typeInput| > 0 {
      var shown := if |normalizedUserType| == 0 then "different type of" else normalizedUserType;
      item := TypeFeedback(false, answer.errorType, Some(shown));
    } else {
      item := TypeFeedback(false, answer.errorType, None);
    }
  }

  /**
   * The search of the accepted corrections: normalise the input once and stop
   * at the first correction with the same normal form.
   */
  method MatchCorrection(corrections: seq<string>, correctionInput: string) returns (ok: bool)
    ensures ok == CorrectionCorrect(correctionInput, corrections)
  {
    var normalizedUser := NormalizeCorrection(correctionInput);
    ok := false;
    var i := 0;
    while i < |corrections|
      invariant 0 <= i <= |corrections|
      invariant ok ==> CorrectionCorrect(correctionInput, corrections)
      invariant !ok ==> forall j :: 0 <= j < i ==> normalizedUser != NormalizeCorrection(corrections[j])
    {
      var normalizedCorrect := NormalizeCorrection(corrections[i]);
      if normalizedUser == normalizedCorrect {
        ok := true;
        assert CorrectionCorrect(correctionInput, corrections) by {
          assert 0 <= i < |corrections| && normalizedUser == NormalizeCorrection(corrections[i]);
        }
        break;
      }
      i := i + 1;
    }
  }

  /** The correction part: the search, then the feedback that shows the first accepted correction on a miss. */
  method CheckCorrection(answer: Answer, correctionInput: string) returns (ok: bool, item: FeedbackItem)
    ensures ok == CorrectionCorrect(correctionInput, answer.corrections)
    ensures item == CorrectionItem(answer, correctionInput)
  {
    ok := MatchCorrection(answer.corrections, correctionInput);
    var example := if ok || |answer.corrections| == 0 then None else Some(answer.corrections[0]);
    item := CorrectionFeedback(ok, example, answer.explanation);
  }

  /**
   * The grading part of `checkAnswer`: a running score and one feedback item
   * per part, in the order the program shows them.
   */
  method CheckAnswer(answer: Answer, lineInput: string, typeInput: string, correctionInput: string)
    returns (score: nat, feedback: seq<FeedbackItem>)
    ensures score == Grade(answer, lineInput, typeInput, correctionInput).Score()
    ensures feedback == GradedFeedback(answer, lineInput, typeInput, correctionInput)
  {
    score := 0;
    var lineOk, lineItem := CheckLine(answer, lineInput);
    if lineOk {
      score := score + 1;
    }
    var typeOk, typeItem := CheckErrorType(answer, typeInput);
    if typeOk {
      score := score + 1;
    }
    var correctionOk, correctionItem := CheckCorrection(answer, correctionInput);
    if correctionOk {
      score := score + 1;
    }
    feedback := [lineItem, typeItem, correctionItem];
    assert Grade(answer, lineInput, typeInput, correctionInput) == Verdict(lineOk, typeOk, correctionOk);
  }
}
