/**
 * Questions, recorded answers, the score, the unanswered count, and the
 * per-option marks of the review screen.
 */
module Scoring {
  import opened Common

  /**
   * A question as the test session uses it: the number of options offered
   * and `correct_answer_index`. Text and explanation play no part in any
   * decision and are not modelled.
   */
  datatype Question = Question(optionCount: nat, correct: nat)

  /** One slot per question; `None` is the client's `null` (unanswered). */
  type Answers = seq<Option<nat>>

  /** An answer scores when it is exactly the correct index; `null` never does. */
  predicate Hit(q: Question, a: Option<nat>)
  {
    a == Some(q.correct)
  }

  /** Number of positions whose answer equals the question's correct index. */
  function Score(qs: seq<Question>, answers: Answers): nat
    requires |qs| == |answers|
  {
    if |qs| == 0 then 0
    else Score(qs[..|qs| - 1], answers[..|qs| - 1]) + (if Hit(qs[|qs| - 1], answers[|qs| - 1]) then 1 else 0)
  }

  /** The indices of the correctly answered questions. */
  function CorrectSet(qs: seq<Question>, answers: Answers): set<nat>
    requires |qs| == |answers|
  {
    set i: nat | i < |qs| && Hit(qs[i], answers[i])
  }

  /** The score is exactly the number of correctly answered questions. */
  lemma {:induction false} ScoreCountsCorrect(qs: seq<Question>, answers: Answers)
    requires |qs| == |answers|
    ensures Score(qs, answers) == |CorrectSet(qs, answers)|
  {
    var n := |qs|;
    if n > 0 {
      var qs', as' := qs[..n - 1], answers[..n - 1];
      ScoreCountsCorrect(qs', as');
      var prefix := CorrectSet(qs', as');
      assert CorrectSet(qs, answers) == prefix + (if Hit(qs[n - 1], answers[n - 1]) then {n - 1} else {});
    }
  }

  /** `filter(a => a === null).length`. */
  function Unanswered(answers: Answers): nat
  {
    if |answers| == 0 then 0
    else Unanswered(answers[..|answers| - 1]) + (if answers[|answers| - 1].None? then 1 else 0)
  }

  /** A fresh answer sheet: one `null` per question. */
  function BlankAnswers(n: nat): (answers: Answers)
    ensures |answers| == n
    ensures forall i :: 0 <= i < n ==> answers[i] == None
  {
    seq(n, _ => None)
  }

  /** Every slot of a fresh sheet is unanswered, and none of them scores. */
  lemma {:induction false} BlankSheet(qs: seq<Question>)
    ensures Unanswered(BlankAnswers(|qs|)) == |qs|
    ensures Score(qs, BlankAnswers(|qs|)) == 0
  {
    var n := |qs|;
    if n > 0 {
      BlankSheet(qs[..n - 1]);
      assert BlankAnswers(n)[..n - 1] == BlankAnswers(n - 1);
    }
  }

  /** A question answered correctly is not unanswered: score + unanswered <= n. */
  lemma {:induction false} ScoreBound(qs: seq<Question>, answers: Answers)
    requires |qs| == |answers|
    ensures Score(qs, answers) + Unanswered(answers) <= |qs|
  {
    if |qs| > 0 {
      ScoreBound(qs[..|qs| - 1], answers[..|qs| - 1]);
    }
  }

  /**
   * Recording option `o` at slot `i` changes the score only through that slot:
   * it loses the old slot's point, if any, and gains one if `o` is correct.
   */
  lemma {:induction false} ScoreAfterAnswer(qs: seq<Question>, answers: Answers, i: nat, o: nat)
    requires |qs| == |answers| && i < |qs|
    ensures Score(qs, answers[i := Some(o)])
      == Score(qs, answers) - (if Hit(qs[i], answers[i]) then 1 else 0) + (if o == qs[i].correct then 1 else 0)
  {
    var n := |qs|;
    var updated := answers[i := Some(o)];
    if i < n - 1 {
      assert updated[..n - 1] == answers[..n - 1][i := Some(o)];
      ScoreAfterAnswer(qs[..n - 1], answers[..n - 1], i, o);
    } else {
      assert updated[..n - 1] == answers[..n - 1];
    }
  }

  /** Recording an answer removes one unanswered slot if that slot was empty. */
  lemma {:induction false} UnansweredAfterAnswer(answers: Answers, i: nat, o: nat)
    requires i < |answers|
    ensures Unanswered(answers[i := Some(o)]) == Unanswered(answers) - (if answers[i].None? then 1 else 0)
  {
    var n := |answers|;
    var updated := answers[i := Some(o)];
    if i < n - 1 {
      assert updated[..n - 1] == answers[..n - 1][i := Some(o)];
      UnansweredAfterAnswer(answers[..n - 1], i, o);
    } else {
      assert updated[..n - 1] == answers[..n - 1];
    }
  }

  /** No unanswered slot is left exactly when every slot holds an option. */
  lemma {:induction false} NoneUnanswered(answers: Answers)
    ensures Unanswered(answers) == 0 <==> forall i :: 0 <= i < |answers| ==> answers[i].Some?
  {
    var n := |answers|;
    if n > 0 {
      NoneUnanswered(answers[..n - 1]);
      assert forall i :: 0 <= i < n - 1 ==> answers[..n - 1][i] == answers[i];
    }
  }

  /**
   * The score loop of the results screen: walks the questions once and
   * counts the positions whose answer equals the correct index.
   */
  method ComputeScore(qs: seq<Question>, answers: Answers) returns (score: nat)
    requires |qs| == |answers|
    ensures score == Score(qs, answers)
  {
    score := 0;
    var i := 0;
    while i < |qs|
      invariant 0 <= i <= |qs|
      invariant score == Score(qs[..i], answers[..i])
    {
      assert qs[..i + 1][..i] == qs[..i] && answers[..i + 1][..i] == answers[..i];
      if answers[i] == Some(qs[i].correct) {
        score := score + 1;
      }
      i := i + 1;
    }
    assert qs[..i] == qs && answers[..i] == answers;
  }

  /** How the review screen marks one option. */
  datatype Mark = Correct | Incorrect | Neutral

  /**
   * The correct option is marked correct even when the user chose it; the
   * user's choice is marked incorrect otherwise; every other option is neutral.
   */
  function MarkOf(option: nat, correct: nat, userAnswer: Option<nat>): Mark
  {
    if option == correct then Correct
    else if userAnswer == Some(option) then Incorrect
    else Neutral
  }

  /** The marks of options 0 .. count-1, in order. */
  function ReviewMarks(count: nat, correct: nat, userAnswer: Option<nat>): (marks: seq<Mark>)
    ensures |marks| == count
  {
    if count == 0 then [] else ReviewMarks(count - 1, correct, userAnswer) + [MarkOf(count - 1, correct, userAnswer)]
  }

  /** Option `k` carries the mark `MarkOf` gives it. */
  lemma {:induction false} ReviewMarkAt(count: nat, correct: nat, userAnswer: Option<nat>, k: nat)
    requires k < count
    ensures ReviewMarks(count, correct, userAnswer)[k] == MarkOf(k, correct, userAnswer)
  {
    if k < count - 1 {
      ReviewMarkAt(count - 1, correct, userAnswer, k);
    }
  }

  /** Number of options carrying mark `m`. */
  function CountMark(marks: seq<Mark>, m: Mark): nat
  {
    if |marks| == 0 then 0
    else CountMark(marks[..|marks| - 1], m) + (if marks[|marks| - 1] == m then 1 else 0)
  }

  /**
   * Exactly one option is marked correct when `correct_answer_index` is a
   * valid option, none otherwise.
   */
  lemma {:induction false} OneCorrectMark(count: nat, correct: nat, userAnswer: Option<nat>)
    ensures CountMark(ReviewMarks(count, correct, userAnswer), Correct) == if correct < count then 1 else 0
  {
    if count > 0 {
      OneCorrectMark(count - 1, correct, userAnswer);
      var marks, prev := ReviewMarks(count, correct, userAnswer), ReviewMarks(count - 1, correct, userAnswer);
      assert marks == prev + [MarkOf(count - 1, correct, userAnswer)];
      assert marks[..count - 1] == prev;
    }
  }

  /**
   * One option is marked incorrect exactly when the user chose a valid option
   * other than the correct one; none when the answer is right or `null`.
   */
  lemma {:induction false} IncorrectMarks(count: nat, correct: nat, userAnswer: Option<nat>)
    ensures CountMark(ReviewMarks(count, correct, userAnswer), Incorrect)
      == if userAnswer.Some? && userAnswer.value != correct && userAnswer.value < count then 1 else 0
  {
    if count > 0 {
      IncorrectMarks(count - 1, correct, userAnswer);
      var marks, prev := ReviewMarks(count, correct, userAnswer), ReviewMarks(count - 1, correct, userAnswer);
      assert marks == prev + [MarkOf(count - 1, correct, userAnswer)];
      assert marks[..count - 1] == prev;
    }
  }

  /** Marks of one reviewed question. */
  function QuestionMarks(q: Question, userAnswer: Option<nat>): (marks: seq<Mark>)
    ensures |marks| == q.optionCount
    ensures CountMark(marks, Correct) == if q.correct < q.optionCount then 1 else 0
    ensures CountMark(marks, Incorrect) <= 1
    ensures (userAnswer == None || userAnswer == Some(q.correct)) ==> CountMark(marks, Incorrect) == 0
  {
    OneCorrectMark(q.optionCount, q.correct, userAnswer);
    IncorrectMarks(q.optionCount, q.correct, userAnswer);
    ReviewMarks(q.optionCount, q.correct, userAnswer)
  }

  /** An example: answers [0, null, 2, 1, null] against [0, 1, 2, 0, 3]. */
  lemma FiveQuestionExample()
    ensures var qs := [Question(4, 0), Question(4, 1), Question(4, 2), Question(4, 0), Question(4, 3)];
      var answers := [Some(0), None, Some(2), Some(1), None];
      Score(qs, answers) == 2 && Unanswered(answers) == 2
  {
    var qs := [Question(4, 0), Question(4, 1), Question(4, 2), Question(4, 0), Question(4, 3)];
    var answers: Answers := [Some(0), None, Some(2), Some(1), None];
    assert qs[..1][..0] == [] && answers[..1][..0] == [];
    assert qs[..2][..1] == qs[..1] && answers[..2][..1] == answers[..1];
    assert qs[..3][..2] == qs[..2] && answers[..3][..2] == answers[..2];
    assert qs[..4][..3] == qs[..3] && answers[..4][..3] == answers[..3];
    assert qs[..4] == qs[..|qs| - 1] && answers[..4] == answers[..|qs| - 1];
    assert Score(qs[..1], answers[..1]) == 1;
    assert Score(qs[..2], answers[..2]) == 1;
    assert Score(qs[..3], answers[..3]) == 2;
    assert Score(qs[..4], answers[..4]) == 2;
    assert Unanswered(answers[..1]) == 0;
    assert Unanswered(answers[..2]) == 1;
    assert Unanswered(answers[..3]) == 1;
    assert Unanswered(answers[..4]) == 1;
  }
}
