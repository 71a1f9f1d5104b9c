/**
 * The test session of the quiz client: the question set, the parallel answer
 * sheet, the question and review cursors, the pause bookkeeping and the
 * countdown, all updated in place as the user acts.
 *
 * `Date.now()` is the `now` parameter of the operations that read the clock;
 * the one-second interval is `Tick`, the 300 ms auto-advance is `AutoAdvance`,
 * and the user's answer to the confirmation dialog is a boolean input.
 */
module Session {
  import opened Common
  import opened Scoring
  import opened Timing

  /** What the results screen shows: the score and the time taken in ms. */
  datatype Outcome = Outcome(score: nat, timeTaken: int)

  /** The confirmation text chosen before a manual submission. */
  datatype Prompt = UnansweredWarning(count: nat) | PlainConfirm

  class TestSession {
    var questions: seq<Question>
    var answers: Answers
    var current: nat
    var reviewIndex: nat
    var isPaused: bool
    var startTime: int
    var totalPauseTime: int
    var lastPauseStart: int
    /** The countdown's own counter of remaining seconds. */
    var timer: int
    /** Whether the countdown interval is still installed. */
    var timerRunning: bool
    /** The results, once the test has been submitted. */
    var outcome: Option<Outcome>

    /** Every closed pause interval, in order. */
    ghost var pauses: seq<Interval>
    /** The latest clock reading the session has seen. */
    ghost var clock: int
    /** The duration the countdown was started with. */
    ghost var duration: nat
    /** Ticks that found the countdown running and the test not paused. */
    ghost var unpausedTicks: nat
    /** Whether the countdown itself submitted the test. */
    ghost var forcedSubmit: bool

    /** Everything that holds at every moment, the countdown's bookkeeping aside. */
    ghost predicate Consistent()
      reads this
    {
      && |questions| > 0
      && |answers| == |questions|
      && current < |questions|
      && reviewIndex < |questions|
      && totalPauseTime == SumPauses(pauses)
      && startTime <= clock
      && (isPaused ==> lastPauseStart <= clock)
      && Chained(pauses, startTime, if isPaused then lastPauseStart else clock)
      && (forcedSubmit ==> unpausedTicks == duration + 1)
    }

    /**
     * The session invariant: the countdown runs exactly until the test is
     * submitted, and while it runs it has counted down one second per
     * unpaused tick.
     */
    ghost predicate Valid()
      reads this
    {
      && Consistent()
      && (timerRunning <==> outcome.None?)
      && (timerRunning ==> 0 <= timer && timer + unpausedTicks == duration && !forcedSubmit)
    }

    /** `renderTest`: a blank answer sheet, fresh timing, countdown started, question 0 shown. */
    constructor Render(qs: seq<Question>, durationSeconds: nat, now: int)
      requires |qs| > 0
      ensures Valid()
      ensures questions == qs && answers == BlankAnswers(|qs|)
      ensures Unanswered(answers) == |qs| && Score(questions, answers) == 0
      ensures current == 0 && reviewIndex == 0
      ensures !isPaused && startTime == now && clock == now && totalPauseTime == 0 && pauses == []
      ensures timerRunning && timer == durationSeconds && duration == durationSeconds
      ensures unpausedTicks == 0 && !forcedSubmit && outcome == None
    {
      questions := qs;
      answers := BlankAnswers(|qs|);
      current := 0;
      reviewIndex := 0;
      isPaused := false;
      startTime := now;
      totalPauseTime := 0;
      lastPauseStart := 0;
      timer := durationSeconds;
      timerRunning := true;
      outcome := None;
      pauses := [];
      clock := now;
      duration := durationSeconds;
      unpausedTicks := 0;
      forcedSubmit := false;
      BlankSheet(qs);
    }

    /** `displayQuestion`: a jump to `index` that is ignored while paused. */
    method DisplayQuestion(index: nat)
      requires Valid() && index < |questions|
      modifies this`current
      ensures Valid()
      ensures current == if isPaused then old(current) else index
    {
      if isPaused {
        return;
      }
      current := index;
    }

    /** `showNextQuestion`: one step forward, a no-op on the last question or while paused. */
    method ShowNext()
      requires Valid()
      modifies this`current
      ensures Valid()
      ensures current == if !isPaused && old(current) < |questions| - 1 then old(current) + 1 else old(current)
    {
      if current < |questions| - 1 {
        DisplayQuestion(current + 1);
      }
    }

    /** `showPrevQuestion`: one step back, a no-op on the first question or while paused. */
    method ShowPrev()
      requires Valid()
      modifies this`current
      ensures Valid()
      ensures current == if !isPaused && old(current) > 0 then old(current) - 1 else old(current)
    {
      if current > 0 {
        DisplayQuestion(current - 1);
      }
    }

    /**
     * `selectOption`: records the option in the current slot only; ignored
     * while paused. The delayed step forward is `AutoAdvance`.
     */
    method SelectOption(option: nat)
      requires Valid()
      modifies this`answers
      ensures Valid()
      ensures answers == if isPaused then old(answers) else old(answers)[current := Some(option)]
      ensures Unanswered(answers)
        == Unanswered(old(answers)) - (if !isPaused && old(answers)[current].None? then 1 else 0)
      ensures !isPaused ==>
                Score(questions, answers) == Score(questions, old(answers))
                  - (if Hit(questions[current], old(answers)[current]) then 1 else 0)
                  + (if option == questions[current].correct then 1 else 0)
    {
      if isPaused {
        return;
      }
      UnansweredAfterAnswer(answers, current, option);
      ScoreAfterAnswer(questions, answers, current, option);
      answers := answers[current := Some(option)];
    }

    /**
     * The timeout 300 ms after an answer: moves forward only when the
     * question then current is not the last (and the test is not paused).
     */
    method AutoAdvance()
      requires Valid()
      modifies this`current
      ensures Valid()
      ensures current == if !isPaused && old(current) < |questions| - 1 then old(current) + 1 else old(current)
    {
      if current < |questions| - 1 {
        ShowNext();
      }
    }

    /**
     * `togglePauseTimer`: pausing stamps the start of the pause; resuming
     * adds the pause's length to the total and closes the interval.
     */
    method TogglePause(now: int)
      requires Valid() && clock <= now
      modifies this`isPaused, this`lastPauseStart, this`totalPauseTime, this`pauses, this`clock
      ensures Valid() && clock == now
      ensures isPaused == !old(isPaused)
      ensures isPaused ==> lastPauseStart == now && pauses == old(pauses) && totalPauseTime == old(totalPauseTime)
      ensures !isPaused ==> && lastPauseStart == old(lastPauseStart)
                            && pauses == old(pauses) + [Interval(old(lastPauseStart), now)]
                            && totalPauseTime == old(totalPauseTime) + (now - old(lastPauseStart))
    {
      isPaused := !isPaused;
      if isPaused {
        lastPauseStart := now;
      } else {
        totalPauseTime := totalPauseTime + (now - lastPauseStart);
        ChainedExtend(pauses, startTime, lastPauseStart, Interval(lastPauseStart, now), now);
        pauses := pauses + [Interval(lastPauseStart, now)];
      }
      clock := now;
    }

    /**
     * `submitTest` with `calculateAndShowResults`: stops the countdown,
     * closes a pause still open, scores the sheet, takes the time taken as
     * wall time minus every pause, and puts the review cursor on question 0.
     */
    method Submit(now: int)
      requires Consistent() && clock <= now
      modifies this`timerRunning, this`isPaused, this`totalPauseTime, this`pauses, this`clock
      modifies this`outcome, this`reviewIndex
      ensures Valid() && clock == now
      ensures !timerRunning && !isPaused && reviewIndex == 0
      ensures pauses == old(pauses) + if old(isPaused) then [Interval(old(lastPauseStart), now)] else []
      ensures outcome == Some(Outcome(Score(questions, answers), now - startTime - SumPauses(pauses)))
      ensures 0 <= outcome.value.timeTaken <= now - startTime
      ensures outcome.value.score + Unanswered(answers) <= |questions|
    {
      timerRunning := false;
      ClosePause(now);
      var score := ComputeScore(questions, answers);
      ScoreBound(questions, answers);
      PausesFitWindow(pauses, startTime, now);
      outcome := Some(Outcome(score, now - startTime - totalPauseTime));
      reviewIndex := 0;
    }

    /** The first step of `submitTest`: a pause still open at submission is closed and added. */
    method ClosePause(now: int)
      requires Consistent() && clock <= now
      modifies this`isPaused, this`totalPauseTime, this`pauses, this`clock
      ensures Consistent() && !isPaused && clock == now
      ensures pauses == old(pauses) + if old(isPaused) then [Interval(old(lastPauseStart), now)] else []
      ensures Chained(pauses, startTime, now)
    {
      if isPaused {
        totalPauseTime := totalPauseTime + (now - lastPauseStart);
        ChainedExtend(pauses, startTime, lastPauseStart, Interval(lastPauseStart, now), now);
        pauses := pauses + [Interval(lastPauseStart, now)];
        isPaused := false;
      } else {
        ChainedWithin(pauses, startTime, clock, now);
      }
      clock := now;
    }

    /**
     * `confirmAndSubmitTest`: the prompt names the unanswered count when
     * there is one; a declined prompt leaves the session as it was.
     */
    method ConfirmAndSubmit(confirmed: bool, now: int) returns (prompt: Prompt)
      requires Valid() && clock <= now
      modifies this`timerRunning, this`isPaused, this`totalPauseTime, this`pauses, this`clock
      modifies this`outcome, this`reviewIndex
      ensures Valid()
      ensures prompt == if Unanswered(old(answers)) > 0 then UnansweredWarning(Unanswered(old(answers))) else PlainConfirm
      ensures !confirmed ==> unchanged(this)
      ensures confirmed ==> clock == now && startTime == old(startTime)
      ensures confirmed ==> pauses == old(pauses) + if old(isPaused) then [Interval(old(lastPauseStart), now)] else []
      ensures confirmed ==> && !timerRunning && !isPaused && reviewIndex == 0 && current == old(current)
                            && answers == old(answers) && questions == old(questions)
                            && outcome == Some(Outcome(Score(questions, answers), now - startTime - SumPauses(pauses)))
    {
      var unanswered := 0;
      var i := 0;
      while i < |answers|
        invariant 0 <= i <= |answers|
        invariant unanswered == Unanswered(answers[..i])
      {
        assert answers[..i + 1][..i] == answers[..i];
        if answers[i] == None {
          unanswered := unanswered + 1;
        }
        i := i + 1;
      }
      assert answers[..i] == answers;
      prompt := if unanswered > 0 then UnansweredWarning(unanswered) else PlainConfirm;
      if confirmed {
        Submit(now);
      }
    }

    /**
     * One second of the countdown. Nothing happens once the interval is
     * cleared or while paused; otherwise the counter is shown and then
     * decremented, and the test is submitted when it drops below zero.
     */
    method Tick(now: int) returns (shown: Option<(nat, nat, nat)>)
      requires Valid() && clock <= now
      modifies this
      ensures Valid()
      ensures old(clock) <= clock <= now
      ensures !old(timerRunning && !isPaused) ==> shown == None && unchanged(this)
      ensures old(timerRunning && !isPaused) ==> && shown == Some(CountdownDisplay(old(timer)))
                                                 && timer == old(timer) - 1
                                                 && unpausedTicks == old(unpausedTicks) + 1
                                                 && answers == old(answers) && questions == old(questions)
                                                 && current == old(current) && !isPaused
                                                 && startTime == old(startTime)
      ensures (forcedSubmit && !old(forcedSubmit)) <==> old(timerRunning && !isPaused) && unpausedTicks == duration + 1
      ensures old(timerRunning && !isPaused) && timerRunning ==>
        && pauses == old(pauses) && totalPauseTime == old(totalPauseTime)
        && lastPauseStart == old(lastPauseStart) && reviewIndex == old(reviewIndex) && clock == old(clock)
      ensures forcedSubmit && !old(forcedSubmit) ==>
        && pauses == old(pauses) && reviewIndex == 0 && clock == now
        && outcome == Some(Outcome(Score(old(questions), old(answers)), now - old(startTime) - SumPauses(old(pauses))))
      ensures !(forcedSubmit && !old(forcedSubmit)) ==> outcome == old(outcome) && timerRunning == old(timerRunning)
    {
      if !timerRunning || isPaused {
        return None;
      }
      shown := Some(CountdownDisplay(timer));
      timer := timer - 1;
      unpausedTicks := unpausedTicks + 1;
      if timer < 0 {
        forcedSubmit := true;
        timerRunning := false;
        Submit(now);
      }
    }

    /** `showNextReviewQuestion`: the review cursor steps forward, clamped at the last question. */
    method NextReview()
      requires Valid()
      modifies this`reviewIndex
      ensures Valid()
      ensures reviewIndex == if old(reviewIndex) < |questions| - 1 then old(reviewIndex) + 1 else old(reviewIndex)
    {
      if reviewIndex < |questions| - 1 {
        reviewIndex := reviewIndex + 1;
      }
    }

    /** `showPrevReviewQuestion`: the review cursor steps back, clamped at 0. */
    method PrevReview()
      requires Valid()
      modifies this`reviewIndex
      ensures Valid()
      ensures reviewIndex == if old(reviewIndex) > 0 then old(reviewIndex) - 1 else old(reviewIndex)
    {
      if reviewIndex > 0 {
        reviewIndex := reviewIndex - 1;
      }
    }

    /** The marks `displayReviewQuestion` gives the options of the reviewed question. */
    function ReviewedMarks(): (marks: seq<Mark>)
      reads this
      requires Valid()
      ensures |marks| == questions[reviewIndex].optionCount
      ensures CountMark(marks, Incorrect) <= 1
    {
      QuestionMarks(questions[reviewIndex], answers[reviewIndex])
    }
  }

  /**
   * Two questions, 600 seconds: a countdown tick, an answer with its
   * auto-advance, and an auto-advance on the last question that stays put.
   */
  method AnswerScenario()
  {
    var s := new TestSession.Render([Question(4, 0), Question(4, 1)], 600, 0);
    var shown := s.Tick(1000);
    assert shown == Some((0, 10, 0)) && s.timer == 599;
    s.SelectOption(0);
    assert s.answers[0] == Some(0) && s.answers[1] == None;
    s.AutoAdvance();
    assert s.current == 1;
    s.AutoAdvance();
    assert s.current == 1;
  }

  /**
   * While the test is paused the countdown does not move and answers are
   * ignored.
   */
  method PausedScenario()
  {
    var s := new TestSession.Render([Question(4, 0)], 600, 0);
    s.TogglePause(10000);
    var shown := s.Tick(11000);
    assert shown == None && s.timer == 600;
    s.SelectOption(0);
    assert s.answers == BlankAnswers(1);
  }

  /**
   * An example: start at 0 s, pause at 10 s, resume at 15 s, a
   * declined submission, then a submission at 30 s; the time taken is 25 s.
   */
  method PauseScenario()
  {
    var s := new TestSession.Render([Question(4, 0)], 600, 0);
    s.TogglePause(10000);
    s.TogglePause(15000);
    var prompt := s.ConfirmAndSubmit(false, 20000);
    assert prompt == UnansweredWarning(1) && s.outcome == None;
    prompt := s.ConfirmAndSubmit(true, 30000);
    assert s.pauses == [Interval(10000, 15000)];
    assert s.outcome == Some(Outcome(0, 25000));
    assert FormatTimeTaken(25000) == (0, 25);
  }
}
