/** The quiz-taking state machine of `components/quiz/QuizTaker.jsx`.

    The component's React state becomes the fields of `QuizTaker`. Each event handler is a
    method, and the effect that React runs after every change of `currentQuestion` (restart
    the question timer, clear the selection) is the explicit step `ResetOnIndexChange`.
    `Next` and `Previous` are what the user observes: the handler followed by that effect
    whenever the handler changed the index. The clock (`Date.now()`) and the signed-in user
    are parameters, and the one-second interval is the method `Tick`. */
module QuizTaking {
  import opened Util
  import opened Types
  import opened Text
  import ProgressBar

  /** `Math.round((correct / total) * 100)` in exact arithmetic: the integer nearest to
      `100 * correct / total`, halves rounded up; 0 for an empty quiz. */
  function ScorePercent(correct: nat, total: nat): (score: int)
    ensures total > 0 ==> 2 * total * score <= 200 * correct + total < 2 * total * (score + 1)
    ensures total > 0 && correct <= total ==> 0 <= score <= 100
    ensures total == 0 ==> score == 0
  {
    if total == 0 then 0
    else
      var score := (200 * correct + total) / (2 * total);
      ScoreBounds(correct, total, score);
      score
  }

  lemma ScoreBounds(correct: nat, total: nat, score: int)
    requires total > 0 && score == (200 * correct + total) / (2 * total)
    ensures 2 * total * score <= 200 * correct + total < 2 * total * (score + 1)
    ensures correct <= total ==> 0 <= score <= 100
  {
    var d := 2 * total;
    var n := 200 * correct + total;
    assert d * score + n % d == n && 0 <= n % d < d;
    assert d * (score + 1) == d * score + d;
    if correct <= total {
      if score > 100 {
        MulMonotone(d, score, 101);
      }
      if score < 0 {
        MulMonotone(d, 0, score + 1);
      }
    }
  }

  lemma MulMonotone(a: int, b: int, c: int)
    requires a > 0 && b >= c
    ensures a * b >= a * c
  {
  }

  /** `answers.filter(answer => answer.isCorrect).length`. */
  function CountCorrect(answers: seq<UserAnswer>): (n: nat)
    ensures n <= |answers|
  {
    if answers == [] then 0
    else CountCorrect(answers[..|answers| - 1]) + (if answers[|answers| - 1].isCorrect then 1 else 0)
  }

  /** The number of positions whose recorded pick is the question's correct option: an
      independent account of how many questions were answered right. */
  function RightPicks(questions: seq<Question>, answers: seq<UserAnswer>): nat
    requires |answers| <= |questions|
  {
    if answers == [] then 0
    else
      var k := |answers| - 1;
      RightPicks(questions, answers[..k])
        + (if answers[k].selectedAnswer == questions[k].correctAnswer then 1 else 0)
  }

  /** Entry `i` of `answers` is a record of an answer to `questions[i]`: it names that
      question and its `isCorrect` flag says whether the pick was the correct option. */
  ghost predicate RecordsFor(questions: seq<Question>, answers: seq<UserAnswer>) {
    && |answers| <= |questions|
    && forall i | 0 <= i < |answers| ::
         && answers[i].questionId == questions[i].id
         && answers[i].isCorrect == (answers[i].selectedAnswer == questions[i].correctAnswer)
  }

  /** The count of `isCorrect` flags is the number of right picks. */
  lemma {:induction false} CountCorrectIsRightPicks(questions: seq<Question>, answers: seq<UserAnswer>)
    requires RecordsFor(questions, answers)
    ensures CountCorrect(answers) == RightPicks(questions, answers)
    decreases |answers|
  {
    if answers != [] {
      CountCorrectIsRightPicks(questions, answers[..|answers| - 1]);
    }
  }

  /** `newAnswers = [...answers]; newAnswers[i] = a` for a position at most one past the end:
      entry `i` becomes `a`, every other entry is kept, and the array grows only when `i` is
      its length. */
  function Store(answers: seq<UserAnswer>, i: nat, a: UserAnswer): (r: seq<UserAnswer>)
    requires i <= |answers|
    ensures |r| == Max(|answers|, i + 1)
    ensures r[i] == a
    ensures forall j | 0 <= j < |answers| && j != i :: r[j] == answers[j]
  {
    if i < |answers| then answers[i := a] else answers + [a]
  }

  /** `formatTime(seconds)`: whole minutes, a colon, and the remaining seconds padded to two
      digits. */
  function FormatTime(seconds: nat): string {
    NatToString(seconds / 60) + ":" + PadStart(NatToString(seconds % 60), 2, '0')
  }

  /** Reads an `m:ss` clock: digits, a colon, exactly two digits. */
  function ParseClock(t: string): Option<(nat, nat)> {
    var i := IndexOf(t, ':');
    if i < |t| && AllDigits(t[..i]) && AllDigits(t[i + 1..]) && |t| - (i + 1) == 2
    then Some((DigitsValue(t[..i]), DigitsValue(t[i + 1..])))
    else None
  }

  /** The clock shows the minutes and the seconds of the minute, which determine `seconds`. */
  lemma FormatTimeRoundTrip(seconds: nat)
    ensures ParseClock(FormatTime(seconds)) == Some((seconds / 60, seconds % 60))
  {
    var m := NatToString(seconds / 60);
    NatToStringRoundTrip(seconds / 60);
    TwoDigits(seconds % 60);
    ClockParts(m, PadStart(NatToString(seconds % 60), 2, '0'));
  }

  /** A clock written from a digit string and a two-digit string reads back as their values. */
  lemma ClockParts(m: string, p: string)
    requires AllDigits(m) && AllDigits(p) && |p| == 2
    ensures ParseClock(m + ":" + p) == Some((DigitsValue(m), DigitsValue(p)))
  {
    var t := m + ":" + p;
    assert t == m + [':'] + p;
    assert ':' !in m by {
      forall i | 0 <= i < |m| ensures m[i] != ':' {
        assert IsDigit(m[i]);
      }
    }
    IndexOfAfter(m, ':', p);
    assert t[..|m|] == m && t[|m| + 1..] == p;
  }

  /** Seconds of a minute, padded to two places, are two digits worth the seconds. */
  lemma TwoDigits(n: nat)
    requires n < 60
    ensures var p := PadStart(NatToString(n), 2, '0');
      AllDigits(p) && |p| == 2 && DigitsValue(p) == n
  {
    var s := NatToString(n);
    NatToStringRoundTrip(n);
    if n < 10 {
      assert s == [DigitChar(n)];
      assert PadStart(s, 2, '0') == "0" + s;
      DigitsValueLeadingZero(s);
    } else {
      assert s == NatToString(n / 10) + [DigitChar(n % 10)];
      assert NatToString(n / 10) == [DigitChar(n / 10)];
    }
  }

  /** `((currentQuestion + 1) / quiz.questions.length) * 100`: positive and at most 100. */
  function ProgressPercent(current: nat, total: nat): (p: real)
    requires current < total
    ensures 0.0 < p <= 100.0
  {
    ((current + 1) as real / total as real) * 100.0
  }

  /** The progress bar draws the quiz progress unchanged: it is already within the bar's
      default range `[0, 100]`. */
  lemma ProgressBarShowsProgress(current: nat, total: nat)
    requires current < total
    ensures ProgressBar.SafeValue(ProgressBar.Finite(ProgressPercent(current, total)), ProgressBar.Absent)
         == ProgressPercent(current, total)
    ensures ProgressBar.Percentage(ProgressBar.Finite(ProgressPercent(current, total)), ProgressBar.Absent)
         == ProgressPercent(current, total)
  {
  }

  class QuizTaker {
    const quiz: Quiz
    var currentQuestion: nat
    var answers: seq<UserAnswer>
    var selectedAnswer: Option<int>
    var timeSpent: nat
    var questionStartTime: int
    var isCompleted: bool
    var score: int
    /** The session handed to `saveQuizSession`, once the quiz has been completed. */
    var savedSession: Option<QuizSession>

    ghost predicate Valid()
      reads this
    {
      var n := |quiz.questions|;
      && n > 0
      && currentQuestion < n
      && currentQuestion <= |answers| <= n
      && RecordsFor(quiz.questions, answers)
      && (isCompleted ==>
            && |answers| == n
            && score == ScorePercent(CountCorrect(answers), n)
            && savedSession.Some?
            && savedSession.value.answers == answers
            && savedSession.value.score == score
            && savedSession.value.totalQuestions == n)
      && (!isCompleted ==> savedSession.None? && score == 0)
    }

    /** Mounting the component: first question, no answers, no pick, timers at zero. */
    constructor (quiz: Quiz, now: int)
      requires |quiz.questions| > 0
      ensures Valid()
      ensures this.quiz == quiz && currentQuestion == 0 && answers == []
      ensures selectedAnswer.None? && timeSpent == 0 && questionStartTime == now
      ensures !isCompleted && score == 0
    {
      this.quiz := quiz;
      currentQuestion := 0;
      answers := [];
      selectedAnswer := None;
      timeSpent := 0;
      questionStartTime := now;
      isCompleted := false;
      score := 0;
      savedSession := None;
    }

    /** One tick of the one-second interval. */
    method Tick()
      requires Valid()
      modifies this
      ensures Valid()
      ensures timeSpent == old(timeSpent) + 1
      ensures currentQuestion == old(currentQuestion) && answers == old(answers)
      ensures selectedAnswer == old(selectedAnswer) && questionStartTime == old(questionStartTime)
      ensures isCompleted == old(isCompleted) && score == old(score) && savedSession == old(savedSession)
    {
      timeSpent := timeSpent + 1;
    }

    /** `handleAnswerSelect`: the pick for the shown question; nothing else changes. */
    method Select(answerIndex: int)
      requires Valid() && !isCompleted
      modifies this
      ensures Valid()
      ensures selectedAnswer == Some(answerIndex)
      ensures currentQuestion == old(currentQuestion) && answers == old(answers)
      ensures timeSpent == old(timeSpent) && questionStartTime == old(questionStartTime)
      ensures isCompleted == old(isCompleted) && score == old(score) && savedSession == old(savedSession)
    {
      selectedAnswer := Some(answerIndex);
    }

    /** The effect that runs after every change of `currentQuestion`: restart the question
        timer and clear the pick. */
    method ResetOnIndexChange(now: int)
      requires Valid()
      modifies this
      ensures Valid()
      ensures questionStartTime == now && selectedAnswer.None?
      ensures currentQuestion == old(currentQuestion) && answers == old(answers)
      ensures timeSpent == old(timeSpent)
      ensures isCompleted == old(isCompleted) && score == old(score) && savedSession == old(savedSession)
    {
      questionStartTime := now;
      selectedAnswer := None;
    }

    /** `completeQuiz(finalAnswers)`: without a user nothing happens; otherwise the score is
        computed from the `isCorrect` flags, the quiz is marked completed and the session is
        handed to the store. A failing save is only logged. */
    method CompleteQuiz(finalAnswers: seq<UserAnswer>, now: int, user: Option<string>)
      requires Valid() && !isCompleted
      requires finalAnswers == answers && |answers| == |quiz.questions|
      modifies this
      ensures Valid()
      ensures isCompleted <==> user.Some?
      ensures user.Some? ==> score == ScorePercent(CountCorrect(finalAnswers), |quiz.questions|)
      ensures user.Some? ==> savedSession == Some(QuizSession(quiz.id, user.value, finalAnswers,
                score, |quiz.questions|, now, old(timeSpent), Some(quiz)))
      ensures user.None? ==> score == old(score) && savedSession == old(savedSession)
      ensures currentQuestion == old(currentQuestion) && answers == old(answers)
      ensures selectedAnswer == old(selectedAnswer) && questionStartTime == old(questionStartTime)
      ensures timeSpent == old(timeSpent)
    {
      if user.None? {
        return;
      }
      var correctAnswers := CountCorrect(finalAnswers);
      var finalScore := ScorePercent(correctAnswers, |quiz.questions|);
      score := finalScore;
      isCompleted := true;
      savedSession := Some(QuizSession(quiz.id, user.value, finalAnswers, finalScore,
                                       |quiz.questions|, now, timeSpent, Some(quiz)));
    }

    /** The answer `handleNext` records for the shown question, picked `pick`. */
    function Recorded(pick: int, now: int): (a: UserAnswer)
      reads this
      requires Valid()
      ensures a.questionId == quiz.questions[currentQuestion].id && a.selectedAnswer == pick
      ensures a.isCorrect <==> pick == quiz.questions[currentQuestion].correctAnswer
      ensures a.timeSpent * 1000 <= now - questionStartTime < (a.timeSpent + 1) * 1000
    {
      var q := quiz.questions[currentQuestion];
      UserAnswer(q.id, pick, pick == q.correctAnswer, (now - questionStartTime) / 1000)
    }

    /** `handleNext`: rejected without a pick; otherwise the answer is written at the current
        position (overwriting an earlier one), then the quiz moves on one question or, on the
        last question, is completed with the new answers. */
    method HandleNext(now: int, user: Option<string>)
      requires Valid() && !isCompleted
      modifies this
      ensures Valid()
      ensures old(selectedAnswer).None? ==>
        && currentQuestion == old(currentQuestion) && answers == old(answers)
        && !isCompleted && selectedAnswer == old(selectedAnswer)
      ensures old(selectedAnswer).Some? ==>
        answers == Store(old(answers), old(currentQuestion), old(Recorded(selectedAnswer.value, now)))
      ensures old(selectedAnswer).Some? && old(currentQuestion) < |quiz.questions| - 1 ==>
        currentQuestion == old(currentQuestion) + 1 && !isCompleted
      ensures old(selectedAnswer).Some? && old(currentQuestion) == |quiz.questions| - 1 ==>
        && currentQuestion == old(currentQuestion)
        && |answers| == |quiz.questions|
        && (isCompleted <==> user.Some?)
        && (user.Some? ==> score == ScorePercent(CountCorrect(answers), |quiz.questions|))
        && (user.Some? ==> savedSession == Some(QuizSession(quiz.id, user.value, answers,
              score, |quiz.questions|, now, timeSpent, Some(quiz))))
      ensures selectedAnswer == old(selectedAnswer) && questionStartTime == old(questionStartTime)
      ensures timeSpent == old(timeSpent)
    {
      if selectedAnswer.None? {
        return;
      }
      var userAnswer := Recorded(selectedAnswer.value, now);
      var newAnswers := Store(answers, currentQuestion, userAnswer);
      answers := newAnswers;
      if currentQuestion < |quiz.questions| - 1 {
        currentQuestion := currentQuestion + 1;
      } else {
        CompleteQuiz(newAnswers, now, user);
      }
    }

    /** `handlePrevious`: at the first question nothing happens; otherwise the index goes back
        one and the pick is set to the answer recorded there, which always exists. */
    method HandlePrevious()
      requires Valid() && !isCompleted
      modifies this
      ensures Valid()
      ensures old(currentQuestion) == 0 ==> selectedAnswer == old(selectedAnswer)
      ensures old(currentQuestion) == 0 ==> currentQuestion == 0
      ensures old(currentQuestion) > 0 ==>
        && currentQuestion == old(currentQuestion) - 1
        && currentQuestion < |answers|
        && selectedAnswer == Some(answers[currentQuestion].selectedAnswer)
      ensures answers == old(answers) && questionStartTime == old(questionStartTime)
      ensures timeSpent == old(timeSpent)
      ensures isCompleted == old(isCompleted) && score == old(score) && savedSession == old(savedSession)
    {
      if currentQuestion > 0 {
        var previousAnswer := answers[currentQuestion - 1];
        currentQuestion := currentQuestion - 1;
        selectedAnswer := Some(previousAnswer.selectedAnswer);
      }
    }

    /** The Next button as the user sees it: `HandleNext`, then the index-change effect when
        the quiz moved on. A move resets the pick and restarts the question timer. */
    method Next(now: int, user: Option<string>)
      requires Valid() && !isCompleted
      modifies this
      ensures Valid()
      ensures old(selectedAnswer).None? ==>
        && currentQuestion == old(currentQuestion) && answers == old(answers)
        && !isCompleted && selectedAnswer.None? && questionStartTime == old(questionStartTime)
      ensures old(selectedAnswer).Some? ==>
        answers == Store(old(answers), old(currentQuestion), old(Recorded(selectedAnswer.value, now)))
      ensures old(selectedAnswer).Some? && old(currentQuestion) < |quiz.questions| - 1 ==>
        && currentQuestion == old(currentQuestion) + 1 && !isCompleted
        && selectedAnswer.None? && questionStartTime == now
      ensures old(selectedAnswer).Some? && old(currentQuestion) == |quiz.questions| - 1 ==>
        && currentQuestion == old(currentQuestion)
        && selectedAnswer == old(selectedAnswer) && questionStartTime == old(questionStartTime)
        && |answers| == |quiz.questions|
        && (isCompleted <==> user.Some?)
        && (user.Some? ==> score == ScorePercent(CountCorrect(answers), |quiz.questions|))
        && (user.Some? ==> savedSession == Some(QuizSession(quiz.id, user.value, answers,
              score, |quiz.questions|, now, timeSpent, Some(quiz))))
      ensures timeSpent == old(timeSpent)
    {
      var before := currentQuestion;
      HandleNext(now, user);
      if currentQuestion != before {
        ResetOnIndexChange(now);
      }
    }

    /** The Previous button as the user sees it: `HandlePrevious`, then the index-change
        effect. The effect clears the pick that `HandlePrevious` restored, so after going back
        nothing is selected. */
    method Previous(now: int)
      requires Valid() && !isCompleted
      modifies this
      ensures Valid()
      ensures old(currentQuestion) == 0 ==>
        currentQuestion == 0 && selectedAnswer == old(selectedAnswer)
        && questionStartTime == old(questionStartTime)
      ensures old(currentQuestion) > 0 ==>
        currentQuestion == old(currentQuestion) - 1 && selectedAnswer.None? && questionStartTime == now
      ensures answers == old(answers) && timeSpent == old(timeSpent)
      ensures isCompleted == old(isCompleted) && score == old(score) && savedSession == old(savedSession)
    {
      var before := currentQuestion;
      HandlePrevious();
      if currentQuestion != before {
        ResetOnIndexChange(now);
      }
    }

    /** The index-change effect as `handlePrevious` evidently means it to combine with the
        move: restart the question timer and show the pick recorded at the new position, if
        any, instead of clearing it. */
    method RestoreOnIndexChange(now: int)
      requires Valid()
      modifies this
      ensures Valid()
      ensures questionStartTime == now
      ensures currentQuestion < |answers| ==> selectedAnswer == Some(answers[currentQuestion].selectedAnswer)
      ensures currentQuestion >= |answers| ==> selectedAnswer.None?
      ensures currentQuestion == old(currentQuestion) && answers == old(answers)
      ensures timeSpent == old(timeSpent)
      ensures isCompleted == old(isCompleted) && score == old(score) && savedSession == old(savedSession)
    {
      questionStartTime := now;
      if currentQuestion < |answers| {
        selectedAnswer := Some(answers[currentQuestion].selectedAnswer);
      } else {
        selectedAnswer := None;
      }
    }

    /** The Previous button with the corrected effect: after going back the answer recorded
        for that question is selected again. */
    method PreviousRestoring(now: int)
      requires Valid() && !isCompleted
      modifies this
      ensures Valid()
      ensures old(currentQuestion) == 0 ==>
        currentQuestion == 0 && selectedAnswer == old(selectedAnswer)
        && questionStartTime == old(questionStartTime)
      ensures old(currentQuestion) > 0 ==>
        && currentQuestion == old(currentQuestion) - 1
        && currentQuestion < |answers|
        && selectedAnswer == Some(answers[currentQuestion].selectedAnswer)
        && questionStartTime == now
      ensures answers == old(answers) && timeSpent == old(timeSpent)
      ensures isCompleted == old(isCompleted) && score == old(score) && savedSession == old(savedSession)
    {
      var before := currentQuestion;
      HandlePrevious();
      if currentQuestion != before {
        RestoreOnIndexChange(now);
      }
    }
  }

  /** Answer the first question with option 0, press Next, then Previous: the answer is
      recorded as option 0, yet nothing is selected on the page, because the index-change
      effect clears the pick `handlePrevious` restored. */
  method BackAfterAnswering(quiz: Quiz, now: int) returns (shown: Option<int>, recorded: int)
    requires |quiz.questions| >= 2
    ensures shown == None && recorded == 0
  {
    var taker := new QuizTaker(quiz, now);
    taker.Select(0);
    taker.Next(now + 1000, Some("user"));
    taker.Previous(now + 2000);
    shown := taker.selectedAnswer;
    recorded := taker.answers[0].selectedAnswer;
  }

  /** The same steps with the corrected Previous show the recorded pick again. */
  method BackAfterAnsweringRestored(quiz: Quiz, now: int) returns (shown: Option<int>, recorded: int)
    requires |quiz.questions| >= 2
    ensures shown == Some(0) && recorded == 0
  {
    var taker := new QuizTaker(quiz, now);
    taker.Select(0);
    taker.Next(now + 1000, Some("user"));
    taker.PreviousRestoring(now + 2000);
    shown := taker.selectedAnswer;
    recorded := taker.answers[0].selectedAnswer;
  }
}
