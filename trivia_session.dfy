/**
 * The trivia session: the global `triviaState` record, starting a quiz, answering a
 * question, the delayed advance to the next one, and the result screen's percentage
 * and title.
 */
module TriviaSession {
  import opened Common
  import opened Profiles
  import opened Trivia

  /** A quiz never has more than five questions. */
  const MaxQuestions := 5

  /**
   * `Math.round((score / total) * 100)` on exact rationals: the largest integer not above
   * 100 * score / total + 1/2. Dafny's `/` floors when the divisor is positive.
   */
  function Percentage(score: int, total: int): int
    requires total > 0
  {
    (200 * score + total) / (2 * total)
  }

  /** The three result titles: 🏆 Amazing!, 👍 Great Job! and 📚 Keep Learning! */
  datatype ResultBand = Amazing | GreatJob | KeepLearning

  function BandRank(b: ResultBand): nat
  {
    match b
    case KeepLearning => 0
    case GreatJob => 1
    case Amazing => 2
  }

  /** The title for a percentage: at least 80, at least 60, or below. */
  function BandOf(percentage: int): ResultBand
  {
    if percentage >= 80 then Amazing
    else if percentage >= 60 then GreatJob
    else KeepLearning
  }

  // ---------------------------------------------------------------------------
  // Lemmas about the result

  /** The percentage is 100 * score / total rounded to the nearest integer, halves upward. */
  lemma PercentageIsNearest(score: int, total: int)
    requires total > 0
    ensures 200 * score - total < 2 * total * Percentage(score, total) <= 200 * score + total
  {
    var n, d := 200 * score + total, 2 * total;
    var p := n / d;
    assert n == d * p + n % d;
    assert 0 <= n % d < d;
  }

  /** Multiplying by a non-negative factor keeps order. */
  lemma MulMonotone(a: int, x: int, y: int)
    requires a >= 0 && x <= y
    ensures a * x <= a * y
  {
    assert a * y - a * x == a * (y - x);
  }

  /** With no more points than questions, the percentage is between 0 and 100; a perfect run is 100. */
  lemma PercentageBounds(score: int, total: int)
    requires total > 0 && 0 <= score <= total
    ensures 0 <= Percentage(score, total) <= 100
    ensures score == total ==> Percentage(score, total) == 100
    ensures score == 0 ==> Percentage(score, total) == 0
  {
    var p := Percentage(score, total);
    var d := 2 * total;
    PercentageIsNearest(score, total);
    MulMonotone(200, score, total);
    if p > 100 {
      MulMonotone(d, 101, p);
    }
    if p < 0 {
      MulMonotone(d, p, -1);
    }
    if score == total && p <= 99 {
      MulMonotone(d, p, 99);
    }
    if score == 0 && p >= 1 {
      MulMonotone(d, 1, p);
    }
  }

  /** More points never give a lower percentage. */
  lemma PercentageMonotone(s1: int, s2: int, total: int)
    requires total > 0 && s1 <= s2
    ensures Percentage(s1, total) <= Percentage(s2, total)
  {
    var p1, p2 := Percentage(s1, total), Percentage(s2, total);
    PercentageIsNearest(s1, total);
    PercentageIsNearest(s2, total);
    MulMonotone(200, s1, s2);
    if p1 > p2 {
      MulMonotone(2 * total, p2 + 1, p1);
    }
  }

  /** More points never give a lower title. */
  lemma BandMonotone(s1: int, s2: int, total: int)
    requires total > 0 && s1 <= s2
    ensures BandRank(BandOf(Percentage(s1, total))) <= BandRank(BandOf(Percentage(s2, total)))
  {
    PercentageMonotone(s1, s2, total);
  }

  /** Answering every question right earns the top title; answering none right, the lowest. */
  lemma BandExtremes(total: int)
    requires total > 0
    ensures BandOf(Percentage(total, total)) == Amazing
    ensures BandOf(Percentage(0, total)) == KeepLearning
  {
    PercentageBounds(total, total);
    PercentageBounds(0, total);
  }

  // ---------------------------------------------------------------------------
  // The session

  /** The global `triviaState`. */
  class Game {
    var currentQuestion: int
    var score: int
    var questions: seq<Question>
    var totalQuestions: int
    /** Answers clicked since the quiz was last started. */
    ghost var answered: nat
    /**
     * Advances scheduled by clicks and not yet run. Starting a quiz cancels none of them,
     * so an advance scheduled in one quiz may run in the next.
     */
    ghost var pending: nat

    ghost predicate Valid()
      reads this
    {
      && 1 <= totalQuestions <= MaxQuestions
      && 0 <= score <= answered
      && 0 <= currentQuestion
      && AllWellBuilt(questions)
    }

    /** The initial `triviaState`. */
    constructor ()
      ensures Valid()
      ensures currentQuestion == 0 && score == 0 && questions == [] && totalQuestions == MaxQuestions
    {
      currentQuestion := 0;
      score := 0;
      questions := [];
      totalQuestions := MaxQuestions;
      answered := 0;
      pending := 0;
    }

    /**
     * `startTrivia`. The questions are generated with the cap left by the previous quiz,
     * and are stored even when there are none. With at least one eligible pair the quiz
     * starts from question 0 with score 0, and the total becomes min(5, number of
     * questions), which then equals the number of questions. Otherwise only the question
     * list changes. So the cap never grows back once a short quiz has lowered it.
     * Advances still pending from an earlier click stay pending: `pending` is not in the frame.
     */
    method StartTrivia(kids: seq<Kid>) returns (started: bool)
      requires Valid()
      modifies this`questions, this`currentQuestion, this`score, this`answered, this`totalQuestions
      ensures Valid()
      ensures |questions| == Min(old(totalQuestions), |Candidates(kids)|)
      ensures multiset(Stems(questions)) <= multiset(Candidates(kids))
      ensures started <==> |Candidates(kids)| > 0
      ensures started ==> && currentQuestion == 0 && score == 0 && answered == 0
                          && totalQuestions == Min(MaxQuestions, |questions|)
                          && totalQuestions == |questions|
      ensures !started ==> && questions == []
                           && currentQuestion == old(currentQuestion) && score == old(score)
                           && totalQuestions == old(totalQuestions) && answered == old(answered)
      ensures totalQuestions <= old(totalQuestions)
    {
      var cap := totalQuestions;
      var qs := GenerateTriviaQuestions(kids, cap);
      assert |qs| <= cap <= MaxQuestions;
      assert |qs| == 0 <==> |Candidates(kids)| == 0;
      questions := qs;
      if |qs| == 0 {
        return false;
      }
      currentQuestion := 0;
      score := 0;
      answered := 0;
      totalQuestions := Min(MaxQuestions, |qs|);
      started := true;
    }

    /**
     * `selectTriviaAnswer`: a point for a right answer. Nothing stops a second click on the
     * same question, so each click counts, and each schedules one more advance.
     */
    method SelectTriviaAnswer(selected: string, correct: string)
      requires Valid()
      modifies this`score, this`answered, this`pending
      ensures Valid()
      ensures score == old(score) + (if selected == correct then 1 else 0)
      ensures answered == old(answered) + 1
      ensures pending == old(pending) + 1
    {
      if selected == correct {
        score := score + 1;
      }
      answered := answered + 1;
      pending := pending + 1;
    }

    /**
     * The callback each answer schedules: move to the next question, and report whether
     * the quiz is over, which shows the result. It runs on whatever quiz is current when
     * it fires, which need not be the quiz whose click scheduled it.
     */
    method AdvanceAfterFeedback() returns (finished: bool)
      requires Valid() && pending > 0
      modifies this`currentQuestion, this`pending
      ensures Valid()
      ensures currentQuestion == old(currentQuestion) + 1
      ensures finished <==> currentQuestion >= totalQuestions
      ensures pending == old(pending) - 1
    {
      pending := pending - 1;
      currentQuestion := currentQuestion + 1;
      finished := currentQuestion >= totalQuestions;
    }

    /**
     * `showTriviaResult`: the percentage and the title. When no question was answered more
     * than once the percentage stays within 0..100.
     */
    method ShowTriviaResult() returns (percentage: int, band: ResultBand)
      requires Valid()
      ensures percentage == Percentage(score, totalQuestions)
      ensures band == BandOf(percentage)
      ensures answered <= totalQuestions ==> 0 <= percentage <= 100
    {
      percentage := (200 * score + totalQuestions) / (2 * totalQuestions);
      if percentage >= 80 {
        band := Amazing;
      } else if percentage >= 60 {
        band := GreatJob;
      } else {
        band := KeepLearning;
      }
      if answered <= totalQuestions {
        PercentageBounds(score, totalQuestions);
      }
    }
  }

  /**
   * Clicking the right answer of a one-question quiz twice before the advance fires
   * scores 2 out of 1, which shows as 200%.
   */
  method RepeatedClickScoresTwice() returns (score: int, total: int, percentage: int)
    ensures score == 2 && total == 1 && percentage == 200
  {
    OnlyAgeYieldsOneCandidate("Ana", "8", "1", DefaultColor, 0);
    var game := new Game();
    var started := game.StartTrivia([Kid("1", "Ana", "8", DefaultColor, EmptyProfile, 0)]);
    var correct := game.questions[0].correctAnswer;
    game.SelectTriviaAnswer(correct, correct);
    game.SelectTriviaAnswer(correct, correct);
    var band;
    percentage, band := game.ShowTriviaResult();
    score, total := game.score, game.totalQuestions;
  }

  /**
   * An answer clicked just before the quiz is started again: its advance still fires and
   * moves the new quiz past its first question. With one question, the new quiz goes
   * straight to the result, 0 out of 1, without the question being shown.
   */
  method StaleAdvanceSkipsFirstQuestion() returns (current: int, finished: bool, score: int, total: int)
    ensures current == 1 && finished && score == 0 && total == 1
  {
    OnlyAgeYieldsOneCandidate("Ana", "8", "1", DefaultColor, 0);
    var kids := [Kid("1", "Ana", "8", DefaultColor, EmptyProfile, 0)];
    var game := new Game();
    var started := game.StartTrivia(kids);
    var correct := game.questions[0].correctAnswer;
    game.SelectTriviaAnswer(correct, correct);
    started := game.StartTrivia(kids);
    finished := game.AdvanceAfterFeedback();
    current, score, total := game.currentQuestion, game.score, game.totalQuestions;
  }
}
