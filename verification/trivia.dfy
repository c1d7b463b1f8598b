/**
 * The five-question wellbeing quiz: answer selection, scoring, advancing,
 * restarting and the closing message chosen by score percentage.
 */
module Trivia {
  import opened Wrappers

  /** A question, reduced to what the game logic reads: the index of its correct option. */
  datatype Question = Question(correct: nat)

  const Questions: seq<Question> := [
    Question(1),
    Question(1),
    Question(1),
    Question(0),
    Question(2)
  ]

  datatype Quiz = Quiz(current: nat, selected: Option<nat>, score: nat, showResult: bool, complete: bool)

  /** The component's initial state, also what "Play Again" restores. */
  const Init: Quiz := Quiz(0, None, 0, false, false)

  /**
   * Clicking option `i`. The options are rendered only while the game is not
   * complete and are disabled while a result is shown, so such clicks are
   * ignored; otherwise the choice is recorded, the result shown, and the score
   * raised by one exactly when the choice is the question's correct index.
   */
  function Answer(s: Quiz, i: nat): (s': Quiz)
    requires s.current < |Questions|
    ensures s.showResult || s.complete ==> s' == s
    ensures !(s.showResult || s.complete) ==>
      && s'.selected == Some(i) && s'.showResult
      && s'.current == s.current && !s'.complete
      && (s'.score == s.score + 1 <==> i == Questions[s.current].correct)
      && (s'.score == s.score <==> i != Questions[s.current].correct)
  {
    if s.showResult || s.complete then s
    else
      var gained := if i == Questions[s.current].correct then 1 else 0;
      s.(selected := Some(i), showResult := true, score := s.score + gained)
  }

  /**
   * `nextQuestion`, whose button appears only once a result is shown: move to
   * the next question with the selection cleared, or on the last question
   * mark the game complete and stay on it.
   */
  function Next(s: Quiz): (s': Quiz)
    ensures !s.showResult || s.complete ==> s' == s
    ensures s.showResult && !s.complete && s.current + 1 < |Questions| ==>
      s' == s.(current := s.current + 1, selected := None, showResult := false)
    ensures s.showResult && !s.complete && s.current + 1 >= |Questions| ==>
      s' == s.(complete := true)
  {
    if !s.showResult || s.complete then s
    else if s.current < |Questions| - 1 then s.(current := s.current + 1, selected := None, showResult := false)
    else s.(complete := true)
  }

  /** `resetGame`: back to the first question with nothing answered. */
  function Reset(s: Quiz): (s': Quiz)
    ensures s'.current == 0 && s'.selected == None && s'.score == 0
    ensures !s'.showResult && !s'.complete
  {
    Init
  }

  datatype ScoreMessage = Excellent | GreatJob | GoodEffort | EveryStep

  /**
   * `getScoreMessage`: thresholds 80%, 60% and 40% of the question count,
   * compared as integers (`score * 100 >= k * count`).
   */
  function Message(score: nat): (m: ScoreMessage)
    ensures m == Excellent <==> score >= 4
    ensures m == GreatJob <==> score == 3
    ensures m == GoodEffort <==> score == 2
    ensures m == EveryStep <==> score <= 1
  {
    var n := |Questions|;
    if score * 100 >= 80 * n then Excellent
    else if score * 100 >= 60 * n then GreatJob
    else if score * 100 >= 40 * n then GoodEffort
    else EveryStep
  }

  /** Rank of a message, best first. */
  function Grade(m: ScoreMessage): nat {
    match m
    case Excellent => 0
    case GreatJob => 1
    case GoodEffort => 2
    case EveryStep => 3
  }

  // ---------------------------------------------------------------------------
  // Properties

  /** Questions answered so far: those passed plus the current one if its result is shown. */
  function Answered(s: Quiz): nat {
    s.current + (if s.showResult then 1 else 0)
  }

  /**
   * Reachable quiz states: the index stays on a question, the score never
   * exceeds the questions answered, and completion happens only on the last
   * question after its result is shown.
   */
  ghost predicate Valid(s: Quiz) {
    && s.current < |Questions|
    && s.score <= Answered(s)
    && (s.showResult <==> s.selected.Some?)
    && (s.complete ==> s.showResult && s.current == |Questions| - 1)
  }

  lemma InitValid()
    ensures Valid(Init)
  {
  }

  lemma EventsPreserveValid(s: Quiz, i: nat)
    requires Valid(s)
    ensures Valid(Answer(s, i)) && Valid(Next(s)) && Valid(Reset(s))
  {
  }

  /** At most one answer counts per question, so the score is at most the number of questions. */
  lemma ScoreBounded(s: Quiz)
    requires Valid(s)
    ensures s.score <= Answered(s) <= |Questions| == 5
  {
  }

  /** A second click while the result is shown cannot raise the score again. */
  lemma AnswerOncePerQuestion(s: Quiz, i: nat, j: nat)
    requires Valid(s)
    ensures Answer(Answer(s, i), j) == Answer(s, i)
  {
  }

  /** The message table for every possible score of the five-question quiz. */
  lemma MessageTable()
    ensures Message(5) == Excellent && Message(4) == Excellent
    ensures Message(3) == GreatJob && Message(2) == GoodEffort
    ensures Message(1) == EveryStep && Message(0) == EveryStep
  {
  }

  /** A higher score never earns a lower message. */
  lemma MessageMonotone(a: nat, b: nat)
    requires a <= b
    ensures Grade(Message(b)) <= Grade(Message(a))
  {
  }

  /** Answering every question correctly earns the top message. */
  lemma PerfectRun()
    ensures var s := Next(Answer(Next(Answer(Next(Answer(Next(Answer(Next(Answer(Init, 1)), 1)), 1)), 0)), 2));
      s.complete && s.score == 5 && Message(s.score) == Excellent
  {
  }
}
