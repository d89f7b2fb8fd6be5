/** The quiz controller of the sketch as a transition function: the screen
    (START, QUIZ, RESULT), the current question, the score, the pending
    selection and the feedback timer, and how a click or a frame changes them.
    The class in module Sketch keeps these as mutable fields and each of its
    handlers is proved to move them exactly as `Step` says. */
module QuizMachine {

  datatype GameState = Start | Quiz | Result

  /** One row of the question table: the prompt, the options in order, and
      the text of the correct option. */
  datatype Question = Question(question: string, options: seq<string>, answer: string)

  /** The last option clicked, whether it was right, and whether its feedback
      window is still running. */
  datatype Selection = Selection(index: int, correct: bool, answered: bool)

  /** The controller state: `gameState`, `currentQuestionIndex`, `score`,
      `selectedOption` and `feedbackTimer`. */
  datatype Session = Session(state: GameState, index: int, score: int, selected: Selection, timer: int)

  const FeedbackFrames: int := 60

  /** The values the globals are declared with. */
  function Initial(): (s: Session)
    ensures s.state == Start && s.index == 0 && s.score == 0 && !s.selected.answered
  {
    Session(Start, 0, 0, Selection(-1, false, false), 0)
  }

  /** What holds of the controller between any two events, for `n` questions. */
  predicate Inv(s: Session, n: nat) {
    && 0 <= s.index <= n
    && 0 <= s.score <= s.index + (if s.selected.answered then 1 else 0)
    && (s.selected.answered ==> s.state == Quiz && s.index < n && 1 <= s.timer <= FeedbackFrames)
    && (!s.selected.answered ==> s.timer == 0)
    && (s.state == Start ==> s.index == 0 && s.score == 0)
    && (s.state == Result ==> s.index == n)
  }

  /** A click or a frame, after the click has been hit-tested against the
      target of the current screen. */
  datatype Event =
    | StartClicked          // a press inside the start button
    | OptionClicked(i: nat) // a press whose first containing option box is `i`
    | RestartClicked        // a press inside the restart button
    | Frame                 // one call of draw()

  /** Grading compares option text and answer text exactly; an index past
      the options reads `undefined`, which equals no answer text. */
  predicate IsCorrect(q: Question, i: nat)
    ensures IsCorrect(q, i) ==> q.answer in q.options
  {
    i < |q.options| && q.options[i] == q.answer
  }

  /** checkAnswer on question `q`: score the click and open a 60-frame window. */
  function AfterAnswer(s: Session, q: Question, i: nat): (r: Session)
    ensures r.score == s.score + 1 <==> IsCorrect(q, i)
    ensures r.score == s.score <==> !IsCorrect(q, i)
    ensures r.selected == Selection(i, IsCorrect(q, i), true) && r.timer == FeedbackFrames
    ensures r.state == s.state && r.index == s.index
  {
    var correct := IsCorrect(q, i);
    s.(score := if correct then s.score + 1 else s.score,
       selected := Selection(i, correct, true),
       timer := FeedbackFrames)
  }

  /** The state part of one QUIZ frame for `n` questions: past the last
      question it switches to RESULT; otherwise a running feedback window
      loses a frame and, when it runs out, the next question comes up. */
  function QuizFrame(s: Session, n: nat): (r: Session)
    ensures r.score == s.score
    ensures r.state != s.state ==> r.state == Result && s.index >= n
    ensures r.index != s.index ==>
              r.index == s.index + 1 && s.selected.answered && s.timer <= 1 && !r.selected.answered
  {
    if s.index >= n then s.(state := Result)
    else if s.selected.answered then
      if s.timer - 1 <= 0 then
        s.(timer := s.timer - 1, selected := s.selected.(answered := false), index := s.index + 1)
      else
        s.(timer := s.timer - 1)
    else s
  }

  /** The effect of an event on the controller. An option click past the
      last question throws inside checkAnswer (see `AnswerThrows`) before
      anything is assigned, so it leaves the state as it was. */
  function Step(s: Session, qs: seq<Question>, e: Event): (r: Session)
    ensures e.OptionClicked? ==> r.state == s.state && r.index == s.index
    ensures e == Frame ==> r.score == s.score
    ensures e != RestartClicked ==> r.score >= s.score
    ensures r.state != s.state ==>
              (e == StartClicked && s.state == Start && r.state == Quiz) ||
              (e == Frame && s.state == Quiz && r.state == Result) ||
              (e == RestartClicked && s.state == Result && r.state == Start)
  {
    match e
    case StartClicked =>
      if s.state == Start then s.(state := Quiz) else s
    case OptionClicked(i) =>
      if s.state == Quiz && !s.selected.answered && 0 <= s.index < |qs|
      then AfterAnswer(s, qs[s.index], i)
      else s
    case RestartClicked =>
      if s.state == Result then s.(state := Start, index := 0, score := 0) else s
    case Frame =>
      if s.state == Quiz then QuizFrame(s, |qs|) else s
  }

  /** An option click that reaches checkAnswer with no current question: the
      option boxes drawn for the last question are still in place between the
      frame that advances past it and the frame that switches to RESULT. */
  predicate AnswerThrows(s: Session, qs: seq<Question>, e: Event) {
    e.OptionClicked? && s.state == Quiz && !s.selected.answered && !(0 <= s.index < |qs|)
  }

  /** The one-shot result burst fires on exactly this event. */
  predicate FiresResultBurst(s: Session, qs: seq<Question>, e: Event) {
    e == Frame && s.state == Quiz && s.index >= |qs|
  }

  // ---------------------------------------------------------------------
  // Properties of single steps

  lemma StepPreservesInv(s: Session, qs: seq<Question>, e: Event)
    requires Inv(s, |qs|)
    ensures Inv(Step(s, qs, e), |qs|)
  {
  }

  /** Scoring: a click on an unanswered current question raises the score by
      one exactly when the clicked option's text is the answer text, and
      otherwise leaves it; either way it opens the feedback window. */
  lemma OptionClickScores(s: Session, qs: seq<Question>, i: nat)
    requires Inv(s, |qs|) && s.state == Quiz && !s.selected.answered && s.index < |qs|
    ensures var r := Step(s, qs, OptionClicked(i));
      && (r.score == s.score + 1 <==> i < |qs[s.index].options| && qs[s.index].options[i] == qs[s.index].answer)
      && (r.score == s.score <==> !(i < |qs[s.index].options| && qs[s.index].options[i] == qs[s.index].answer))
      && r.selected.answered && r.selected.index == i && r.timer == 60 && r.index == s.index
  {
  }

  /** The re-entrancy guard: while an answer is pending an option click
      changes nothing (and, in the sketch, spawns nothing). */
  lemma PendingAnswerIgnoresClicks(s: Session, qs: seq<Question>, i: nat)
    requires s.selected.answered
    ensures Step(s, qs, OptionClicked(i)) == s
    ensures !AnswerThrows(s, qs, OptionClicked(i))
  {
  }

  /** The question index rises only on a QUIZ frame that ends a feedback
      window, and then by exactly one; no event lowers it except restart. */
  lemma IndexRisesOnlyWhenFeedbackEnds(s: Session, qs: seq<Question>, e: Event)
    requires Inv(s, |qs|)
    ensures Step(s, qs, e).index > s.index ==>
      e == Frame && s.state == Quiz && s.selected.answered && s.timer == 1 &&
      Step(s, qs, e).index == s.index + 1 && !Step(s, qs, e).selected.answered
    ensures Step(s, qs, e).index < s.index ==> e == RestartClicked && Step(s, qs, e).index == 0
  {
  }

  /** The result burst fires exactly on the event that enters RESULT. */
  lemma ResultBurstOnEntry(s: Session, qs: seq<Question>, e: Event)
    requires Inv(s, |qs|)
    ensures FiresResultBurst(s, qs, e) <==> s.state != Result && Step(s, qs, e).state == Result
  {
  }

  /** Restart in RESULT clears the index and the score and shows START. */
  lemma RestartResets(s: Session, qs: seq<Question>)
    requires Inv(s, |qs|) && s.state == Result
    ensures var r := Step(s, qs, RestartClicked);
      r.state == Start && r.index == 0 && r.score == 0 && r.selected == s.selected && r.timer == s.timer
  {
  }

  // ---------------------------------------------------------------------
  // Runs of frames and whole games

  /** The controller after `k` frames. */
  function Frames(s: Session, qs: seq<Question>, k: nat): Session
  {
    if k == 0 then s else Step(Frames(s, qs, k - 1), qs, Frame)
  }

  /** While a feedback window with `t` frames left runs, each frame takes
      one frame off it and nothing else; the `t`-th frame closes it and
      moves to the next question. */
  lemma {:induction false} FeedbackCountdown(s: Session, qs: seq<Question>, k: nat)
    requires Inv(s, |qs|) && s.selected.answered
    requires k <= s.timer
    ensures k < s.timer ==> Frames(s, qs, k) == s.(timer := s.timer - k)
    ensures k == s.timer ==>
      Frames(s, qs, k) == s.(timer := 0, selected := s.selected.(answered := false), index := s.index + 1)
  {
    if k > 0 {
      FeedbackCountdown(s, qs, k - 1);
    }
  }

  /** After an answer, exactly 60 QUIZ frames pass before the next question
      comes up: frames 1 to 59 keep the answer pending on the same question. */
  lemma AnswerHoldsForSixtyFrames(s: Session, qs: seq<Question>, i: nat, k: nat)
    requires Inv(s, |qs|) && s.state == Quiz && !s.selected.answered && s.index < |qs|
    requires k <= 60
    ensures var a := Step(s, qs, OptionClicked(i));
      var r := Frames(a, qs, k);
      && (k < 60 ==> r.selected.answered && r.index == s.index && r.state == Quiz)
      && (k == 60 ==> !r.selected.answered && r.index == s.index + 1 && r.state == Quiz &&
                      r.score == a.score)
  {
    var a := Step(s, qs, OptionClicked(i));
    StepPreservesInv(s, qs, OptionClicked(i));
    FeedbackCountdown(a, qs, k);
  }

  /** The number of `picks` that are right for the questions from `from` on. */
  function CorrectCount(qs: seq<Question>, from: nat, picks: seq<nat>): nat
    requires from + |picks| <= |qs|
    decreases picks
  {
    if picks == [] then 0
    else (if IsCorrect(qs[from], picks[0]) then 1 else 0) + CorrectCount(qs, from + 1, picks[1..])
  }

  /** Answering one question per pick, each followed by its 60 feedback frames. */
  function AnswerEach(s: Session, qs: seq<Question>, picks: seq<nat>): Session
    decreases picks
  {
    if picks == [] then s
    else AnswerEach(Frames(Step(s, qs, OptionClicked(picks[0])), qs, FeedbackFrames), qs, picks[1..])
  }

  lemma {:induction false} AnswerEachScores(s: Session, qs: seq<Question>, picks: seq<nat>)
    requires Inv(s, |qs|) && s.state == Quiz && !s.selected.answered
    requires s.index + |picks| <= |qs|
    decreases picks
    ensures var r := AnswerEach(s, qs, picks);
      && Inv(r, |qs|) && r.state == Quiz && !r.selected.answered
      && r.index == s.index + |picks|
      && r.score == s.score + CorrectCount(qs, s.index, picks)
  {
    if picks != [] {
      var a := Step(s, qs, OptionClicked(picks[0]));
      StepPreservesInv(s, qs, OptionClicked(picks[0]));
      FeedbackCountdown(a, qs, FeedbackFrames);
      var b := Frames(a, qs, FeedbackFrames);
      AnswerEachScores(b, qs, picks[1..]);
    }
  }

  /** A whole game: start, one pick per question with its feedback frames,
      then the frame that finds no question left. */
  function Play(qs: seq<Question>, picks: seq<nat>): Session
  {
    Step(AnswerEach(Step(Initial(), qs, StartClicked), qs, picks), qs, Frame)
  }

  /** A game with one pick per question ends on RESULT, scoring one point per
      right pick, and the frame that gets there fires the result burst. */
  lemma PlayEndsOnResult(qs: seq<Question>, picks: seq<nat>)
    requires |picks| == |qs|
    ensures Play(qs, picks).state == Result
    ensures Play(qs, picks).score == CorrectCount(qs, 0, picks)
    ensures FiresResultBurst(AnswerEach(Step(Initial(), qs, StartClicked), qs, picks), qs, Frame)
  {
    AnswerEachScores(Step(Initial(), qs, StartClicked), qs, picks);
  }

  /** Right picks only: the count is the number of picks. */
  lemma {:induction false} AllCorrectCount(qs: seq<Question>, from: nat, picks: seq<nat>)
    requires from + |picks| <= |qs|
    requires forall k :: 0 <= k < |picks| ==> IsCorrect(qs[from + k], picks[k])
    ensures CorrectCount(qs, from, picks) == |picks|
    decreases picks
  {
    if picks != [] {
      assert IsCorrect(qs[from + 0], picks[0]);
      AllCorrectCount(qs, from + 1, picks[1..]);
    }
  }

  /** A game answered right throughout scores every question and, when
      there is at least one question, ends in the praise band with the
      200-particle burst. */
  lemma PerfectGameIsPraised(qs: seq<Question>, picks: seq<nat>)
    requires |picks| == |qs| > 0
    requires forall k :: 0 <= k < |qs| ==> IsCorrect(qs[k], picks[k])
    ensures Play(qs, picks).score == |qs|
    ensures BandOf(Play(qs, picks).score, |qs|) == Praise
    ensures ResultBurst(Play(qs, picks).score, |qs|) == Spawn(200, true, false)
  {
    PlayEndsOnResult(qs, picks);
    AllCorrectCount(qs, 0, picks);
  }

  // ---------------------------------------------------------------------
  // The result screen

  /** The three messages of the result screen. */
  datatype Band = Praise | Fair | Low

  /** `score / n >= 0.8`, else `>= 0.5`, else the lowest band; with no
      questions the quotient is NaN, both comparisons fail, and the lowest
      band is taken. */
  function BandOf(score: int, n: nat): (b: Band)
    ensures n == 0 ==> b == Low
    ensures n > 0 && score >= n ==> b == Praise
    ensures score <= 0 ==> b == Low
  {
    if n == 0 then Low
    else if 5 * score >= 4 * n then Praise
    else if 2 * score >= n then Fair
    else Low
  }

  /** The bands are the thresholds 0.8 and 0.5 on the ratio score / n. */
  lemma BandMatchesRatio(score: int, n: nat)
    ensures n == 0 ==> BandOf(score, n) == Low
    ensures n > 0 ==> (BandOf(score, n) == Praise <==> (score as real) / (n as real) >= 0.8)
    ensures n > 0 ==> (BandOf(score, n) == Fair <==>
                         0.5 <= (score as real) / (n as real) < 0.8)
    ensures n > 0 ==> (BandOf(score, n) == Low <==> (score as real) / (n as real) < 0.5)
  {
    if n > 0 {
      var ratio := (score as real) / (n as real);
      assert ratio * (n as real) == score as real;
      assert ratio >= 0.8 <==> 5 * score >= 4 * n by {
        RatioAtLeast(score, n, 4, 5);
      }
      assert ratio >= 0.5 <==> 2 * score >= n by {
        RatioAtLeast(score, n, 1, 2);
      }
    }
  }

  lemma RatioAtLeast(score: int, n: nat, a: nat, b: nat)
    requires n > 0 && b > 0
    ensures (score as real) / (n as real) >= (a as real) / (b as real) <==> b * score >= a * n
  {
    var r, t := (score as real) / (n as real), (a as real) / (b as real);
    assert r * (n as real) == score as real;
    assert t * (b as real) == a as real;
    assert (b * score) as real == (b as real) * (n as real) * r;
    assert (a * n) as real == (b as real) * (n as real) * t;
    assert (b as real) * (n as real) > 0.0;
    if r >= t {
      assert (b as real) * (n as real) * r >= (b as real) * (n as real) * t;
    } else {
      assert (b as real) * (n as real) * r < (b as real) * (n as real) * t;
    }
  }

  /** A batch of particles to push: how many, and the constructor flags. */
  datatype Spawn = Spawn(count: nat, explode: bool, rise: bool)

  /** Each mouse move leaves two trail particles. */
  const CursorTrail: Spawn := Spawn(2, false, false)

  /** Each answer bursts 30 exploding particles from the clicked option. */
  const SelectionBurst: Spawn := Spawn(30, true, false)

  /** The one-shot burst on entering RESULT. */
  function ResultBurst(score: int, n: nat): (sp: Spawn)
    ensures sp.explode <==> BandOf(score, n) == Praise
    ensures sp.rise <==> !sp.explode
    ensures sp.count == (if sp.explode then 200 else 100)
  {
    if BandOf(score, n) == Praise then Spawn(200, true, false) else Spawn(100, false, true)
  }

  /** The one-shot burst is 200 exploding particles iff score / n >= 0.8,
      and otherwise 100 rising ones. */
  lemma ResultBurstByRatio(score: int, n: nat)
    ensures ResultBurst(score, n) == Spawn(200, true, false) <==>
              n > 0 && (score as real) / (n as real) >= 0.8
    ensures ResultBurst(score, n) != Spawn(200, true, false) ==>
              ResultBurst(score, n) == Spawn(100, false, true)
  {
    BandMatchesRatio(score, n);
  }

  /** The recurring spawn of one RESULT frame: fireworks of 50 on every tenth
      frame for praise, one bubble on every fifth frame for both lower bands. */
  function ResultFrameSpawn(score: int, n: nat, frameCount: nat): (sp: Spawn)
    ensures sp.explode <==> BandOf(score, n) == Praise
    ensures sp.rise <==> !sp.explode
    ensures sp.count <= 50
  {
    if BandOf(score, n) == Praise then
      Spawn(if frameCount % 10 == 0 then 50 else 0, true, false)
    else
      Spawn(if frameCount % 5 == 0 then 1 else 0, false, true)
  }

  /** The two bands under 0.8 animate alike; praise is the only band with
      fireworks, 50 of them on every tenth frame, and the lower bands get
      one bubble on every fifth frame. */
  lemma ResultSpawnByBand(score: int, n: nat, frameCount: nat)
    ensures var sp := ResultFrameSpawn(score, n, frameCount);
      && (sp.explode <==> (n > 0 && (score as real) / (n as real) >= 0.8))
      && (sp.rise <==> !sp.explode)
      && sp.count == (if sp.explode then (if frameCount % 10 == 0 then 50 else 0)
                      else (if frameCount % 5 == 0 then 1 else 0))
  {
    BandMatchesRatio(score, n);
  }

  /** With no questions the game lands in the lowest band and its burst is bubbles. */
  lemma EmptyQuizIsLowBand(score: int)
    ensures BandOf(score, 0) == Low
    ensures ResultBurst(score, 0) == Spawn(100, false, true)
  {
  }
}
