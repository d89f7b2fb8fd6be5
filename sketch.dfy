/** The sketch itself: the module-level variables of the program as the
    fields of one object, and the p5.js callbacks (`draw`, `mousePressed`,
    `mouseMoved`) and their helpers as methods that update those fields in
    place. The canvas size, the pointer position and `frameCount` are
    parameters. Every handler keeps `Valid()` and moves the controller
    fields exactly as `QuizMachine.Step` does for its event. */
module Sketch {
  import opened Particles
  import opened Layout
  import opened QuizMachine

  /** The pooled particles are pairwise different objects and none is dead. */
  ghost predicate PoolOk(pool: seq<Particle>)
    reads pool
  {
    Distinct(pool) && forall i :: 0 <= i < |pool| ==> !pool[i].IsDead()
  }

  /** A batch of particles built for `sp`: as many as it asks for, all
      different, all of its kind. */
  ghost predicate Built(born: seq<Particle>, sp: Spawn) {
    && |born| == sp.count && Distinct(born)
    && forall i :: 0 <= i < |born| ==> born[i].kind == KindOf(sp.explode, sp.rise)
  }

  /** A batch built for `sp` that has not been updated yet. */
  ghost predicate Batch(born: seq<Particle>, sp: Spawn)
    reads born
  {
    Built(born, sp) && forall i :: 0 <= i < |born| ==> born[i].lifespan == InitialLifespan
  }

  /** What one screen frame does to the feedback pool and the option boxes,
      given the controller `s` before it: the pool goes from `fb0` to `fb`, the
      boxes from `boxes0` to `boxes`, and `born` is the batch pushed. START
      changes neither. A QUIZ frame that finds no question left pushes the
      result burst and keeps the boxes; any other QUIZ frame lays out the boxes
      of the current question and pushes nothing. A RESULT frame pushes the
      band's batch, then ages and culls the whole pool, and keeps the boxes. */
  ghost predicate ScreenFrame(s: Session, qs: seq<Question>, frameCount: nat, width: real, height: real,
                              fb0: seq<Particle>, boxes0: seq<Box>,
                              born: seq<Particle>, fb: seq<Particle>, boxes: seq<Box>)
    reads fb0, born
  {
    match s.state
    case Start => born == [] && fb == fb0 && boxes == boxes0
    case Quiz =>
      && fb == fb0 + born
      && (FiresResultBurst(s, qs, Frame) ==> Batch(born, ResultBurst(s.score, |qs|)) && boxes == boxes0)
      && (!FiresResultBurst(s, qs, Frame) ==>
            && born == [] && 0 <= s.index < |qs| && |boxes| == |qs[s.index].options|
            && forall i :: 0 <= i < |boxes| ==> boxes[i] == OptionBox(i, width, height))
    case Result =>
      && Built(born, ResultFrameSpawn(s.score, |qs|, frameCount))
      && fb == Survivors(fb0 + born) && boxes == boxes0
  }

  /** The click router: which event a press at (mouseX, mouseY) is, given the
      screen, the pending-answer flag and the option boxes last drawn. */
  function PressEvent(state: GameState, answered: bool, boxes: seq<Box>,
                      mouseX: real, mouseY: real, width: real, height: real): (e: Option<Event>)
    ensures e == Some(StartClicked) <==> state == Start && Contains(StartButton(width, height), mouseX, mouseY)
    ensures e == Some(RestartClicked) <==> state == Result && Contains(RestartButton(width, height), mouseX, mouseY)
    ensures e.Some? && e.value.OptionClicked? <==> state == Quiz && !answered && FirstHit(boxes, mouseX, mouseY).Some?
    ensures e.Some? && e.value.OptionClicked? ==> e.value.i == FirstHit(boxes, mouseX, mouseY).value
    ensures e != Some(Frame)
  {
    match state
    case Start =>
      if Contains(StartButton(width, height), mouseX, mouseY) then Some(StartClicked) else None
    case Quiz =>
      if answered then None
      else (match FirstHit(boxes, mouseX, mouseY)
            case None => None
            case Some(i) => Some(OptionClicked(i)))
    case Result =>
      if Contains(RestartButton(width, height), mouseX, mouseY) then Some(RestartClicked) else None
  }

  lemma DistinctAppend(a: seq<Particle>, b: seq<Particle>)
    requires Distinct(a) && Distinct(b)
    requires forall i :: 0 <= i < |b| ==> b[i] !in a
    ensures Distinct(a + b)
  {
    forall i, j | 0 <= i < j < |a + b|
      ensures (a + b)[i] != (a + b)[j]
    {
      if j >= |a| && i < |a| {
        assert (a + b)[j] == b[j - |a|];
      }
    }
  }

  lemma {:induction false} DistinctSurvivors(s: seq<Particle>)
    requires Distinct(s)
    ensures Distinct(Survivors(s))
  {
    if s != [] {
      DistinctSurvivors(s[1..]);
      SurvivorsMembership(s[1..], s[0]);
      if !s[0].IsDead() {
        DistinctAppend([s[0]], Survivors(s[1..]));
      }
    }
  }

  class Sketch {
    const questions: seq<Question>

    var gameState: GameState
    var currentQuestionIndex: int
    var score: int
    var selectedOption: Selection
    var feedbackTimer: int

    /** The option hit rectangles of the last QUIZ frame drawn. */
    var optionBoxes: seq<Box>

    /** The cursor trail, aged and culled on every frame. */
    var particles: seq<Particle>
    /** Answer bursts and result animations, aged and culled only on RESULT frames. */
    var feedbackParticles: seq<Particle>

    /** The controller fields as one value. */
    function Controller(): Session
      reads this
    {
      Session(gameState, currentQuestionIndex, score, selectedOption, feedbackTimer)
    }

    ghost predicate Valid()
      reads this, particles, feedbackParticles
    {
      && Inv(Controller(), |questions|)
      && PoolOk(particles) && PoolOk(feedbackParticles)
      && forall i :: 0 <= i < |particles| ==> particles[i] !in feedbackParticles
    }

    /** Program start with the question table already read. */
    constructor (questions: seq<Question>)
      ensures Valid() && this.questions == questions
      ensures Controller() == Initial()
      ensures optionBoxes == [] && particles == [] && feedbackParticles == []
    {
      this.questions := questions;
      gameState, currentQuestionIndex, score := Start, 0, 0;
      selectedOption, feedbackTimer := Selection(-1, false, false), 0;
      optionBoxes, particles, feedbackParticles := [], [], [];
    }

    // -------------------------------------------------------------------
    // Spawning

    /** Pushes a batch onto the feedback pool. */
    method PushFeedback(sp: Spawn) returns (ghost born: seq<Particle>)
      requires Valid()
      modifies this`feedbackParticles
      ensures Valid()
      ensures feedbackParticles == old(feedbackParticles) + born && Batch(born, sp)
      ensures forall i :: 0 <= i < |born| ==> fresh(born[i])
    {
      var grown;
      grown, born := PushNew(feedbackParticles, sp.count, sp.explode, sp.rise);
      DistinctAppend(feedbackParticles, born);
      feedbackParticles := grown;
      assert forall i :: 0 <= i < |particles| ==> particles[i] !in born;
    }

    /** Two trail particles at the pointer per mouse move, on any screen. */
    method MouseMoved() returns (ghost born: seq<Particle>)
      requires Valid()
      modifies this`particles
      ensures Valid()
      ensures particles == old(particles) + born && Batch(born, CursorTrail)
      ensures forall i :: 0 <= i < |born| ==> fresh(born[i])
    {
      var grown;
      grown, born := PushNew(particles, CursorTrail.count, CursorTrail.explode, CursorTrail.rise);
      DistinctAppend(particles, born);
      particles := grown;
      assert forall i :: 0 <= i < |born| ==> born[i] !in feedbackParticles;
    }

    /** Thirty exploding particles from the centre of the clicked option. */
    method CreateSelectionEffect(isCorrect: bool) returns (ghost born: seq<Particle>)
      requires Valid()
      modifies this`feedbackParticles
      ensures Valid()
      ensures feedbackParticles == old(feedbackParticles) + born && Batch(born, SelectionBurst)
      ensures forall i :: 0 <= i < |born| ==> fresh(born[i])
    {
      born := PushFeedback(SelectionBurst);
    }

    /** The one-shot burst on entering RESULT, chosen by the score. */
    method CreateResultAnimation() returns (ghost born: seq<Particle>)
      requires Valid()
      modifies this`feedbackParticles
      ensures Valid()
      ensures feedbackParticles == old(feedbackParticles) + born
      ensures Batch(born, ResultBurst(score, |questions|))
      ensures forall i :: 0 <= i < |born| ==> fresh(born[i])
    {
      if BandOf(score, |questions|) == Praise {
        born := PushFeedback(Spawn(200, true, false));
      } else {
        born := PushFeedback(Spawn(100, false, true));
      }
    }

    /** Fifty fireworks on every tenth frame. */
    method PraiseAnimation(frameCount: nat) returns (ghost born: seq<Particle>)
      requires Valid()
      modifies this`feedbackParticles
      ensures Valid()
      ensures feedbackParticles == old(feedbackParticles) + born
      ensures Batch(born, Spawn(if frameCount % 10 == 0 then 50 else 0, true, false))
      ensures forall i :: 0 <= i < |born| ==> fresh(born[i])
    {
      if frameCount % 10 == 0 {
        born := PushFeedback(Spawn(50, true, false));
      } else {
        born := PushFeedback(Spawn(0, true, false));
      }
    }

    /** One rising bubble on every fifth frame. */
    method EncourageAnimation(frameCount: nat) returns (ghost born: seq<Particle>)
      requires Valid()
      modifies this`feedbackParticles
      ensures Valid()
      ensures feedbackParticles == old(feedbackParticles) + born
      ensures Batch(born, Spawn(if frameCount % 5 == 0 then 1 else 0, false, true))
      ensures forall i :: 0 <= i < |born| ==> fresh(born[i])
    {
      if frameCount % 5 == 0 {
        born := PushFeedback(Spawn(1, false, true));
      } else {
        born := PushFeedback(Spawn(0, false, true));
      }
    }

    // -------------------------------------------------------------------
    // Clicks

    /** Grades option `selectedIndex` of the current question. The handler
        calls it only on the QUIZ screen with no answer pending, and the
        current question must exist: the source does not check this and
        relies on the next frame leaving QUIZ before another click comes. */
    method CheckAnswer(selectedIndex: nat) returns (ghost born: seq<Particle>)
      requires Valid()
      requires gameState == Quiz && !selectedOption.answered
      requires 0 <= currentQuestionIndex < |questions| && selectedIndex < |optionBoxes|
      modifies this`score, this`selectedOption, this`feedbackTimer, this`feedbackParticles
      ensures Valid()
      ensures Controller() == Step(old(Controller()), questions, OptionClicked(selectedIndex))
      ensures feedbackParticles == old(feedbackParticles) + born && Batch(born, SelectionBurst)
      ensures forall i :: 0 <= i < |born| ==> fresh(born[i])
    {
      var q := questions[currentQuestionIndex];
      var isCorrect := selectedIndex < |q.options| && q.options[selectedIndex] == q.answer;
      if isCorrect {
        score := score + 1;
      }
      selectedOption := Selection(selectedIndex, isCorrect, true);
      feedbackTimer := 60;
      born := CreateSelectionEffect(isCorrect);
    }

    /** The press handler. On START a press in the start button opens the
        quiz; on QUIZ with no answer pending the first option box under the
        pointer is graded; on RESULT a press in the restart button resets
        the quiz and empties the feedback pool. `threw` is set when the press
        hits an option box left over from the last question, where
        checkAnswer finds no current question and throws before changing
        anything. */
    method MousePressed(mouseX: real, mouseY: real, width: real, height: real)
      returns (threw: bool, ghost born: seq<Particle>)
      requires Valid()
      modifies this`gameState, this`currentQuestionIndex, this`score, this`selectedOption,
               this`feedbackTimer, this`feedbackParticles
      ensures Valid()
      ensures var e := PressEvent(old(gameState), old(selectedOption.answered), old(optionBoxes),
                                  mouseX, mouseY, width, height);
        && threw == (e.Some? && AnswerThrows(old(Controller()), questions, e.value))
        && Controller() == (if e.Some? then Step(old(Controller()), questions, e.value) else old(Controller()))
        && (e == Some(RestartClicked) ==> feedbackParticles == [] && born == [])
        && (e != Some(RestartClicked) ==> feedbackParticles == old(feedbackParticles) + born)
        && (e.Some? && e.value.OptionClicked? && !threw ==> Batch(born, SelectionBurst))
        && (!(e.Some? && e.value.OptionClicked? && !threw) ==> born == [])
      ensures forall i :: 0 <= i < |born| ==> fresh(born[i])
      ensures particles == old(particles) && optionBoxes == old(optionBoxes)
    {
      threw, born := false, [];
      if gameState == Start {
        var buttonX := width / 2.0 - 100.0;
        var buttonY := height / 2.0;
        var buttonW := 200.0;
        var buttonH := 50.0;
        if mouseX > buttonX && mouseX < buttonX + buttonW && mouseY > buttonY && mouseY < buttonY + buttonH {
          gameState := Quiz;
        }
      } else if gameState == Quiz && !selectedOption.answered {
        var hit := FindHit(optionBoxes, mouseX, mouseY);
        if hit.Some? {
          if 0 <= currentQuestionIndex < |questions| {
            born := CheckAnswer(hit.value);
          } else {
            threw := true;
          }
        }
      } else if gameState == Result {
        var buttonX := width / 2.0 - 100.0;
        var buttonY := height * 0.75;
        var buttonW := 200.0;
        var buttonH := 50.0;
        if mouseX > buttonX && mouseX < buttonX + buttonW && mouseY > buttonY && mouseY < buttonY + buttonH {
          currentQuestionIndex := 0;
          score := 0;
          feedbackParticles := [];
          gameState := Start;
        }
      }
    }

    // -------------------------------------------------------------------
    // Frames

    /** The cursor trail of every frame: each trail particle is updated once
        and the dead ones are removed. */
    method DrawCursorEffect()
      requires Valid()
      modifies this`particles, particles
      ensures Valid()
      ensures forall i :: 0 <= i < |old(particles)| ==>
                old(particles)[i].lifespan == old(particles[i].lifespan) - Decay
      ensures particles == Survivors(old(particles))
      ensures forall i :: 0 <= i < |feedbackParticles| ==>
                feedbackParticles[i].lifespan == old(feedbackParticles[i].lifespan)
    {
      assert forall i :: 0 <= i < |feedbackParticles| ==> feedbackParticles[i] !in particles;
      particles := UpdateAndCull(particles);
      DistinctSurvivors(old(particles));
      SurvivorsAlive(old(particles));
      forall i | 0 <= i < |particles|
        ensures particles[i] !in feedbackParticles
      {
        SurvivorsMembership(old(particles), particles[i]);
      }
    }

    /** The state part of a QUIZ frame: past the last question switch to
        RESULT and fire the result burst; otherwise lay out the option boxes
        of the current question and run the feedback timer. Feedback
        particles are neither updated nor culled here. */
    method DrawQuizScreen(width: real, height: real) returns (ghost born: seq<Particle>)
      requires Valid() && gameState == Quiz
      modifies this`gameState, this`currentQuestionIndex, this`selectedOption, this`feedbackTimer,
               this`optionBoxes, this`feedbackParticles
      ensures Valid()
      ensures Controller() == Step(old(Controller()), questions, Frame)
      ensures feedbackParticles == old(feedbackParticles) + born
      ensures FiresResultBurst(old(Controller()), questions, Frame) ==>
                Batch(born, ResultBurst(score, |questions|)) && optionBoxes == old(optionBoxes)
      ensures !FiresResultBurst(old(Controller()), questions, Frame) ==>
                born == [] &&
                |optionBoxes| == |questions[old(currentQuestionIndex)].options| &&
                forall i :: 0 <= i < |optionBoxes| ==> optionBoxes[i] == OptionBox(i, width, height)
      ensures forall i :: 0 <= i < |born| ==> fresh(born[i])
    {
      born := [];
      if currentQuestionIndex >= |questions| {
        gameState := Result;
        born := CreateResultAnimation();
        return;
      }
      var q := questions[currentQuestionIndex];
      optionBoxes := LayoutOptions(|q.options|, width, height);
      if selectedOption.answered {
        feedbackTimer := feedbackTimer - 1;
        if feedbackTimer <= 0 {
          selectedOption := selectedOption.(answered := false);
          currentQuestionIndex := currentQuestionIndex + 1;
        }
      }
    }

    /** The feedback loop of a RESULT frame: each feedback particle is
        updated once and the dead ones are removed. */
    method UpdateFeedbackParticles()
      requires Valid()
      modifies this`feedbackParticles, feedbackParticles
      ensures Valid()
      ensures forall i :: 0 <= i < |old(feedbackParticles)| ==>
                old(feedbackParticles)[i].lifespan == old(feedbackParticles[i].lifespan) - Decay
      ensures feedbackParticles == Survivors(old(feedbackParticles))
      ensures forall i :: 0 <= i < |particles| ==> particles[i].lifespan == old(particles[i].lifespan)
    {
      assert forall i :: 0 <= i < |particles| ==> particles[i] !in feedbackParticles;
      feedbackParticles := UpdateAndCull(feedbackParticles);
      DistinctSurvivors(old(feedbackParticles));
      SurvivorsAlive(old(feedbackParticles));
      forall i | 0 <= i < |particles|
        ensures particles[i] !in feedbackParticles
      {
        SurvivorsMembership(old(feedbackParticles), particles[i]);
      }
    }

    /** The state part of a RESULT frame: the band's recurring spawn, then
        every feedback particle, the new ones included, is updated once and
        the dead ones are removed. */
    method DrawResultScreen(frameCount: nat) returns (ghost born: seq<Particle>)
      requires Valid() && gameState == Result
      modifies this`feedbackParticles, feedbackParticles
      ensures Valid()
      ensures Built(born, ResultFrameSpawn(score, |questions|, frameCount))
      ensures forall i :: 0 <= i < |born| ==> fresh(born[i])
      ensures forall i :: 0 <= i < |old(feedbackParticles)| ==>
                old(feedbackParticles)[i].lifespan == old(feedbackParticles[i].lifespan) - Decay
      ensures forall i :: 0 <= i < |born| ==> born[i].lifespan == InitialLifespan - Decay
      ensures feedbackParticles == Survivors(old(feedbackParticles) + born)
      ensures forall i :: 0 <= i < |particles| ==> particles[i].lifespan == old(particles[i].lifespan)
    {
      if BandOf(score, |questions|) == Praise {
        born := PraiseAnimation(frameCount);
      } else {
        born := EncourageAnimation(frameCount);
      }
      ghost var pool := feedbackParticles;
      assert forall i :: 0 <= i < |old(feedbackParticles)| ==> pool[i] == old(feedbackParticles)[i];
      assert forall i :: 0 <= i < |born| ==> pool[|old(feedbackParticles)| + i] == born[i];
      UpdateFeedbackParticles();
    }

    /** The screen part of draw(), dispatched on the current screen. */
    method DrawScreen(frameCount: nat, width: real, height: real) returns (ghost born: seq<Particle>)
      requires Valid()
      modifies this`gameState, this`currentQuestionIndex, this`selectedOption, this`feedbackTimer,
               this`optionBoxes, this`feedbackParticles, feedbackParticles
      ensures Valid()
      ensures Controller() == Step(old(Controller()), questions, Frame)
      ensures forall i :: 0 <= i < |particles| ==> particles[i].lifespan == old(particles[i].lifespan)
      ensures ScreenFrame(old(Controller()), questions, frameCount, width, height,
                          old(feedbackParticles), old(optionBoxes), born, feedbackParticles, optionBoxes)
      ensures forall i :: 0 <= i < |old(feedbackParticles)| ==>
                old(feedbackParticles)[i].lifespan ==
                old(feedbackParticles[i].lifespan) - (if old(gameState) == Result then Decay else 0)
      ensures old(gameState) == Result ==> forall i :: 0 <= i < |born| ==> born[i].lifespan == InitialLifespan - Decay
      ensures forall i :: 0 <= i < |born| ==> fresh(born[i])
    {
      born := [];
      match gameState {
        case Start =>
        case Quiz =>
          born := DrawQuizScreen(width, height);
        case Result =>
          born := DrawResultScreen(frameCount);
      }
    }

    /** One call of draw(): the screen's frame, then the cursor trail. */
    method Draw(frameCount: nat, width: real, height: real) returns (ghost born: seq<Particle>)
      requires Valid()
      modifies this`gameState, this`currentQuestionIndex, this`selectedOption, this`feedbackTimer,
               this`optionBoxes, this`particles, this`feedbackParticles, particles, feedbackParticles
      ensures Valid()
      ensures Controller() == Step(old(Controller()), questions, Frame)
      ensures particles == Survivors(old(particles))
      ensures forall i :: 0 <= i < |old(particles)| ==>
                old(particles)[i].lifespan == old(particles[i].lifespan) - Decay
      ensures ScreenFrame(old(Controller()), questions, frameCount, width, height,
                          old(feedbackParticles), old(optionBoxes), born, feedbackParticles, optionBoxes)
      ensures forall i :: 0 <= i < |old(feedbackParticles)| ==>
                old(feedbackParticles)[i].lifespan ==
                old(feedbackParticles[i].lifespan) - (if old(gameState) == Result then Decay else 0)
      ensures old(gameState) == Result ==> forall i :: 0 <= i < |born| ==> born[i].lifespan == InitialLifespan - Decay
      ensures forall i :: 0 <= i < |born| ==> fresh(born[i])
    {
      born := DrawScreen(frameCount, width, height);
      DrawCursorEffect();
    }
  }
}
