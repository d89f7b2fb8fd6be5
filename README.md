# Quiz sketch: controller and particle pools

This project models the logic of a single-file p5.js quiz (`sketch.js`). The quiz moves
between three screens: START, QUIZ and RESULT. Each answer opens a 60-frame feedback
window, and the result screen picks one of three bands from the score. Around the quiz run
particle effects: a cursor trail, bursts when an answer is given, and result-screen
animations. The model keeps the integer part of those effects: the particle kind, the
lifespan (255, minus 4 per update, dead below 0), the number of particles each trigger
pushes, and the reverse splice loop that culls a pool.

Modules:

- `Particles` (`particles.dfy`) holds the `Particle` class, with `lifespan` as a mutable
  field and `kind` as a constant. It also holds the push loop (`PushNew`) and the cull
  loop (`UpdateAndCull`). The cull loop is proved equal to the order-preserving filter
  `Survivors`.
- `Layout` (`layout.dfy`) holds the buttons and option boxes on real coordinates, strict
  containment, and the click handler's first-hit scan (`FindHit`).
- `QuizMachine` (`quiz_machine.dfy`) describes the controller variables (`gameState`,
  `currentQuestionIndex`, `score`, `selectedOption`, `feedbackTimer`) as a `Session`
  value. `Step` is a transition function over the events start click, option click,
  restart click and frame. This module also holds the result bands and the spawn counts,
  and the lemmas about runs of events.
- `Sketch` (`sketch.dfy`) is the program itself. Its module-level variables are the fields
  of class `Sketch`, and its callbacks are methods that update those fields in place.
  Every handler keeps `Valid()` and is proved to move the controller fields exactly as
  `Step` does for its event. `Valid()` says: the controller invariant holds, the two
  pools are disjoint, no particle is in a pool twice, and no dead particle is left in a
  pool.

The canvas size, the pointer position and `frameCount` are method parameters. The
question table is a constructor parameter.

Behaviours of `sketch.js` that the model keeps as written:

- Feedback particles age only on RESULT frames: `feedbackParticles` is updated and culled
  only in `drawResultScreen` (sketch.js:185-192). The answer bursts pushed during QUIZ
  stay in the pool, not updated and not culled, until the result screen is shown.
- Answer bursts and result animations share `feedbackParticles`, so a restart empties
  both (sketch.js:246). The cursor trail `particles` is left as it is.
- The option boxes are not recomputed for every click. They are the boxes of the last
  QUIZ frame drawn. Take the frame that closes the feedback window of the last question:
  it raises the index to the number of questions, and the switch to RESULT only happens
  on the next frame. A click in between lands on the old boxes, and `checkAnswer` reads
  a question that does not exist and throws a TypeError before it assigns anything. In
  the model, `Sketch.CheckAnswer` requires a current question. `Sketch.MousePressed`
  returns `threw` for exactly this case and leaves the state unchanged.
  `QuizMachine.AnswerThrows` names the case.
- With no questions, `score / questions.length` is NaN. Both band comparisons are false,
  so the lowest band and the 100-bubble burst are taken. `BandOf` states this as an
  explicit case.

## Model

| member | source | states |
|---|---|---|
| Particles.Particle.IsDead | sketch.js:349-351 | a particle is dead once its lifespan is below zero, so a new particle (lifespan 255) is alive |
| Particles.KindOf | sketch.js:330-338 | a particle is explosive iff `explode` is set, rising iff only `rise` is set, ambient otherwise (explode takes precedence) |
| Particles.Particle.constructor | sketch.js:330-347 | a new particle has lifespan 255 and the kind chosen by its flags |
| Particles.Particle.Update | sketch.js:353-357 | one update takes exactly 4 off the lifespan |
| Particles.LifespanAfterUpdates | sketch.js:353-357 | after k updates the lifespan is the start value minus 4k |
| Particles.LifetimeIs63Updates | sketch.js:340-357 | a new particle is dead (lifespan < 0) after k updates iff k >= 64, so it survives 63 updates and is removed on the 64th |
| Particles.SurvivorsMembership | sketch.js:185-192 | culling keeps a particle iff it was in the pool and is not dead |
| Particles.SurvivorsInOrder | sketch.js:271-279 | the particles kept are a subsequence of the pool: their relative order is unchanged |
| Particles.SurvivorsAlive | sketch.js:271-279 | culling never grows a pool and leaves no dead particle in it |
| Particles.UpdateAndCull | sketch.js:271-279 | the reverse loop with `splice` updates every pooled particle exactly once (lifespan minus 4) and leaves exactly `Survivors` of the pool |
| Particles.UpdateAt | sketch.js:272-277 | one pass of the cull loop at index i: the particle there loses 4, and the pool becomes its first i particles followed by the survivors from i on |
| Particles.PushNew | sketch.js:289-291 | a push loop appends exactly `count` fresh, distinct particles of the requested kind with lifespan 255 and keeps the old pool as prefix |
| Layout.StartButton | sketch.js:218-222 | the start button is 200 by 50, centred horizontally, top edge at half height |
| Layout.RestartButton | sketch.js:238-241 | the restart button is 200 by 50, centred horizontally, top edge at three quarters of the height |
| Layout.OptionBox | sketch.js:111-116 | option box i is 70% of the canvas wide and horizontally centred, 50 high, its top edge 20 above mid-height plus 60 per row |
| Layout.OptionBoxesDisjoint | sketch.js:111-116 | two different option boxes (50 high on a 60 pitch, strict edges) never both contain the pointer |
| Layout.LayoutOptions | sketch.js:110-117 | the option loop produces one box per option, box i at row i of the layout |
| Layout.FirstHit | sketch.js:228-233 | the result is the least index whose box strictly contains the pointer, or none when no box does |
| Layout.FindHit | sketch.js:228-234 | the scan of the click handler returns the first containing box, as `FirstHit` |
| Layout.OptionHitIsTheBoxUnderPointer | sketch.js:111-116 | on the option layout the first hit is the one box under the pointer |
| QuizMachine.Initial | sketch.js:4-12 | the program starts on START with index 0, score 0 and no pending answer |
| QuizMachine.IsCorrect | sketch.js:253-254 | an option is right only when its index names an option whose text equals the answer text, so a right option means the answer text is among the options |
| QuizMachine.AfterAnswer | sketch.js:252-261 | grading raises the score by one iff the option text equals the answer text, otherwise leaves it; it records the selection as answered and sets the timer to 60 |
| QuizMachine.QuizFrame | sketch.js:93-155 | a QUIZ frame never changes the score; it changes the screen only to RESULT and only past the last question; it changes the index only by one, only when a pending answer's timer runs out, and then clears the pending flag |
| QuizMachine.Step | sketch.js:93-261 | an option click never changes the screen or the question; a frame never changes the score; only restart lowers the score; the screen moves only START to QUIZ on a start click, QUIZ to RESULT on a frame, RESULT to START on restart |
| QuizMachine.StepPreservesInv | sketch.js:93-155 | every event keeps: index <= number of questions, 0 <= score <= index + (1 if an answer is pending), a pending answer only on QUIZ with a current question and 1..60 frames left, START at index and score 0, RESULT at the end |
| QuizMachine.OptionClickScores | sketch.js:252-261 | an option click on an unanswered current question scores iff `options[i] == answer`, and opens the 60-frame window on the same question |
| QuizMachine.PendingAnswerIgnoresClicks | sketch.js:227-235 | while an answer is pending an option click changes nothing and cannot reach `checkAnswer` |
| QuizMachine.IndexRisesOnlyWhenFeedbackEnds | sketch.js:149-155 | the index rises only on the QUIZ frame that ends a feedback window, by exactly one, and falls only on restart, to 0 |
| QuizMachine.ResultBurstOnEntry | sketch.js:93-97 | the one-shot result burst fires on an event iff that event takes the quiz into RESULT |
| QuizMachine.RestartResets | sketch.js:242-248 | restart on RESULT sets index 0, score 0 and START, and leaves the selection and the timer as they were |
| QuizMachine.FeedbackCountdown | sketch.js:149-155 | with t frames left, each of the first t-1 frames only decrements the timer, and frame t clears the pending flag and moves to the next question |
| QuizMachine.AnswerHoldsForSixtyFrames | sketch.js:149-155 | after an answer, frames 1 to 59 keep it pending on the same question, and frame 60 ends it with the index one higher |
| QuizMachine.AnswerEachScores | sketch.js:252-261 | answering questions one by one, each followed by its 60 frames, advances the index by the number of picks and adds one point per right pick |
| QuizMachine.PlayEndsOnResult | sketch.js:93-97 | a full game (start, one pick per question, one more frame) ends on RESULT with score equal to the number of right picks, and its last frame fires the result burst |
| QuizMachine.PerfectGameIsPraised | sketch.js:294-300 | a non-empty game answered right throughout scores every question, lands in the praise band and fires the 200-particle explosive burst |
| QuizMachine.BandOf | sketch.js:159-171 | with no questions the band is the lowest; a full score on a non-empty quiz is praise; a score of zero is the lowest band |
| QuizMachine.BandMatchesRatio | sketch.js:159-171 | for n > 0 the band is praise iff score/n >= 0.8, the middle band iff 0.5 <= score/n < 0.8, the lowest iff score/n < 0.5; for n = 0 it is the lowest |
| QuizMachine.ResultBurst | sketch.js:294-306 | the one-shot burst is explosive exactly in the praise band and then 200 particles; otherwise it is 100 rising particles |
| QuizMachine.ResultBurstByRatio | sketch.js:294-306 | the one-shot burst is 200 explosive particles iff score/n >= 0.8 with n > 0, and otherwise 100 rising particles |
| QuizMachine.ResultFrameSpawn | sketch.js:309-325 | a RESULT frame's spawn is explosive exactly in the praise band, rising otherwise, and never more than 50 particles |
| QuizMachine.ResultSpawnByBand | sketch.js:309-325 | a RESULT frame spawns fireworks iff score/n >= 0.8 with n > 0, exactly 50 on frames divisible by 10 and none otherwise; in both lower bands it spawns exactly one rising bubble on frames divisible by 5 and none otherwise |
| QuizMachine.EmptyQuizIsLowBand | sketch.js:159-171 | with no questions the band is the lowest and the burst is 100 rising particles |
| Sketch.PressEvent | sketch.js:215-250 | a press is a start click only on START inside the start button, a restart click only on RESULT inside the restart button, and an option click only on QUIZ with no answer pending, on the first box containing the pointer |
| Sketch.Sketch.constructor | sketch.js:2-15 | the globals start as declared: START, index 0, score 0, no selection, timer 0, no boxes, empty pools |
| Sketch.Sketch.PushFeedback | sketch.js:289-291 | pushing a batch onto the feedback pool appends exactly the batch's count of fresh, distinct particles of its kind at lifespan 255, and keeps the pools disjoint |
| Sketch.Sketch.MouseMoved | sketch.js:281-285 | every mouse move appends exactly two fresh ambient particles to the cursor trail |
| Sketch.Sketch.CreateSelectionEffect | sketch.js:287-292 | an answer appends exactly 30 fresh explosive particles to the feedback pool |
| Sketch.Sketch.CreateResultAnimation | sketch.js:294-307 | the one-shot burst appends the batch `ResultBurst(score, n)` to the feedback pool |
| Sketch.Sketch.PraiseAnimation | sketch.js:309-318 | appends 50 fresh explosive particles on frames divisible by 10 and nothing otherwise |
| Sketch.Sketch.EncourageAnimation | sketch.js:320-325 | appends one fresh rising particle on frames divisible by 5 and nothing otherwise |
| Sketch.Sketch.CheckAnswer | sketch.js:252-267 | with a current question, moves the controller as `Step` does for the option click and appends the 30-particle selection burst |
| Sketch.Sketch.MousePressed | sketch.js:215-250 | moves the controller as `Step` does for the event `PressEvent` names; reports a throw exactly for an option click with no current question; empties the feedback pool on restart; never touches the cursor trail |
| Sketch.Sketch.DrawCursorEffect | sketch.js:271-279 | every frame, each trail particle loses 4 and the trail becomes its survivors; feedback particles are untouched |
| Sketch.Sketch.DrawQuizScreen | sketch.js:92-156 | a QUIZ frame moves the controller as `Step` does for a frame; past the last question it fires the result burst and keeps the old boxes, otherwise it lays out the current question's boxes and pushes nothing; feedback particles are not aged |
| Sketch.Sketch.UpdateFeedbackParticles | sketch.js:185-192 | each feedback particle loses 4 and the pool becomes its survivors; the cursor trail is untouched |
| Sketch.Sketch.DrawResultScreen | sketch.js:158-192 | a RESULT frame pushes the band's recurring batch, then ages the whole feedback pool (new particles included) once and keeps its survivors |
| Sketch.Sketch.DrawScreen | sketch.js:49-60 | dispatches on the screen and moves the controller as `Step` does for a frame; `ScreenFrame` states the rest: START changes no pool and no box; a QUIZ frame with no question left pushes the result burst and keeps the old boxes, any other QUIZ frame lays out the current question's boxes (one per option, box i at row i) and pushes nothing; RESULT pushes the band's batch, ages every old feedback particle by 4 and leaves the new ones at 251, keeps exactly the survivors, and keeps the boxes; off RESULT no feedback particle ages |
| Sketch.Sketch.Draw | sketch.js:46-63 | one frame moves the controller as `Step` does for a frame, changes the feedback pool and the option boxes as `ScreenFrame` says (so the boxes stay those of the last QUIZ frame with a current question), ages each old feedback particle by 4 on RESULT and not at all otherwise, leaves a RESULT frame's new particles at 251, then ages and culls the cursor trail |

## Left out

- Rendering is not modelled: background, text, rectangles, ellipses, hover and feedback colours, and the alpha used by `show()`. The result messages are reduced to the `Band` tag. None of these changes program state.
- CSV loading is not modelled: `preload`, `loadTable` and the row loop of `setup`. The question table is a parameter of the `Sketch` constructor.
- Particle position, velocity, acceleration and colour are not modelled. They are floating-point values or come from `random`. `Particles.Particle.Update` states only the lifespan change.
- The random positions and colours of the spawn helpers are not modelled; only their counts and kinds are.
- `windowResized` and `resizeCanvas` are not modelled. Canvas width and height are passed to each method.
- Canvas, button, option box and pointer coordinates are reals, while the source computes them in doubles (`width * 0.7`, `height * 0.75`). A pointer exactly on an edge that rounding moves may be inside a box in one and outside it in the other.
- The p5 globals `frameCount`, `mouseX`, `mouseY`, `width` and `height` are parameters.
- QuizMachine.BandOf compares `5*score >= 4*n` and `2*score >= n` exactly. The source compares the double `score / n` with 0.8 and 0.5, and the two agree unless n is large enough (beyond 2^50) for the quotient to round across 0.8.
- Sketch.Sketch.MousePressed returns `threw` for the TypeError raised in `checkAnswer`. It does not model the error reaching the console.
- Each pool is a `seq` field that handlers reassign. No other name refers to the JavaScript arrays, so reassigning the field behaves the same as the in-place `push` and `splice`.
