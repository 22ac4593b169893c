# Memory game round engine in Dafny

A model of the round and score logic of a "Simon says" memory game for
Android. Each round, the game flashes a random sequence of 3 to 5 panels,
each numbered 1 to 4. The player then repeats the sequence by clicking the
panels. Each click appends the panel's digit to the answer:

- An answer equal to the target wins. The score goes up by one, the best
  score is raised and stored when the new score beats it, and a new round
  starts.
- An answer that differs from the target and has reached its length loses.
  The score drops to 0, input is disabled, and a new round starts after a
  short flourish.

A wrong digit before the last position is only noticed once the answer
reaches the target's length.

The project has three modules:

- `Panels` (panels.dfy) holds the panel numbers, the views a click can come
  from, the digit each view enters, and what a valid target is.
- `Round` (round.dfy) holds the game state as a value (`State`). It has one
  function per transition: `Start`, `RecordWin`, `RecordLoss`, `Tap` and
  `Click`. It also holds the invariant `Inv` and the lemmas about runs of
  clicks: entering the whole target wins, a wrong answer of full length
  loses, and no run of events can break the invariant or lower the best
  score.
- `Engine` (engine.dfy) holds the class `MemoryGame`. It has the activity's
  fields and handlers, which update the state in place. Each handler is
  proved equal to the matching `Round` function through the ghost
  `Snapshot()`. `StartRound` builds the target with a loop that appends one
  panel per flash.

The random draws come in as parameters. `picks` holds the panel numbers the
generator drew, one per flash, so its length is the drawn round length. The
bounds of the generator (length 3 to 5, each panel 1 to 4) are
preconditions. The best score kept in storage is the ghost field
`persisted`. Its initial value is the `storedBest` argument of the
constructor.

Two behaviours of the activity are kept as written:

- Any view other than the first three panels enters digit 4. Such a click is
  not rejected.
- A mismatch is not detected early. The round is lost only when the answer
  reaches the target's length.

## Model

| member | source | states |
|---|---|---|
| `Panels.DigitOf` | app/src/main/java/buddy/code/memorygame/MainActivity.kt:143-149 | a click always enters a panel number in 1..4; any view that is not a panel enters 4 |
| `Panels.PanelView` | app/src/main/java/buddy/code/memorygame/MainActivity.kt:91-96 | the panel lit for a drawn number is always one of the four panels, and clicking it enters that number |
| `Panels.EveryPanelHasAView` | app/src/main/java/buddy/code/memorygame/MainActivity.kt:143-149 | for every panel number p, clicking the panel that flashes for p enters p, and a panel view flashes for p exactly when its digit is p |
| `Panels.FlashedPanelsEnterTarget` | app/src/main/java/buddy/code/memorygame/MainActivity.kt:86-96 | clicking, in order, the panels that flashed for a target enters exactly that target |
| `Panels.PanelViewsAreDistinguished` | app/src/main/java/buddy/code/memorygame/MainActivity.kt:143-149 | two panel views enter the same digit exactly when they are the same view |
| `Round.Initial` | app/src/main/java/buddy/code/memorygame/MainActivity.kt:20-39 | at creation the score is 0 and the best score is the stored one, so score ≤ best = stored |
| `Round.Start` | app/src/main/java/buddy/code/memorygame/MainActivity.kt:81-111 | starting a round replaces the target with the generated one, empties the answer and enables input; score, best and stored scores are unchanged; with a valid target the full invariant follows from score ≤ best = stored alone |
| `Round.RecordWin` | app/src/main/java/buddy/code/memorygame/MainActivity.kt:157-163 | the score rises by exactly 1; best becomes max(old best, new score); the stored value changes only when the new score beats the old best, and then equals it; score ≤ best = stored is kept |
| `Round.RecordLoss` | app/src/main/java/buddy/code/memorygame/MainActivity.kt:113-118 | a loss sets the score to 0 and disables input; best and stored scores are unchanged |
| `Round.Tap` | app/src/main/java/buddy/code/memorygame/MainActivity.kt:143-167 | entering a panel digit keeps the invariant (score ≤ best = stored, valid target, answer shorter than target while input is enabled) and never lowers the best score |
| `Round.Click` | app/src/main/java/buddy/code/memorygame/MainActivity.kt:136-169 | a click keeps the invariant and never lowers the best score; it is ignored, with no state change, exactly when there is no view |
| `Round.TapWins` | app/src/main/java/buddy/code/memorygame/MainActivity.kt:151-164 | when the answer equals the target the outcome is Won, the score goes up by 1, best = max(old best, new score), the stored value is written only on a new best, and a new round starts with an empty answer |
| `Round.TapLoses` | app/src/main/java/buddy/code/memorygame/MainActivity.kt:165-166 | when the answer differs from the target and has reached its length the outcome is Lost, the score is 0, best and stored scores are unchanged, input is disabled |
| `Round.TapContinues` | app/src/main/java/buddy/code/memorygame/MainActivity.kt:151-167 | while the answer is still shorter than the target, only the answer changes (grows by the digit), even after a wrong digit |
| `Round.ClickEntersOnePanel` | app/src/main/java/buddy/code/memorygame/MainActivity.kt:143-149 | a click on a view that leaves the round in progress appends exactly that view's digit, and the answer holds only panel numbers |
| `Round.FeedRestOfTargetWins` | app/src/main/java/buddy/code/memorygame/MainActivity.kt:143-164 | from a correct partial answer, entering the rest of the target gives InProgress for each click but the last and Won on the last, ending in the next round with the win recorded |
| `Round.FeedTargetWins` | app/src/main/java/buddy/code/memorygame/MainActivity.kt:143-164 | from a fresh round, entering exactly the target gives InProgress on each proper prefix and Won on the last click; score +1, best = max(old best, new score), next round started |
| `Round.ClickingFlashedPanelsWins` | app/src/main/java/buddy/code/memorygame/MainActivity.kt:86-164 | from a fresh round, clicking the panels that flashed, in order, gives InProgress until the last click, which wins with one more point |
| `Round.FeedRestMismatchLoses` | app/src/main/java/buddy/code/memorygame/MainActivity.kt:143-166 | from a partial answer, digits that complete an answer of the target's length that is not the target give InProgress until the last click, which loses |
| `Round.FeedMismatchLoses` | app/src/main/java/buddy/code/memorygame/MainActivity.kt:143-166 | from a fresh round, as many digits as the target has but not the target: InProgress until the last click, then Lost with score 0 and best and stored scores unchanged |
| `Round.RunKeepsInv` | app/src/main/java/buddy/code/memorygame/MainActivity.kt:81-169 | over any sequence of clicks and round restarts the invariant holds (best ≥ score, the stored value equals best) and the best score never decreases |
| `Round.WinScenario` | app/src/main/java/buddy/code/memorygame/MainActivity.kt:151-164 | best 0, target [2,4,1], clicks 2,4,1: outcomes InProgress, InProgress, Won; score 1, best 1, stored 1 |
| `Round.LossScenario` | app/src/main/java/buddy/code/memorygame/MainActivity.kt:165-166 | best 5, score 3, target [1,1,2,3], clicks 1,1,2,4: Lost on the fourth click, score 0, best and stored 5 |
| `Engine.MemoryGame.constructor` | app/src/main/java/buddy/code/memorygame/MainActivity.kt:33-59 | creation loads the stored best, sets the score to 0 and starts the first round; the invariant holds |
| `Engine.MemoryGame.StartRound` | app/src/main/java/buddy/code/memorygame/MainActivity.kt:81-111 | the loop builds the target one drawn panel per flash; afterwards the state is `Start(old state, picks)`: empty answer, the drawn target, input enabled, scores untouched |
| `Engine.MemoryGame.Lose` | app/src/main/java/buddy/code/memorygame/MainActivity.kt:113-118 | from a state whose answer has reached the target's length without matching it, the new state is `RecordLoss(old state)`: score 0, input disabled, everything else unchanged; the invariant holds afterwards |
| `Engine.MemoryGame.OnClick` | app/src/main/java/buddy/code/memorygame/MainActivity.kt:136-169 | the new state and the returned outcome are exactly `Click(old state, view, nextPicks)`, and the invariant is kept |

## Left out

- Sounds are not modelled. This covers the `MediaPlayer` cues, the background
  music with its volume, and their release in `onDestroy`. They are audio
  output only.
- Timing is not modelled. This covers the coroutine launches and the delays
  (the 400 ms gap, the 1000 ms flash and the 2000 ms pause after a loss).
  `StartRound` builds the whole target before it enables input. The source
  keeps the buttons disabled during playback, so no click ever sees a
  partial target.
- The lose flourish across the buttons and the pause before the next round
  are not modelled. Only the score reset and the disabled input are. The
  caller then starts the next round by calling `StartRound`, which is the
  `CooldownEnded` event in `Round.Run`.
- Backgrounds, toasts, score labels and the orientation setting are not
  modelled. They are display only. Enabling and disabling the buttons is
  kept as the `inputEnabled` flag.
- Storage calls (`saveBestScore`, `getBestScore`) are not modelled. The stored
  value is the ghost field `persisted`, and the value read at start is the
  constructor's `storedBest`. The stored value is taken to be non-negative,
  since only scores are ever saved.
- The random generator is not modelled. The drawn values are the `picks`
  parameter, and its bounds are a precondition.
- StartActivity.kt is not part of this model. It only opens the game screen.
- Engine.MemoryGame.OnClick: the score is an unbounded `nat`, so the model
  does not wrap at 2^31 − 1 after that many consecutive wins.
