/** The round and score state machine of the memory game, as values: the
    state the activity keeps between events and the transition each event
    causes. The class in module Engine is proved against these functions. */
module Round {
  import opened Panels

  /** What a click leads to. `Ignored` is a click without a view. */
  datatype Outcome = Ignored | InProgress | Won | Lost

  /** The fields the game logic reads and writes. */
  datatype State = State(
    target: seq<int>,    // `result`: the panels flashed this round
    answer: seq<int>,    // `userAnswer`: the panels clicked so far
    score: nat,
    best: nat,           // `bestScore`
    persisted: nat,      // the value stored under "best_score"
    inputEnabled: bool)  // whether the panel buttons are enabled

  function Max(a: int, b: int): (m: int) {
    if a >= b then a else b
  }

  /** The score bookkeeping invariant: the best score bounds the current one
      and is the value in storage. */
  predicate ScoreInv(s: State) {
    s.score <= s.best && s.persisted == s.best
  }

  /** The invariant of every state between events. While input is enabled
      the answer is still shorter than the target; once a round is lost
      (input disabled until the next round) the answer has reached the
      target's length and differs from it. */
  predicate Inv(s: State) {
    && ScoreInv(s)
    && ValidTarget(s.target)
    && AllPanels(s.answer)
    && (s.inputEnabled ==> |s.answer| < |s.target|)
    && (!s.inputEnabled ==> |s.answer| >= |s.target| && s.answer != s.target)
  }

  /** The state `onCreate` sets up before the first round: score 0 and the
      best score read back from storage. */
  function Initial(storedBest: nat): (s: State)
    ensures s.score == 0 && s.best == storedBest && ScoreInv(s)
  {
    State([], [], 0, storedBest, storedBest, false)
  }

  /** `startGame` with the freshly generated target `t`: the answer is
      cleared, the target replaced, and input enabled once playback ends. */
  function Start(s: State, t: seq<int>): (r: State)
    ensures r.target == t && r.answer == [] && r.inputEnabled
    ensures r.score == s.score && r.best == s.best && r.persisted == s.persisted
    ensures ValidTarget(t) && ScoreInv(s) ==> Inv(r)
  {
    s.(target := t, answer := [], inputEnabled := true)
  }

  /** The win path's score bookkeeping. */
  function RecordWin(s: State): (r: State)
    ensures r.score == s.score + 1
    ensures r.best == Max(s.best, r.score)
    ensures r.persisted != s.persisted ==> r.score > s.best
    ensures r.score > s.best ==> r.persisted == r.score
    ensures ScoreInv(s) ==> ScoreInv(r)
    ensures r.target == s.target && r.answer == s.answer && r.inputEnabled == s.inputEnabled
  {
    var score := s.score + 1;
    if score > s.best then s.(score := score, best := score, persisted := score)
    else s.(score := score)
  }

  /** The state change of `loseAnimation`: the score drops to 0 and input is
      disabled; best and stored scores are untouched. */
  function RecordLoss(s: State): (r: State)
    ensures r.score == 0 && !r.inputEnabled
    ensures r.best == s.best && r.persisted == s.persisted
    ensures ScoreInv(s) ==> ScoreInv(r)
  {
    s.(score := 0, inputEnabled := false)
  }

  /** A click that enters digit `d`; `next` is the target of the round a win
      starts. Won when the answer equals the target, lost when it does not
      and is at least as long, otherwise the round goes on. */
  function Tap(s: State, d: int, next: seq<int>): (r: (State, Outcome))
    ensures Inv(s) && IsPanel(d) && ValidTarget(next) ==> Inv(r.0)
    ensures r.0.best >= s.best
    ensures r.1 != Ignored
  {
    var a := s.answer + [d];
    if a == s.target then (Start(RecordWin(s.(answer := a)), next), Won)
    else if |a| >= |s.target| then (RecordLoss(s.(answer := a)), Lost)
    else (s.(answer := a), InProgress)
  }

  /** `onClick`: a click without a view does nothing; otherwise the view's
      digit is entered. */
  function Click(s: State, view: Option<View>, next: seq<int>): (r: (State, Outcome))
    ensures Inv(s) && ValidTarget(next) ==> Inv(r.0)
    ensures r.0.best >= s.best
    ensures r.1 == Ignored <==> view.None?
    ensures view.None? ==> r.0 == s
  {
    match view
    case None => (s, Ignored)
    case Some(v) => Tap(s, DigitOf(v), next)
  }

  /** The answer equals the target after the click: the round is won, the
      score rises by exactly one, the best score becomes the larger of the
      old best and the new score, the stored value changes only when the
      old best is beaten, and a new round with target `next` starts. */
  lemma TapWins(s: State, d: int, next: seq<int>)
    requires s.answer + [d] == s.target
    ensures var r := Tap(s, d, next);
      && r.1 == Won
      && r.0.score == s.score + 1
      && r.0.best == Max(s.best, s.score + 1)
      && (s.score + 1 > s.best ==> r.0.persisted == s.score + 1)
      && (s.score + 1 <= s.best ==> r.0.persisted == s.persisted)
      && r.0.answer == [] && r.0.target == next && r.0.inputEnabled
  {
  }

  /** The answer differs from the target but has reached its length: the
      round is lost, the score drops to 0, best and stored scores stay. */
  lemma TapLoses(s: State, d: int, next: seq<int>)
    requires s.answer + [d] != s.target && |s.answer| + 1 >= |s.target|
    ensures var r := Tap(s, d, next);
      && r.1 == Lost
      && r.0.score == 0
      && r.0.best == s.best && r.0.persisted == s.persisted
      && r.0.answer == s.answer + [d] && r.0.target == s.target
      && !r.0.inputEnabled
  {
  }

  /** The answer is still shorter than the target: nothing changes but the
      answer growing by the clicked digit, even when it already strays from
      the target (a mismatch is only noticed at full length). */
  lemma TapContinues(s: State, d: int, next: seq<int>)
    requires |s.answer| + 1 < |s.target|
    ensures Tap(s, d, next) == (s.(answer := s.answer + [d]), InProgress)
  {
  }

  /** A click on panel view `v` enters exactly its digit, a panel number. */
  lemma ClickEntersOnePanel(s: State, v: View, next: seq<int>)
    requires Inv(s)
    ensures var r := Click(s, Some(v), next);
      r.1 == InProgress ==> r.0.answer == s.answer + [DigitOf(v)] && AllPanels(r.0.answer)
  {
  }

  /** `n` outcomes of a round still in progress. */
  function Progress(n: nat): (os: seq<Outcome>) {
    seq(n, _ => InProgress)
  }

  /** One more click in progress in front of `n` of them. */
  lemma ProgressCons(n: nat)
    ensures [InProgress] + Progress(n) == Progress(n + 1)
  {
  }

  /** Clicks entering `taps` one by one; the final state and every outcome. */
  function Feed(s: State, taps: seq<int>, next: seq<int>): (r: (State, seq<Outcome>))
    decreases |taps|
  {
    if taps == [] then (s, [])
    else
      var step := Tap(s, taps[0], next);
      var rest := Feed(step.0, taps[1..], next);
      (rest.0, [step.1] + rest.1)
  }

  /** Entering the rest of the target from a correct partial answer: every
      click but the last is in progress, the last wins. */
  lemma {:induction false} FeedRestOfTargetWins(s: State, next: seq<int>)
    requires |s.answer| < |s.target| && s.answer == s.target[..|s.answer|]
    ensures Feed(s, s.target[|s.answer|..], next)
         == (Start(RecordWin(s.(answer := s.target)), next),
             Progress(|s.target| - |s.answer| - 1) + [Won])
    decreases |s.target| - |s.answer|
  {
    var k := |s.answer|;
    var d := s.target[k];
    var rest := s.target[k..];
    assert rest[0] == d;
    assert s.answer + [d] == s.target[..k + 1];
    if k + 1 == |s.target| {
      assert s.target[..k + 1] == s.target;
      assert rest == [d];
      assert Tap(s, d, next) == (Start(RecordWin(s.(answer := s.target)), next), Won);
      assert rest[1..] == [];
      assert Feed(Tap(s, d, next).0, [], next) == (Tap(s, d, next).0, []);
      assert Feed(s, rest, next) == (Tap(s, d, next).0, [Won] + []);
      assert [Won] + [] == [Won];
      assert Progress(0) + [Won] == [Won];
    } else {
      var s1 := s.(answer := s.answer + [d]);
      assert Tap(s, d, next) == (s1, InProgress);
      assert rest[1..] == s1.target[|s1.answer|..];
      FeedRestOfTargetWins(s1, next);
      var tail := Feed(s1, rest[1..], next);
      assert Feed(s, rest, next) == (tail.0, [InProgress] + tail.1);
      assert s1.(answer := s1.target) == s.(answer := s.target);
      ProgressCons(|s.target| - k - 2);
      assert [InProgress] + (Progress(|s.target| - k - 2) + [Won])
          == Progress(|s.target| - k - 1) + [Won];
    }
  }

  /** Entering exactly the target from a fresh round: in progress after each
      proper prefix, won on the last click, one more point, and a new round
      with target `next`. */
  lemma FeedTargetWins(s: State, next: seq<int>)
    requires s.answer == [] && |s.target| > 0
    ensures var r := Feed(s, s.target, next);
      && r.1 == Progress(|s.target| - 1) + [Won]
      && r.0.score == s.score + 1
      && r.0.best == Max(s.best, s.score + 1)
      && r.0.answer == [] && r.0.target == next && r.0.inputEnabled
  {
    assert s.target[..0] == [] && s.target[0..] == s.target;
    FeedRestOfTargetWins(s, next);
  }

  /** Clicking, from a fresh round, the panels that flashed for the target
      wins the round on the last click. */
  lemma ClickingFlashedPanelsWins(s: State, next: seq<int>)
    requires s.answer == [] && ValidTarget(s.target)
    ensures var r := Feed(s, Digits(Flashed(s.target)), next);
      r.1 == Progress(|s.target| - 1) + [Won] && r.0.score == s.score + 1
  {
    FlashedPanelsEnterTarget(s.target);
    FeedTargetWins(s, next);
  }

  /** Entering `rest` from a partial answer, when the completed answer would
      have the target's length but differ from it: in progress until the
      last click, which loses. */
  lemma {:induction false} FeedRestMismatchLoses(s: State, rest: seq<int>, next: seq<int>)
    requires rest != [] && |s.answer| + |rest| == |s.target|
    requires s.answer + rest != s.target
    ensures Feed(s, rest, next)
         == (RecordLoss(s.(answer := s.answer + rest)), Progress(|rest| - 1) + [Lost])
    decreases |rest|
  {
    var d := rest[0];
    assert [d] + rest[1..] == rest;
    assert s.answer + [d] + rest[1..] == s.answer + rest;
    if |rest| == 1 {
      assert rest == [d];
      assert Tap(s, d, next) == (RecordLoss(s.(answer := s.answer + rest)), Lost);
      assert rest[1..] == [];
      assert Feed(Tap(s, d, next).0, [], next) == (Tap(s, d, next).0, []);
      assert Feed(s, rest, next) == (Tap(s, d, next).0, [Lost] + []);
      assert [Lost] + [] == [Lost];
      assert Progress(0) + [Lost] == [Lost];
    } else {
      var s1 := s.(answer := s.answer + [d]);
      assert |s1.answer| < |s.target|;
      assert Tap(s, d, next) == (s1, InProgress);
      FeedRestMismatchLoses(s1, rest[1..], next);
      var tail := Feed(s1, rest[1..], next);
      assert Feed(s, rest, next) == (tail.0, [InProgress] + tail.1);
      assert s1.answer + rest[1..] == s.answer + rest;
      ProgressCons(|rest| - 2);
      assert [InProgress] + (Progress(|rest| - 2) + [Lost]) == Progress(|rest| - 1) + [Lost];
    }
  }

  /** Entering as many digits as the target has, not all of them right, from
      a fresh round: in progress until the last click, which loses; the
      score drops to 0 and the best and stored scores stay. */
  lemma FeedMismatchLoses(s: State, taps: seq<int>, next: seq<int>)
    requires s.answer == [] && |taps| == |s.target| > 0 && taps != s.target
    ensures var r := Feed(s, taps, next);
      && r.1 == Progress(|taps| - 1) + [Lost]
      && r.0.score == 0 && r.0.best == s.best && r.0.persisted == s.persisted
      && !r.0.inputEnabled
  {
    assert s.answer + taps == taps;
    FeedRestMismatchLoses(s, taps, next);
  }

  /** What the activity can see happen: a click (with the target a win would
      start), or the end of the pause after a loss, which starts a round. */
  datatype Event =
    | Clicked(view: Option<View>, next: seq<int>)
    | CooldownEnded(next: seq<int>)

  function Step(s: State, e: Event): (r: State) {
    match e
    case Clicked(view, next) => Click(s, view, next).0
    case CooldownEnded(next) => Start(s, next)
  }

  function Run(s: State, events: seq<Event>): (r: State)
    decreases |events|
  {
    if events == [] then s else Run(Step(s, events[0]), events[1..])
  }

  /** Over any run of events with generated targets the invariant holds
      throughout (so best >= score and storage holds the best score), and
      the best score never decreases. */
  lemma {:induction false} RunKeepsInv(s: State, events: seq<Event>)
    requires Inv(s)
    requires forall i :: 0 <= i < |events| ==> ValidTarget(events[i].next)
    ensures Inv(Run(s, events)) && Run(s, events).best >= s.best
    decreases |events|
  {
    if events != [] {
      var s1 := Step(s, events[0]);
      assert Inv(s1) && s1.best >= s.best;
      RunKeepsInv(s1, events[1..]);
    }
  }

  /** Best 0, score 0, target [2,4,1], clicks 2,4,1: won, score 1, best 1,
      stored best 1. */
  lemma WinScenario(next: seq<int>)
    ensures var r := Feed(Start(Initial(0), [2, 4, 1]), [2, 4, 1], next);
      && r.1 == [InProgress, InProgress, Won]
      && r.0.score == 1 && r.0.best == 1 && r.0.persisted == 1
  {
    FeedTargetWins(Start(Initial(0), [2, 4, 1]), next);
  }

  /** Best 5, score 3, target [1,1,2,3], clicks 1,1,2,4: lost on the fourth
      click, score 0, best 5. */
  lemma LossScenario(next: seq<int>)
    ensures var s := State([1, 1, 2, 3], [], 3, 5, 5, true);
      var r := Feed(s, [1, 1, 2, 4], next);
      && r.1 == [InProgress, InProgress, InProgress, Lost]
      && r.0.score == 0 && r.0.best == 5 && r.0.persisted == 5
  {
    FeedMismatchLoses(State([1, 1, 2, 3], [], 3, 5, 5, true), [1, 1, 2, 4], next);
  }
}
