/** The game activity's state and the handlers that change it in place. Each
    handler is proved to do what the matching function of module Round says. */
module Engine {
  import opened Panels
  import opened Round

  class MemoryGame {
    var target: seq<int>    // `result`
    var answer: seq<int>    // `userAnswer`
    var score: nat
    var best: nat           // `bestScore`
    var inputEnabled: bool  // the panel buttons' enabled flag
    /** The value stored under "best_score". */
    ghost var persisted: nat

    ghost function Snapshot(): State
      reads this
    {
      State(target, answer, score, best, persisted, inputEnabled)
    }

    ghost predicate Valid()
      reads this
    {
      Inv(Snapshot())
    }

    /** `onCreate`: the best score is read back from storage, the score starts
        at 0 and the first round starts with target `picks`. */
    constructor (storedBest: nat, picks: seq<int>)
      requires ValidTarget(picks)
      ensures Valid()
      ensures Snapshot() == Start(Initial(storedBest), picks)
    {
      target, answer, score := [], [], 0;
      best, persisted := storedBest, storedBest;
      inputEnabled := false;
      new;
      StartRound(picks);
    }

    /** `startGame`: clear the answer and target, disable input, append one
        generated panel per flash, then enable input. `picks` are the values
        the generator drew, one per flash. */
    method StartRound(picks: seq<int>)
      requires ValidTarget(picks) && ScoreInv(Snapshot())
      modifies this
      ensures Valid()
      ensures Snapshot() == Start(old(Snapshot()), picks)
    {
      target := [];
      answer := [];
      inputEnabled := false;
      for i := 0 to |picks|
        invariant target == picks[..i]
        invariant answer == [] && !inputEnabled
        invariant score == old(score) && best == old(best) && persisted == old(persisted)
      {
        target := target + [picks[i]];
      }
      inputEnabled := true;
    }

    /** The score reset of `loseAnimation`; the next round is started by the
        caller once the lose flourish and pause are over. */
    method Lose()
      requires ScoreInv(Snapshot()) && ValidTarget(target) && AllPanels(answer)
      requires |answer| >= |target| && answer != target
      modifies this
      ensures Valid()
      ensures Snapshot() == RecordLoss(old(Snapshot()))
    {
      score := 0;
      inputEnabled := false;
    }

    /** `onClick`: enter the clicked panel's digit, then win (score, best,
        storage, new round with target `nextPicks`), lose, or carry on. */
    method OnClick(view: Option<View>, nextPicks: seq<int>) returns (outcome: Outcome)
      requires Valid() && ValidTarget(nextPicks)
      modifies this
      ensures Valid()
      ensures (Snapshot(), outcome) == Click(old(Snapshot()), view, nextPicks)
    {
      if view.None? {
        return Ignored;
      }
      answer := answer + [DigitOf(view.value)];
      if answer == target {
        score := score + 1;
        if score > best {
          best := score;
          persisted := best;
        }
        StartRound(nextPicks);
        outcome := Won;
      } else if |answer| >= |target| {
        Lose();
        outcome := Lost;
      } else {
        outcome := InProgress;
      }
    }
  }
}
