/** One duel's state transitions, as pure functions on `DuelState`
    (the bodies of the updates in src/contexts/GameContext.tsx). */
module Duel {
  import opened Wrappers
  import opened GameTypes
  import Questions

  const MaxHealth := 5000
  const MaxRounds := 5
  const FirstRoundDamage := 1000
  /** Added to the round damage at every new round. */
  const DamageIncrease := 500
  /** Taken from both players when the clock runs out. */
  const TimeoutPenalty := 500

  /** The simulated opponent every new duel is created with. */
  const Opponent: Player :=
    Player("ai-opponent", "AI Opponent", "/placeholder.svg", MaxHealth, None, None, None, "AI World")

  /** Health left after taking `amount` damage, never below zero (`Math.max(health - amount, 0)`). */
  function Damage(health: int, amount: int): (r: int)
    ensures r >= 0 && r >= health - amount
    ensures r == health - amount || r == 0
  {
    if health - amount > 0 then health - amount else 0
  }

  /** The damage the escalation schedule assigns to 1-based round `n`. */
  function DamageForRound(n: int): int
  {
    FirstRoundDamage + DamageIncrease * (n - 1)
  }

  /** The app tests `winnerId` for truthiness, so an empty id would count as no winner. */
  predicate Decided(d: DuelState)
  {
    d.winnerId.Some? && d.winnerId.value != ""
  }

  /** The countdown interval exists only while the duel is active with a truthy (set, non-zero) time. */
  predicate TimerRunning(d: DuelState)
  {
    d.status == Active && d.timeRemaining.Some? && d.timeRemaining.value != 0
  }

  /** The facts that hold of every duel the game can reach. */
  predicate GoodDuel(d: DuelState)
  {
    && d.maxRounds == MaxRounds
    && 1 <= d.currentRound <= d.maxRounds
    && d.roundDamage == DamageForRound(d.currentRound)
    && 0 <= d.human.health <= MaxHealth
    && 0 <= d.opponent.health <= MaxHealth
    && d.human.id != "" && d.opponent.id != "" && d.human.id != d.opponent.id
    && (d.winnerId.None? || d.winnerId == Some(d.human.id) || d.winnerId == Some(d.opponent.id))
    && (d.winnerId == Some(d.opponent.id) ==> d.human.health == 0)
    && (d.winnerId == Some(d.human.id) ==> d.opponent.health == 0 < d.human.health)
    && (d.winnerId.Some? ==> d.status == Paused)
    && (d.status == Active || d.status == Paused)
    && d.currentQuestion.Some? && Questions.WellFormed(d.currentQuestion.value)
    && d.timeRemaining.Some? && 0 < d.timeRemaining.value <= d.currentQuestion.value.timeLimit
  }

  /** The duel `createDuel` builds for `human` around the first question `q`. */
  function Start(id: string, human: Player, q: Question): (d: DuelState)
    ensures d.id == id && d.human == human && d.opponent == Opponent
    ensures d.opponent.health == MaxHealth
    ensures d.currentRound == 1 && d.maxRounds == MaxRounds && d.roundDamage == FirstRoundDamage
    ensures d.currentQuestion == Some(q) && d.timeRemaining == Some(q.timeLimit)
    ensures d.winnerId.None? && d.status == Active
    ensures (Questions.WellFormed(q) && 0 <= human.health <= MaxHealth
             && human.id != "" && human.id != Opponent.id) ==> GoodDuel(d)
  {
    DuelState(id, human, Opponent, 1, MaxRounds, Some(q), Some(q.timeLimit),
              FirstRoundDamage, None, Active)
  }

  /** The winner after a scored answer: the human's defeat is checked first. */
  function Verdict(human: Player, opponent: Player): (w: Option<string>)
    ensures human.health <= 0 ==> w == Some(opponent.id)
    ensures human.health > 0 && opponent.health <= 0 ==> w == Some(human.id)
    ensures w.None? <==> human.health > 0 && opponent.health > 0
  {
    if human.health <= 0 then Some(opponent.id)
    else if opponent.health <= 0 then Some(human.id)
    else None
  }

  /** The human answers `answer`; `opponentCorrect` is the simulated opponent's 70 % coin,
      consulted only after a wrong answer. */
  function Answer(d: DuelState, answer: string, opponentCorrect: bool): (d': DuelState)
    requires d.currentQuestion.Some?
    ensures answer == d.currentQuestion.value.correctAnswer ==>
      d'.opponent.health == Damage(d.opponent.health, d.roundDamage) && d'.human == d.human
    ensures answer != d.currentQuestion.value.correctAnswer && opponentCorrect ==>
      d'.human.health == Damage(d.human.health, d.roundDamage) && d'.opponent == d.opponent
    ensures answer != d.currentQuestion.value.correctAnswer && !opponentCorrect ==>
      d'.human == d.human && d'.opponent == d.opponent
    ensures d'.human == d.human.(health := d'.human.health)
    ensures d'.opponent == d.opponent.(health := d'.opponent.health)
    ensures d'.status == Paused
    ensures d'.winnerId == Verdict(d'.human, d'.opponent)
    ensures d' == d.(human := d'.human, opponent := d'.opponent, status := Paused,
                     winnerId := d'.winnerId)
  {
    var (human, opponent) :=
      if answer == d.currentQuestion.value.correctAnswer then
        (d.human, d.opponent.(health := Damage(d.opponent.health, d.roundDamage)))
      else if opponentCorrect then
        (d.human.(health := Damage(d.human.health, d.roundDamage)), d.opponent)
      else
        (d.human, d.opponent);
    d.(human := human, opponent := opponent, status := Paused, winnerId := Verdict(human, opponent))
  }

  /** The clock ran out: both players pay the flat penalty and the duel pauses. No
      winner is declared, even when a health reaches zero. */
  function Expire(d: DuelState): (d': DuelState)
    ensures d'.human == d.human.(health := Damage(d.human.health, TimeoutPenalty))
    ensures d'.opponent == d.opponent.(health := Damage(d.opponent.health, TimeoutPenalty))
    ensures d'.status == Paused
    ensures d' == d.(human := d'.human, opponent := d'.opponent, status := Paused)
  {
    d.(human := d.human.(health := Damage(d.human.health, TimeoutPenalty)),
       opponent := d.opponent.(health := Damage(d.opponent.health, TimeoutPenalty)),
       status := Paused)
  }

  /** The duel moves on to its next round around the fresh question `q`. */
  function Advance(d: DuelState, q: Question): (d': DuelState)
    ensures d'.currentRound == d.currentRound + 1
    ensures d'.roundDamage == d.roundDamage + DamageIncrease
    ensures d'.currentQuestion == Some(q) && d'.timeRemaining == Some(q.timeLimit)
    ensures d'.status == Active
    ensures d' == d.(currentRound := d'.currentRound, roundDamage := d'.roundDamage,
                     currentQuestion := Some(q), timeRemaining := Some(q.timeLimit),
                     status := Active)
  {
    d.(currentRound := d.currentRound + 1, currentQuestion := Some(q),
       timeRemaining := Some(q.timeLimit), roundDamage := d.roundDamage + DamageIncrease,
       status := Active)
  }

  /** One second of the running countdown: the clock reaching zero expires the round
      instead of being stored. */
  function Tick(d: DuelState): (d': DuelState)
    requires TimerRunning(d)
    ensures d.timeRemaining.value - 1 <= 0 ==> d' == Expire(d)
    ensures d.timeRemaining.value - 1 > 0 ==> d' == d.(timeRemaining := Some(d.timeRemaining.value - 1))
  {
    var countdown := d.timeRemaining.value - 1;
    if countdown <= 0 then Expire(d) else d.(timeRemaining := Some(countdown))
  }

  // ---------------------------------------------------------------------------
  // Each transition keeps the reachable-duel invariant, under the guard the game
  // applies before calling it.
  // ---------------------------------------------------------------------------

  lemma AnswerKeepsGood(d: DuelState, answer: string, opponentCorrect: bool)
    requires GoodDuel(d) && d.status == Active
    ensures GoodDuel(Answer(d, answer, opponentCorrect))
  {
  }

  lemma ExpireKeepsGood(d: DuelState)
    requires GoodDuel(d) && d.winnerId.None?
    ensures GoodDuel(Expire(d))
  {
  }

  lemma TickKeepsGood(d: DuelState)
    requires GoodDuel(d) && TimerRunning(d)
    ensures GoodDuel(Tick(d))
  {
    if d.timeRemaining.value - 1 <= 0 {
      ExpireKeepsGood(d);
    }
  }

  lemma AdvanceKeepsGood(d: DuelState, q: Question)
    requires GoodDuel(d) && !Decided(d) && d.currentRound < d.maxRounds
    requires Questions.WellFormed(q)
    ensures GoodDuel(Advance(d, q))
  {
  }

  /** A timeout can empty a health bar without deciding the duel. */
  lemma ExpireNeverDecides(d: DuelState)
    requires d.winnerId.None? && d.human.health <= TimeoutPenalty
    ensures Expire(d).human.health == 0
    ensures Expire(d).winnerId.None?
  {
  }
}
