/** The game's shared state and the operations that change it
    (the provider in src/contexts/GameContext.tsx). Each operation is a guarded
    whole-value update; timers and randomness are explicit events and arguments. */
module GameContext {
  import opened Wrappers
  import opened GameTypes
  import Questions
  import Duel

  datatype GameState = GameState(
    duel: Option<DuelState>,
    selectedSubject: Option<Subject>,
    currentPlayer: Option<Player>
  )

  /** The player the provider creates when it first mounts. */
  const InitialPlayer: Player :=
    Player("current-player", "You", "/placeholder.svg", Duel.MaxHealth, None, None, None, "United States")

  /** The state once the provider has mounted: no duel, no subject, the initial player. */
  const Init: GameState := GameState(None, None, Some(InitialPlayer))

  /** `createDuel(subject)`, with `duelId` standing for the clock-derived id and `draw` for the
      random index of the first question among the subject's questions. */
  function CreateDuel(g: GameState, subject: Subject, duelId: string, draw: nat): (g': GameState)
    requires draw < |Questions.QuestionsFor(subject)|
    ensures g.currentPlayer.None? ==> g' == g
    ensures g.currentPlayer.Some? ==>
      && g'.duel.Some?
      && g'.selectedSubject == g.selectedSubject && g'.currentPlayer == g.currentPlayer
      && var d := g'.duel.value;
      && d.id == duelId
      && d.human == g.currentPlayer.value && d.opponent == Duel.Opponent
      && d.opponent.health == Duel.MaxHealth
      && d.currentRound == 1 && d.maxRounds == Duel.MaxRounds
      && d.roundDamage == Duel.FirstRoundDamage
      && d.status == Active && d.winnerId.None?
      && d.currentQuestion == Questions.QuestionForSubject(subject, draw)
      && d.currentQuestion.Some? && d.currentQuestion.value.subject == subject
      && d.currentQuestion.value in Questions.Bank
      && d.timeRemaining == Some(d.currentQuestion.value.timeLimit)
  {
    if g.currentPlayer.None? then g
    else
      var q := Questions.QuestionForSubject(subject, draw).value;
      g.(duel := Some(Duel.Start(duelId, g.currentPlayer.value, q)))
  }

  /** `answerQuestion(answer)`; `opponentCorrect` is the outcome of the opponent's coin.
      The function itself checks only for a duel with a question: the "only while active"
      rule belongs to the caller (see `Enabled`). */
  function AnswerQuestion(g: GameState, answer: string, opponentCorrect: bool): (g': GameState)
    ensures g.duel.None? || g.duel.value.currentQuestion.None? ==> g' == g
    ensures g.duel.Some? && g.duel.value.currentQuestion.Some? ==>
      && g'.selectedSubject == g.selectedSubject && g'.currentPlayer == g.currentPlayer
      && g'.duel.Some?
      && var d, d' := g.duel.value, g'.duel.value;
      && var correct := answer == d.currentQuestion.value.correctAnswer;
      && (correct ==>
            d'.opponent.health == Duel.Damage(d.opponent.health, d.roundDamage)
            && d'.human.health == d.human.health)
      && (!correct && opponentCorrect ==>
            d'.human.health == Duel.Damage(d.human.health, d.roundDamage)
            && d'.opponent.health == d.opponent.health)
      && (!correct && !opponentCorrect ==>
            d'.human.health == d.human.health && d'.opponent.health == d.opponent.health)
      && d'.status == Paused
      && d'.winnerId == Duel.Verdict(d'.human, d'.opponent)
      && d'.human == d.human.(health := d'.human.health)
      && d'.opponent == d.opponent.(health := d'.opponent.health)
      && d' == d.(human := d'.human, opponent := d'.opponent, status := Paused,
                  winnerId := d'.winnerId)
  {
    if g.duel.None? || g.duel.value.currentQuestion.None? then g
    else g.(duel := Some(Duel.Answer(g.duel.value, answer, opponentCorrect)))
  }

  /** Whether `nextRound` goes ahead: a duel and a subject exist, nobody has won, and
      rounds remain. */
  predicate CanAdvance(g: GameState)
  {
    && g.duel.Some? && g.selectedSubject.Some?
    && !Duel.Decided(g.duel.value)
    && g.duel.value.currentRound < g.duel.value.maxRounds
  }

  /** `nextRound()`, with `draw` the random index of the next question among the
      selected subject's questions. */
  function NextRound(g: GameState, draw: nat): (g': GameState)
    requires CanAdvance(g) ==> draw < |Questions.QuestionsFor(g.selectedSubject.value)|
    ensures g' == g <==> !CanAdvance(g)
    ensures g'.selectedSubject == g.selectedSubject && g'.currentPlayer == g.currentPlayer
    ensures CanAdvance(g) ==>
      && g'.duel.Some?
      && var d, d' := g.duel.value, g'.duel.value;
      && d'.currentRound == d.currentRound + 1
      && d'.roundDamage == d.roundDamage + Duel.DamageIncrease
      && d'.status == Active
      && d'.currentQuestion == Questions.QuestionForSubject(g.selectedSubject.value, draw)
      && d'.currentQuestion.Some? && d'.currentQuestion.value.subject == g.selectedSubject.value
      && d'.currentQuestion.value in Questions.Bank
      && d'.timeRemaining == Some(d'.currentQuestion.value.timeLimit)
      && d'.human == d.human && d'.opponent == d.opponent && d'.winnerId == d.winnerId
      && d'.id == d.id && d'.maxRounds == d.maxRounds
  {
    if !CanAdvance(g) then g
    else
      var q := Questions.QuestionForSubject(g.selectedSubject.value, draw).value;
      g.(duel := Some(Duel.Advance(g.duel.value, q)))
  }

  /** `handleTimeExpired()`: without a duel nothing happens. */
  function HandleTimeExpired(g: GameState): (g': GameState)
    ensures g.duel.None? ==> g' == g
    ensures g.duel.Some? ==>
      && g'.selectedSubject == g.selectedSubject && g'.currentPlayer == g.currentPlayer
      && g'.duel.Some?
      && var d, d' := g.duel.value, g'.duel.value;
      && d'.human.health == Duel.Damage(d.human.health, Duel.TimeoutPenalty)
      && d'.opponent.health == Duel.Damage(d.opponent.health, Duel.TimeoutPenalty)
      && d'.status == Paused
      && d' == d.(human := d.human.(health := d'.human.health),
                  opponent := d.opponent.(health := d'.opponent.health),
                  status := Paused)
  {
    if g.duel.None? then g else g.(duel := Some(Duel.Expire(g.duel.value)))
  }

  /** Whether the countdown interval is running. */
  predicate TimerRunning(g: GameState)
  {
    g.duel.Some? && Duel.TimerRunning(g.duel.value)
  }

  /** One firing of the one-second countdown interval. */
  function Tick(g: GameState): (g': GameState)
    ensures !TimerRunning(g) ==> g' == g
    ensures TimerRunning(g) && g.duel.value.timeRemaining.value <= 1 ==> g' == HandleTimeExpired(g)
    ensures TimerRunning(g) && g.duel.value.timeRemaining.value > 1 ==>
      g' == g.(duel := Some(g.duel.value.(timeRemaining := Some(g.duel.value.timeRemaining.value - 1))))
  {
    if !TimerRunning(g) then g
    else g.(duel := Some(Duel.Tick(g.duel.value)))
  }

  /** `resetDuel()`: the duel goes away and the player is back to full health; the
      selected subject stays. */
  function ResetDuel(g: GameState): (g': GameState)
    ensures g'.duel.None? && g'.selectedSubject == g.selectedSubject
    ensures g.currentPlayer.None? ==> g'.currentPlayer.None?
    ensures g.currentPlayer.Some? ==>
      g'.currentPlayer == Some(g.currentPlayer.value.(health := Duel.MaxHealth))
  {
    GameState(None, g.selectedSubject,
              if g.currentPlayer.Some? then Some(g.currentPlayer.value.(health := Duel.MaxHealth))
              else None)
  }

  /** `setSubject(subject)`. */
  function SetSubject(g: GameState, subject: Subject): (g': GameState)
    ensures g'.selectedSubject == Some(subject)
    ensures g'.duel == g.duel && g'.currentPlayer == g.currentPlayer
  {
    g.(selectedSubject := Some(subject))
  }

  // ---------------------------------------------------------------------------
  // The environment: every way the state can change, with the guards the user
  // interface applies before invoking an operation.
  // ---------------------------------------------------------------------------

  datatype Event =
    | SelectSubject(subject: Subject)
    | StartDuel(subject: Subject, duelId: string, draw: nat)
    | SubmitAnswer(answer: string, opponentCorrect: bool)
    | ClockTick
    | AdvanceRound(draw: nat)
    | Reset

  /** Whether `e` can happen in `g`. Answers are only accepted while the question card
      is enabled (an active duel showing a question), a duel is only started from the
      screen with no duel and a selected subject, and random draws fall in range. */
  predicate Enabled(g: GameState, e: Event)
  {
    match e
    case SelectSubject(_) => true
    case StartDuel(s, _, draw) =>
      g.duel.None? && g.selectedSubject == Some(s) && draw < |Questions.QuestionsFor(s)|
    case SubmitAnswer(_, _) =>
      g.duel.Some? && g.duel.value.status == Active && g.duel.value.currentQuestion.Some?
    case ClockTick => true
    case AdvanceRound(draw) =>
      CanAdvance(g) ==> draw < |Questions.QuestionsFor(g.selectedSubject.value)|
    case Reset => true
  }

  /** The effect of `e`. A draw outside the subject's questions is not enabled and
      leaves the state alone here. */
  function Step(g: GameState, e: Event): GameState
  {
    match e
    case SelectSubject(s) => SetSubject(g, s)
    case StartDuel(s, id, draw) =>
      if draw < |Questions.QuestionsFor(s)| then CreateDuel(g, s, id, draw) else g
    case SubmitAnswer(answer, opponentCorrect) => AnswerQuestion(g, answer, opponentCorrect)
    case ClockTick => Tick(g)
    case AdvanceRound(draw) =>
      if !CanAdvance(g) || draw < |Questions.QuestionsFor(g.selectedSubject.value)| then NextRound(g, draw)
      else g
    case Reset => ResetDuel(g)
  }

  /** Every event of `es` is enabled when it happens. */
  predicate ValidRun(g: GameState, es: seq<Event>)
    decreases |es|
  {
    |es| == 0 || (Enabled(g, es[0]) && ValidRun(Step(g, es[0]), es[1..]))
  }

  function Run(g: GameState, es: seq<Event>): GameState
    decreases |es|
  {
    if |es| == 0 then g else Run(Step(g, es[0]), es[1..])
  }

  /** The invariant of every reachable state. */
  predicate Good(g: GameState)
  {
    && g.currentPlayer == Some(InitialPlayer)
    && (g.duel.Some? ==> Duel.GoodDuel(g.duel.value))
  }

  lemma InitIsGood()
    ensures Good(Init)
  {
  }

  lemma StepKeepsGood(g: GameState, e: Event)
    requires Good(g) && Enabled(g, e)
    ensures Good(Step(g, e))
  {
    Questions.BankWellFormed();
    match e
    case SelectSubject(_) =>
    case StartDuel(s, id, draw) =>
    case SubmitAnswer(answer, opponentCorrect) =>
      Duel.AnswerKeepsGood(g.duel.value, answer, opponentCorrect);
    case ClockTick =>
      if TimerRunning(g) {
        Duel.TickKeepsGood(g.duel.value);
      }
    case AdvanceRound(draw) =>
      if CanAdvance(g) {
        var q := Questions.QuestionForSubject(g.selectedSubject.value, draw).value;
        Duel.AdvanceKeepsGood(g.duel.value, q);
      }
    case Reset =>
  }

  lemma {:induction false} RunKeepsGood(g: GameState, es: seq<Event>)
    requires Good(g) && ValidRun(g, es)
    ensures Good(Run(g, es))
    decreases |es|
  {
    if |es| > 0 {
      StepKeepsGood(g, es[0]);
      RunKeepsGood(Step(g, es[0]), es[1..]);
    }
  }

  /** In every reachable state the round counter stays within the cap, the damage
      follows the 1000 + 500 * (round - 1) schedule, and health stays in range. */
  lemma ReachableDuelsFollowSchedule(es: seq<Event>)
    requires ValidRun(Init, es)
    ensures var g := Run(Init, es);
      g.duel.Some? ==>
        && 1 <= g.duel.value.currentRound <= g.duel.value.maxRounds == Duel.MaxRounds
        && g.duel.value.roundDamage == 1000 + 500 * (g.duel.value.currentRound - 1)
        && 0 <= g.duel.value.human.health <= Duel.MaxHealth
        && 0 <= g.duel.value.opponent.health <= Duel.MaxHealth
  {
    RunKeepsGood(Init, es);
  }

  /** Once a duel has a winner, no event but a reset changes it. */
  lemma WonDuelIsFrozen(g: GameState, e: Event)
    requires Good(g) && Enabled(g, e)
    requires g.duel.Some? && g.duel.value.winnerId.Some?
    ensures Step(g, e).duel == g.duel || e.Reset?
  {
  }

  /** Whatever happened before, a reset leaves no duel and the player at full health. */
  lemma ResetAfterAnyRun(es: seq<Event>)
    requires ValidRun(Init, es)
    ensures Step(Run(Init, es), Reset) == GameState(None, Run(Init, es).selectedSubject, Some(InitialPlayer))
  {
    RunKeepsGood(Init, es);
  }

  /** `n` firings of the countdown interval. */
  function Ticks(g: GameState, n: nat): GameState
    decreases n
  {
    if n == 0 then g else Ticks(Tick(g), n - 1)
  }

  /** `g` with the clock showing `t` seconds. */
  function WithTime(g: GameState, t: int): GameState
    requires g.duel.Some?
  {
    g.(duel := Some(g.duel.value.(timeRemaining := Some(t))))
  }

  /** With `n` seconds on a running clock, the first `k < n` ticks only count down. */
  lemma {:induction false} CountdownBeforeExpiry(g: GameState, n: int, k: nat)
    requires TimerRunning(g) && g.duel.value.timeRemaining == Some(n)
    requires k < n
    ensures Ticks(g, k) == WithTime(g, n - k)
    decreases k
  {
    if k > 0 {
      assert Tick(g) == WithTime(g, n - 1);
      CountdownBeforeExpiry(Tick(g), n - 1, k - 1);
    }
  }

  /** With `n >= 1` seconds on a running clock, the `n`-th tick expires the round, with the
      clock left showing 1, and the interval stops. */
  lemma {:induction false} CountdownExpiresOnTime(g: GameState, n: int)
    requires TimerRunning(g) && g.duel.value.timeRemaining == Some(n) && n >= 1
    ensures Ticks(g, n) == HandleTimeExpired(WithTime(g, 1))
    ensures !TimerRunning(Ticks(g, n))
    decreases n
  {
    if n == 1 {
      assert WithTime(g, 1) == g;
      assert Ticks(g, 1) == Tick(g);
    } else {
      assert Tick(g) == WithTime(g, n - 1);
      CountdownExpiresOnTime(Tick(g), n - 1);
      assert WithTime(Tick(g), 1) == WithTime(g, 1);
    }
  }

  /** A whole first round: the player picks Mathematics, starts a duel on the first
      Mathematics question, answers it correctly, and the next round starts. */
  lemma FirstRoundScenario()
    ensures
      var g1 := Step(Init, SelectSubject(Mathematics));
      var g2 := Step(g1, StartDuel(Mathematics, "duel-1", 0));
      var g3 := Step(g2, SubmitAnswer("x = 5", false));
      var g4 := Step(g3, AdvanceRound(1));
      && g2.duel.Some? && g2.duel.value.status == Active && g2.duel.value.timeRemaining == Some(20)
      && g3.duel.Some? && g3.duel.value.opponent.health == 4000
      && g3.duel.value.human.health == 5000
      && g3.duel.value.status == Paused && g3.duel.value.winnerId.None?
      && g4.duel.Some? && g4.duel.value.currentRound == 2 && g4.duel.value.roundDamage == 1500
      && g4.duel.value.status == Active && g4.duel.value.currentQuestion == Some(Questions.Math2)
  {
  }

  /** The clock of the first round runs out: after 20 ticks both players have lost 500
      health, the duel is paused, and nobody has won. */
  lemma TimeoutScenario()
    ensures
      var g2 := Step(Step(Init, SelectSubject(Mathematics)), StartDuel(Mathematics, "duel-1", 0));
      var g3 := Ticks(g2, 20);
      && g3.duel.Some? && g3.duel.value.human.health == 4500 && g3.duel.value.opponent.health == 4500
      && g3.duel.value.status == Paused && g3.duel.value.winnerId.None?
      && g3.duel.value.currentRound == 1
  {
    var g2 := Step(Step(Init, SelectSubject(Mathematics)), StartDuel(Mathematics, "duel-1", 0));
    CountdownExpiresOnTime(g2, 20);
  }

  // ---------------------------------------------------------------------------
  // `nextRound` run from a delayed callback. The callback closes over the state of
  // the render that scheduled it (`seen`), while its update is applied to the state
  // current when it fires (`now`). The "Continue to Next Round" button can advance
  // the round in between, and then the late callback advances a second time.
  // ---------------------------------------------------------------------------

  /** `nextRound` as written, called from a stale callback: the guards, the subject and
      the new damage come from `seen`, the round counter from `now`. */
  function NextRoundFromStale(seen: GameState, now: GameState, draw: nat): (g': GameState)
    requires CanAdvance(seen) ==> draw < |Questions.QuestionsFor(seen.selectedSubject.value)|
    ensures seen == now ==> g' == NextRound(now, draw)
    ensures !CanAdvance(seen) || now.duel.None? ==> g' == now
    ensures CanAdvance(seen) && now.duel.Some? ==>
      && g'.duel.Some?
      && g'.selectedSubject == now.selectedSubject && g'.currentPlayer == now.currentPlayer
      && var d, d' := now.duel.value, g'.duel.value;
      && d'.currentRound == d.currentRound + 1
      && d'.roundDamage == seen.duel.value.roundDamage + Duel.DamageIncrease
      && d'.currentQuestion == Questions.QuestionForSubject(seen.selectedSubject.value, draw)
      && d'.currentQuestion.Some?
      && d'.timeRemaining == Some(d'.currentQuestion.value.timeLimit)
      && d'.status == Active
      && d' == d.(currentRound := d'.currentRound, roundDamage := d'.roundDamage,
                  currentQuestion := d'.currentQuestion, timeRemaining := d'.timeRemaining,
                  status := Active)
  {
    if !CanAdvance(seen) || now.duel.None? then now
    else
      var q := Questions.QuestionForSubject(seen.selectedSubject.value, draw).value;
      var advanced := Duel.Advance(now.duel.value, q);
      assert seen == now ==> NextRound(now, draw) == now.(duel := Some(advanced));
      assert seen == now ==> advanced.(roundDamage := seen.duel.value.roundDamage + Duel.DamageIncrease) == advanced;
      now.(duel := Some(advanced.(roundDamage := seen.duel.value.roundDamage + Duel.DamageIncrease)))
  }

  /** The player answers the first question, presses "Continue" before the delayed
      `nextRound` fires, and the late call then jumps to round 3 with the damage of
      round 2, off the escalation schedule. */
  lemma StaleAdvanceBreaksSchedule()
    ensures
      var seen := Step(Step(Init, SelectSubject(Mathematics)), StartDuel(Mathematics, "duel-1", 0));
      var now := Step(Step(seen, SubmitAnswer("", false)), AdvanceRound(0));
      var late := NextRoundFromStale(seen, now, 0);
      && now.duel.Some? && now.duel.value.currentRound == 2
      && late.duel.Some? && late.duel.value.currentRound == 3
      && late.duel.value.roundDamage == 1500 != Duel.DamageForRound(3)
      && !Good(late)
  {
  }

  /** The same race in round 4 carries the duel past its last round. */
  lemma StaleAdvancePassesLastRound()
    ensures
      var d := Duel.Start("duel-1", InitialPlayer, Questions.Math1);
      var seen := GameState(Some(d.(currentRound := 4, roundDamage := Duel.DamageForRound(4))),
                            Some(Mathematics), Some(InitialPlayer));
      var now := NextRound(seen.(duel := Some(seen.duel.value.(status := Paused))), 0);
      var late := NextRoundFromStale(seen, now, 0);
      && Good(seen) && now.duel.value.currentRound == Duel.MaxRounds
      && late.duel.Some? && late.duel.value.currentRound == Duel.MaxRounds + 1
  {
    Questions.BankWellFormed();
  }

  /** Round `r` of a Mathematics duel on the first question with the clock full and
      both players at health `h`. */
  function RoundState(r: int, h: int): GameState
  {
    GameState(Some(DuelState("duel-1", InitialPlayer.(health := h), Duel.Opponent.(health := h), r,
                             Duel.MaxRounds, Some(Questions.Math1), Some(Questions.Math1.timeLimit),
                             Duel.DamageForRound(r), None, Active)),
              Some(Mathematics), Some(InitialPlayer))
  }

  /** `RoundState(r, h)` after its clock has run out. */
  function ExpiredState(r: int, h: int): GameState
  {
    var d := RoundState(r, h).duel.value;
    RoundState(r, h).(duel := Some(d.(human := InitialPlayer.(health := h - Duel.TimeoutPenalty),
                                      opponent := Duel.Opponent.(health := h - Duel.TimeoutPenalty),
                                      timeRemaining := Some(1), status := Paused)))
  }

  /** As many clock ticks as the clock shows. */
  function RunOutClock(g: GameState): GameState
  {
    if g.duel.Some? && g.duel.value.timeRemaining.Some? && g.duel.value.timeRemaining.value >= 0
    then Ticks(g, g.duel.value.timeRemaining.value)
    else g
  }

  lemma RoundTimesOut(r: int, h: int)
    requires h > Duel.TimeoutPenalty
    ensures RunOutClock(RoundState(r, h)) == ExpiredState(r, h)
  {
    CountdownExpiresOnTime(RoundState(r, h), 20);
  }

  lemma ExpiredThenNextRound(r: int, h: int)
    requires 1 <= r < Duel.MaxRounds && h > Duel.TimeoutPenalty
    ensures Step(ExpiredState(r, h), AdvanceRound(0)) == RoundState(r + 1, h - Duel.TimeoutPenalty)
  {
  }

  /** A round that runs out on the clock, followed by the next round. */
  function TimeoutStep(g: GameState): GameState
  {
    Step(RunOutClock(g), AdvanceRound(0))
  }

  lemma TimeoutThenNextRound(r: int, h: int)
    requires 1 <= r < Duel.MaxRounds && h > Duel.TimeoutPenalty
    ensures RunOutClock(RoundState(r, h)) == ExpiredState(r, h)
    ensures TimeoutStep(RoundState(r, h)) == RoundState(r + 1, h - Duel.TimeoutPenalty)
  {
    RoundTimesOut(r, h);
    ExpiredThenNextRound(r, h);
  }

  /** A late `nextRound` can also reopen a duel that was won in the meantime. Rounds 1 to 4
      run out on the clock; the timeout of round 4 schedules `nextRound` from the round-4
      render (`seen`). The player presses "Continue", answers round 5 correctly (their
      first answer, so the card takes it) and wins; then the late call reactivates the
      won duel. */
  lemma StaleAdvanceReopensWonDuel()
    ensures
      var start := Step(Step(Init, SelectSubject(Mathematics)), StartDuel(Mathematics, "duel-1", 0));
      var seen := TimeoutStep(TimeoutStep(TimeoutStep(start)));
      var now := TimeoutStep(seen);
      var won := Step(now, SubmitAnswer("x = 5", false));
      && seen == RoundState(4, 3500)
      && now == RoundState(Duel.MaxRounds, 3000)
      && EnabledWithCard(now, false, SubmitAnswer("x = 5", false))
      && won.duel.Some? && won.duel.value.winnerId == Some(InitialPlayer.id)
      && NextRoundFromStale(seen, won, 0).duel.Some?
      && NextRoundFromStale(seen, won, 0).duel.value.winnerId == Some(InitialPlayer.id)
      && NextRoundFromStale(seen, won, 0).duel.value.status == Active
      && !Good(NextRoundFromStale(seen, won, 0))
  {
    assert Step(Step(Init, SelectSubject(Mathematics)), StartDuel(Mathematics, "duel-1", 0))
        == RoundState(1, 5000);
    TimeoutThenNextRound(1, 5000);
    TimeoutThenNextRound(2, 4500);
    TimeoutThenNextRound(3, 4000);
    TimeoutThenNextRound(4, 3500);
  }

  // ---------------------------------------------------------------------------
  // The question card as written. Its `selectedAnswer` is set by the first click
  // and never cleared, and the card is not re-created when the question changes,
  // so after one answer its buttons stay disabled for the rest of the duel. The
  // card is unmounted while there is no duel, so each duel starts with a fresh one.
  // ---------------------------------------------------------------------------

  /** Whether `e` can happen when the card's lock is `locked`: an answer also needs
      an unlocked card. */
  predicate EnabledWithCard(g: GameState, locked: bool, e: Event)
  {
    Enabled(g, e) && !(e.SubmitAnswer? && locked)
  }

  /** The card's lock after `e`: set by an answer, dropped with the duel. */
  function CardAfter(g: GameState, locked: bool, e: Event): (locked': bool)
    ensures locked && Step(g, e).duel.Some? ==> locked'
    ensures locked' ==> locked || e.SubmitAnswer?
    ensures e.SubmitAnswer? && Step(g, e).duel.Some? ==> locked'
    ensures Step(g, e).duel.None? ==> !locked'
  {
    if Step(g, e).duel.None? then false else locked || e.SubmitAnswer?
  }

  /** Answer the first question, advance: the second round is active with a question,
      so the game would take an answer, but the card as written refuses every one. */
  lemma LockedCardRefusesSecondRound(answer: string, opponentCorrect: bool)
    ensures
      var g1 := Step(Init, SelectSubject(Mathematics));
      var g2 := Step(g1, StartDuel(Mathematics, "duel-1", 0));
      var g3 := Step(g2, SubmitAnswer("x = 5", false));
      var g4 := Step(g3, AdvanceRound(1));
      var locked := CardAfter(g3, CardAfter(g2, CardAfter(g1, CardAfter(Init, false,
                      SelectSubject(Mathematics)), StartDuel(Mathematics, "duel-1", 0)),
                      SubmitAnswer("x = 5", false)), AdvanceRound(1));
      && g4.duel.Some? && g4.duel.value.currentRound == 2 && g4.duel.value.status == Active
      && Enabled(g4, SubmitAnswer(answer, opponentCorrect))
      && locked && !EnabledWithCard(g4, locked, SubmitAnswer(answer, opponentCorrect))
  {
  }

  /** The intended rule: every active round of a reachable duel takes an answer. */
  lemma EveryActiveRoundTakesAnAnswer(g: GameState, answer: string, opponentCorrect: bool)
    requires Good(g) && g.duel.Some? && g.duel.value.status == Active
    ensures Enabled(g, SubmitAnswer(answer, opponentCorrect))
    ensures Step(g, SubmitAnswer(answer, opponentCorrect)).duel.value.status == Paused
  {
  }
}
