/**
 * The refactored number-guessing game: a `GuessChecker` holds a secret in
 * [MIN_NUMBER, MAX_NUMBER], counts down the attempts left and remembers a win.
 */
module NumberGuesser {

  const MIN_NUMBER: int := 1
  const MAX_NUMBER: int := 100
  const MAX_ATTEMPTS: int := 7

  /** The four answers `checkGuess` gives (the `GuessResult` enum). */
  datatype GuessResult = Correct | TooLow | TooHigh | OutOfRange

  predicate InRange(n: int) {
    MIN_NUMBER <= n <= MAX_NUMBER
  }

  /** A checker's observable state: secret, attempts left and the win flag. */
  datatype Game = Game(secret: int, attemptsLeft: int, hasWon: bool)

  function NewGame(secret: int): Game {
    Game(secret, MAX_ATTEMPTS, false)
  }

  predicate IsOver(g: Game) {
    g.attemptsLeft == 0 || g.hasWon
  }

  /** One `checkGuess` call from state `g`: the next state and the answer. */
  function Step(g: Game, guess: int): (next: (Game, GuessResult))
    ensures next.1 == OutOfRange <==> !InRange(guess)
    ensures !InRange(guess) ==> next.0 == g
    ensures InRange(guess) ==> next.0.secret == g.secret && next.0.attemptsLeft == g.attemptsLeft - 1
    ensures InRange(guess) ==> (next.0.hasWon <==> g.hasWon || guess == g.secret)
    ensures InRange(guess) ==>
      (next.1 == Correct <==> guess == g.secret) && (next.1 == TooLow <==> guess < g.secret) &&
      (next.1 == TooHigh <==> guess > g.secret)
  {
    if !InRange(guess) then (g, OutOfRange)
    else
      var g' := g.(attemptsLeft := g.attemptsLeft - 1);
      if guess == g.secret then (g'.(hasWon := true), Correct)
      else if guess < g.secret then (g', TooLow)
      else (g', TooHigh)
  }

  /** The state after the guesses `gs`, made in order from `g`. */
  function Play(g: Game, gs: seq<int>): Game {
    if gs == [] then g else Step(Play(g, gs[..|gs| - 1]), gs[|gs| - 1]).0
  }

  /** One more guess takes one more step from where the earlier ones left off. */
  lemma PlayAppend(g: Game, gs: seq<int>, x: int)
    ensures Play(g, gs + [x]) == Step(Play(g, gs), x).0
  {
    assert (gs + [x])[..|gs|] == gs;
  }

  /** How many of the guesses fall inside [MIN_NUMBER, MAX_NUMBER]. */
  function CountInRange(gs: seq<int>): nat {
    if gs == [] then 0
    else CountInRange(gs[..|gs| - 1]) + (if InRange(gs[|gs| - 1]) then 1 else 0)
  }

  /**
   * Whatever the guesses, the secret stays put, every in-range guess costs
   * exactly one attempt (out-of-range ones cost nothing), and the game is won
   * exactly when the secret was among the guesses.
   */
  lemma {:induction false} PlayOutcome(secret: int, gs: seq<int>)
    requires InRange(secret)
    ensures Play(NewGame(secret), gs) == Game(secret, MAX_ATTEMPTS - CountInRange(gs), secret in gs)
  {
    if gs != [] {
      var init := gs[..|gs| - 1];
      PlayOutcome(secret, init);
      assert gs == init + [gs[|gs| - 1]];
    }
  }

  /** Every guess was made while the game was still running, as the console driver does. */
  ghost predicate Guarded(g: Game, gs: seq<int>) {
    forall k :: 0 <= k < |gs| ==> !IsOver(Play(g, gs[..k]))
  }

  /**
   * Under the driver's `while (!isGameOver())` guard at most MAX_ATTEMPTS
   * in-range guesses are accepted and the attempts left never go negative.
   */
  lemma {:induction false} GuardedPlayBounded(secret: int, gs: seq<int>)
    requires InRange(secret) && Guarded(NewGame(secret), gs)
    ensures CountInRange(gs) <= MAX_ATTEMPTS
    ensures Play(NewGame(secret), gs).attemptsLeft >= 0
  {
    PlayOutcome(secret, gs);
    if gs != [] {
      var init := gs[..|gs| - 1];
      forall k | 0 <= k < |init|
        ensures !IsOver(Play(NewGame(secret), init[..k]))
      {
        assert init[..k] == gs[..k];
      }
      GuardedPlayBounded(secret, init);
      assert gs[..|gs| - 1] == init;
      assert !IsOver(Play(NewGame(secret), init));
      PlayOutcome(secret, init);
    }
  }

  /**
   * `checkGuess` itself has no game-over guard: an eighth in-range, wrong
   * guess takes the attempts left to -1 and `isGameOver()` turns false again.
   */
  lemma OverrunReopensGame()
    ensures var g := Play(NewGame(43), [1, 1, 1, 1, 1, 1, 1]);
            IsOver(g) && !g.hasWon
    ensures var g := Play(NewGame(43), [1, 1, 1, 1, 1, 1, 1, 1]);
            g.attemptsLeft == -1 && !IsOver(g)
  {
    var seven, eight := [1, 1, 1, 1, 1, 1, 1], [1, 1, 1, 1, 1, 1, 1, 1];
    PlayOutcome(43, seven);
    PlayOutcome(43, eight);
    AllInRangeCount(seven);
    AllInRangeCount(eight);
  }

  lemma {:induction false} AllInRangeCount(gs: seq<int>)
    requires forall i :: 0 <= i < |gs| ==> InRange(gs[i])
    ensures CountInRange(gs) == |gs|
  {
    if gs != [] {
      AllInRangeCount(gs[..|gs| - 1]);
    }
  }

  class GuessChecker {
    const secretNumber: int
    var attemptsLeft: int
    var hasWon: bool
    /** Every argument passed to `CheckGuess` so far, in order. */
    ghost var guesses: seq<int>

    ghost predicate Valid()
      reads this
    {
      InRange(secretNumber) && State() == Play(NewGame(secretNumber), guesses)
    }

    function State(): Game
      reads this
    {
      Game(secretNumber, attemptsLeft, hasWon)
    }

    /** The seeded constructor; the secret must lie in [MIN_NUMBER, MAX_NUMBER]. */
    constructor (secretNumber: int)
      requires InRange(secretNumber)
      ensures Valid() && guesses == []
      ensures this.secretNumber == secretNumber && attemptsLeft == MAX_ATTEMPTS && !hasWon
      ensures !IsGameOver()
    {
      this.secretNumber := secretNumber;
      attemptsLeft := MAX_ATTEMPTS;
      hasWon := false;
      guesses := [];
    }

    /**
     * The seeded constructor including its rejection: `null` stands for the
     * IllegalArgumentException thrown for a secret outside the range.
     */
    static method Create(secretNumber: int) returns (checker: GuessChecker?)
      ensures checker == null <==> !InRange(secretNumber)
      ensures checker != null ==>
        fresh(checker) && checker.Valid() && checker.guesses == [] &&
        checker.State() == NewGame(secretNumber) && !checker.IsGameOver()
    {
      if secretNumber < MIN_NUMBER || secretNumber > MAX_NUMBER {
        return null;
      }
      checker := new GuessChecker(secretNumber);
    }

    method CheckGuess(guess: int) returns (result: GuessResult)
      requires Valid()
      modifies this
      ensures Valid() && guesses == old(guesses) + [guess]
      ensures (State(), result) == Step(old(State()), guess)
      ensures result == OutOfRange <==> !InRange(guess)
      ensures !InRange(guess) ==> attemptsLeft == old(attemptsLeft) && hasWon == old(hasWon)
      ensures InRange(guess) ==> attemptsLeft == old(attemptsLeft) - 1
      ensures InRange(guess) ==>
        (result == Correct <==> guess == secretNumber) &&
        (result == TooLow <==> guess < secretNumber) &&
        (result == TooHigh <==> guess > secretNumber)
      ensures hasWon <==> old(hasWon) || result == Correct
    {
      if guess < MIN_NUMBER || guess > MAX_NUMBER {
        result := OutOfRange;
      } else {
        attemptsLeft := attemptsLeft - 1;
        if guess == secretNumber {
          hasWon := true;
          result := Correct;
        } else if guess < secretNumber {
          result := TooLow;
        } else {
          result := TooHigh;
        }
      }
      guesses := guesses + [guess];
      PlayAppend(NewGame(secretNumber), old(guesses), guess);
    }

    /** Over exactly when seven in-range guesses have been made or the secret was guessed. */
    function IsGameOver(): (over: bool)
      reads this
      requires Valid()
      ensures over <==> CountInRange(guesses) == MAX_ATTEMPTS || secretNumber in guesses
    {
      PlayOutcome(secretNumber, guesses);
      attemptsLeft == 0 || hasWon
    }

    function AttemptsLeft(): (left: int)
      reads this
      requires Valid()
      ensures left == MAX_ATTEMPTS - CountInRange(guesses)
    {
      PlayOutcome(secretNumber, guesses);
      attemptsLeft
    }

    /** The number of in-range guesses made; with AttemptsLeft it always sums to MAX_ATTEMPTS. */
    function AttemptsTaken(): (taken: int)
      reads this
      requires Valid()
      ensures taken == CountInRange(guesses)
      ensures taken + AttemptsLeft() == MAX_ATTEMPTS
    {
      PlayOutcome(secretNumber, guesses);
      MAX_ATTEMPTS - attemptsLeft
    }
  }
}
