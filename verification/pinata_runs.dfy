/**
 * One proof-of-work drop as a machine driven by the answers it hears
 * (lez-faucet-ffi/src/client.rs:1027-1198, solver.rs:139-166).
 *
 * The machine has no choices of its own, so a whole run is a function of the
 * answers. That makes it possible to say which check ended a run, and what had
 * been sent by then, and to exhibit runs as plain lists of answers.
 */
module PinataRuns {
  import opened Wrappers
  import opened PinataChain
  import opened PinataClaims
  import opened Reconciliation
  import ExactU128

  datatype Eligibility = Eligible | Uninitialized | WrongOwner

  datatype Submission = Accepted | Rejected | ReplyLost

  // One question the client asked, and its answer; None when there was none.
  // A solve that found nothing asks nothing else.
  datatype Call =
    | Cancelling(up: bool)
    | Verified(ok: bool)
    | ReadAccount(id: Account, reading: Option<(Eligibility, nat)>)
    | ReadPinata(state: Option<(nat, Challenge)>)
    | Scanned
    | Solved(challenge: Challenge, solution: Option<nat>)
    | Built(ok: bool)
    | Submitted(tx: Tx, reply: Submission)
    | Looked(tx: Tx, found: Option<bool>)
    | DeadlinePassed(over: bool)

  const MAX_SUPPORTED_DIFFICULTY: nat := 3

  datatype Failure =
    | Cancelled | WrongPrograms | Unreadable | NotEligible(why: Eligibility) | BalanceOverflow
    | UnsupportedDifficulty | PoolDepleted | NoSolution | ClaimNotBuilt
    | SubmissionRejected | OutcomeUnknown | StaleChallengeExhausted

  datatype Outcome =
    | Receipt(before: nat, after: nat, tx: Tx, staleRetries: nat)
    | Failed(failure: Failure)

  datatype Config = Config(rules: Rules, recipient: Account, maxStaleRetries: nat)

  // What the drop asks next. FreeStop is the check for a cancellation that
  // counts only while nothing has been submitted; Batch is the solver's own.
  datatype Place =
    | FreeStop(next: Place)
    | CheckPrograms
    | Inspect
    | Fetch
    | Batch(challenge: Challenge)
    | Scan(challenge: Challenge)
    | CheckAgain(challenge: Challenge, solution: nat)
    | Refetch(challenge: Challenge, solution: nat)
    | Reread(challenge: Challenge, solution: nat)
    | Encode(challenge: Challenge, solution: nat)
    | Send(challenge: Challenge, tx: Tx)
    | Look(challenge: Challenge, tx: Tx)
    | LookAtBalance(challenge: Challenge, tx: Tx, included: Option<bool>)
    | LookAtChallenge(challenge: Challenge, tx: Tx, included: Option<bool>, balance: Option<nat>)
    | Deadline(challenge: Challenge, tx: Tx)
    | Ended(outcome: Outcome)

  // Where the drop stands: the attempt it is at, its baseline, the latch, every
  // claim it handed in, and how many of them were judged lost.
  datatype Progress = Progress(place: Place, attempt: nat, before: nat, submitted: bool, sent: seq<Tx>, lost: nat)

  const START := Progress(FreeStop(CheckPrograms), 0, 0, false, [], 0)

  function Fail(s: Progress, why: Failure): Progress {
    s.(place := Ended(Failed(why)))
  }

  // The next attempt, or the end of the retries.
  function TryAgain(config: Config, s: Progress, before: nat): Progress {
    if s.attempt < config.maxStaleRetries
    then s.(place := FreeStop(Fetch), attempt := s.attempt + 1, before := before)
    else Fail(s, StaleChallengeExhausted)
  }

  // Why a reading of the recipient ends the drop, if it does.
  function Ineligible(reading: Option<(Eligibility, nat)>): Option<Failure> {
    match reading
    case None => Some(Unreadable)
    case Some((Eligible, _)) => None
    case Some((why, _)) => Some(NotEligible(why))
  }

  // Why a reading of the pool ends the drop before a solve, if it does.
  function Unpayable(config: Config, state: Option<(nat, Challenge)>): Option<Failure> {
    match state
    case None => Some(Unreadable)
    case Some((pool, challenge)) =>
      if challenge.difficulty > MAX_SUPPORTED_DIFFICULTY then Some(UnsupportedDifficulty)
      else if pool < config.rules.prize then Some(PoolDepleted)
      else None
  }

  // The step for the answer to the question of this place; an answer to some
  // other question changes nothing.
  function Next(config: Config, s: Progress, call: Call): Progress {
    match s.place
    case FreeStop(next) => if call.Cancelling? then StopFreely(s, next, call.up) else s
    case CheckPrograms =>
      if call.Verified? then if call.ok then s.(place := FreeStop(Inspect)) else Fail(s, WrongPrograms) else s
    case Inspect => if call.ReadAccount? then Open(config, s, call.reading) else s
    case Fetch => if call.ReadPinata? then BeginSolve(config, s, call.state) else s
    case Batch(challenge) =>
      if call.Cancelling? then if call.up then Fail(s, Cancelled) else s.(place := Scan(challenge))
      else Search(config, s, challenge, call)
    case Scan(challenge) => Search(config, s, challenge, call)
    case CheckAgain(challenge, solution) =>
      if !call.Verified? then s
      else if call.ok then s.(place := Refetch(challenge, solution)) else Fail(s, WrongPrograms)
    case Refetch(challenge, solution) => if call.ReadPinata? then Refresh(config, s, call.state) else s
    case Reread(challenge, solution) => if call.ReadAccount? then Rebase(config, s, call.reading) else s
    case Encode(challenge, solution) =>
      if !call.Built? then s
      else if call.ok then s.(place := Send(challenge, Tx(config.recipient, solution)), submitted := true)
      else Fail(s.(submitted := true), ClaimNotBuilt)
    case Send(challenge, tx) => if call.Submitted? then HandIn(s, call.reply) else s
    case Look(challenge, tx) => if call.Looked? then s.(place := LookAtBalance(challenge, tx, call.found)) else s
    case LookAtBalance(challenge, tx, included) =>
      if call.ReadAccount? then s.(place := LookAtChallenge(challenge, tx, included, Held(call.reading))) else s
    case LookAtChallenge(_, _, _, _) => if call.ReadPinata? then Judge(config, s, call.state) else s
    case Deadline(challenge, tx) =>
      if !call.DeadlinePassed? then s
      else if call.over then Fail(s, OutcomeUnknown) else s.(place := Look(challenge, tx))
    case Ended(_) => s
  }

  function StopFreely(s: Progress, next: Place, up: bool): Progress {
    if up && !s.submitted then Fail(s, Cancelled) else s.(place := next)
  }

  function Open(config: Config, s: Progress, reading: Option<(Eligibility, nat)>): Progress {
    var why := Ineligible(reading);
    if why.Some? then Fail(s, why.value)
    else if reading.value.1 + config.rules.prize > ExactU128.MAX then Fail(s, BalanceOverflow)
    else s.(place := FreeStop(Fetch), before := reading.value.1)
  }

  function BeginSolve(config: Config, s: Progress, state: Option<(nat, Challenge)>): Progress {
    var why := Unpayable(config, state);
    if why.Some? then Fail(s, why.value) else s.(place := FreeStop(Batch(state.value.1)))
  }

  function Search(config: Config, s: Progress, challenge: Challenge, call: Call): Progress {
    match call
    case Scanned => s.(place := Batch(challenge))
    case Solved(of, Some(solution)) =>
      if of == challenge && config.rules.fits(challenge, solution)
      then s.(place := FreeStop(CheckAgain(challenge, solution)))
      else s
    case Solved(of, None) => if of == challenge then Fail(s, NoSolution) else s
    case _ => s
  }

  function Refresh(config: Config, s: Progress, state: Option<(nat, Challenge)>): Progress
    requires s.place.Refetch?
  {
    match state
    case None => Fail(s, Unreadable)
    case Some((pool, latest)) =>
      if latest != s.place.challenge then TryAgain(config, s, s.before)
      else if pool < config.rules.prize then Fail(s, PoolDepleted)
      else s.(place := Reread(s.place.challenge, s.place.solution))
  }

  function Rebase(config: Config, s: Progress, reading: Option<(Eligibility, nat)>): Progress
    requires s.place.Reread?
  {
    var why := Ineligible(reading);
    if why.Some? then Fail(s, why.value)
    else if reading.value.1 == s.before then s.(place := FreeStop(Encode(s.place.challenge, s.place.solution)))
    else if reading.value.1 + config.rules.prize > ExactU128.MAX then Fail(s, BalanceOverflow)
    else TryAgain(config, s, reading.value.1)
  }

  function HandIn(s: Progress, reply: Submission): Progress
    requires s.place.Send?
  {
    var handed := s.(sent := s.sent + [s.place.tx]);
    if reply.Rejected? then Fail(handed, SubmissionRejected)
    else handed.(place := Look(s.place.challenge, s.place.tx))
  }

  function Held(reading: Option<(Eligibility, nat)>): Option<nat> {
    if reading.Some? then Some(reading.value.1) else None
  }

  function Rotated(submitted: Challenge, state: Option<(nat, Challenge)>): Option<bool> {
    if state.Some? then Some(state.value.1 != submitted) else None
  }

  function Judge(config: Config, s: Progress, state: Option<(nat, Challenge)>): Progress
    requires s.place.LookAtChallenge?
  {
    var seen := Observation(s.place.included, s.place.balance, Rotated(s.place.challenge, state));
    Decide(config, s, s.place.challenge, s.place.tx, seen)
  }

  // What a whole round comes to.
  function Decide(config: Config, s: Progress, challenge: Challenge, tx: Tx, seen: Observation): Progress {
    var expected := s.before + config.rules.prize;
    match Classify(s.before, expected, seen)
    case Credited => s.(place := Ended(Receipt(s.before, expected, tx, s.attempt)))
    case LostRace => TryAgain(config, s.(lost := s.lost + 1), s.before)
    case Unattributable => Fail(s, OutcomeUnknown)
    case Continue => s.(place := Deadline(challenge, tx))
  }

  // Where a round leads, by what its readings show.
  lemma DecidesAsShown(config: Config, s: Progress, challenge: Challenge, tx: Tx, seen: Observation)
    ensures Decide(config, s, challenge, tx, seen)
         == if ShowsCredit(s.before, config.rules.prize, seen)
            then s.(place := Ended(Receipt(s.before, s.before + config.rules.prize, tx, s.attempt)))
            else if ShowsLoss(s.before, seen) then TryAgain(config, s.(lost := s.lost + 1), s.before)
            else if ShowsForeignChange(s.before, config.rules.prize, seen) then Fail(s, OutcomeUnknown)
            else s.(place := Deadline(challenge, tx))
  {
    DecidesByReadings(s.before, config.rules.prize, seen);
  }

  // The three answers of a round lead where the whole round does.
  lemma RoundDecides(config: Config, s: Progress, challenge: Challenge, tx: Tx, included: Option<bool>, id: Account,
                     account: Option<(Eligibility, nat)>, state: Option<(nat, Challenge)>)
    requires s.place == Look(challenge, tx)
    ensures Next(config, Next(config, Next(config, s, Looked(tx, included)), ReadAccount(id, account)),
                 ReadPinata(state))
         == Decide(config, s, challenge, tx, Observation(included, Held(account), Rotated(challenge, state)))
  {
    hide Classify;
  }

  // The two readings after a solve, without the rest of the machine.
  lemma RefetchStep(config: Config, s: Progress, state: Option<(nat, Challenge)>)
    requires s.place.Refetch?
    ensures Next(config, s, ReadPinata(state)) == Refresh(config, s, state)
  {
  }

  lemma RereadStep(config: Config, s: Progress, id: Account, reading: Option<(Eligibility, nat)>)
    requires s.place.Reread?
    ensures Next(config, s, ReadAccount(id, reading)) == Rebase(config, s, reading)
  {
  }

  lemma CheckAgainStep(config: Config, s: Progress, ok: bool)
    requires s.place.CheckAgain?
    ensures Next(config, s, Verified(ok))
         == if ok then s.(place := Refetch(s.place.challenge, s.place.solution)) else Fail(s, WrongPrograms)
  {
  }

  // Where the first n answers lead.
  function Run(config: Config, heard: seq<Call>, n: nat): Progress
    requires n <= |heard|
    decreases n
  {
    if n == 0 then START else Next(config, Run(config, heard, n - 1), heard[n - 1])
  }

  lemma {:induction false} SameRun(config: Config, heard: seq<Call>, longer: seq<Call>, n: nat)
    requires n <= |heard| <= |longer| && heard == longer[..|heard|]
    ensures Run(config, longer, n) == Run(config, heard, n)
  {
    hide Next;
    if n > 0 {
      SameRun(config, heard, longer, n - 1);
    }
  }

  // ---- what every run keeps --------------------------------------------------------

  // Somewhere before the submission of an attempt.
  predicate Preparing(place: Place) {
    if place.FreeStop? then !place.next.FreeStop? && BeforeSending(place.next) else BeforeSending(place)
  }

  predicate BeforeSending(place: Place) {
    match place
    case CheckPrograms | Inspect | Fetch => true
    case Batch(_) | Scan(_) => true
    case CheckAgain(_, _) | Refetch(_, _) | Reread(_, _) | Encode(_, _) => true
    case _ => false
  }

  // Before a submission the latch is up exactly when something was sent, and
  // every claim that was sent has been judged lost. Afterwards one claim is
  // not: the one in flight, paid, refused or left open.
  predicate Coherent(config: Config, s: Progress) {
    && s.attempt <= config.maxStaleRetries
    && match s.place
       case Send(_, _) => s.submitted && |s.sent| == s.lost <= s.attempt
       case Ended(Receipt(_, _, tx, _)) => |s.sent| == s.lost + 1 <= s.attempt + 1 && tx == s.sent[s.lost]
       case Ended(Failed(why)) =>
         |s.sent| == s.lost + (if why in {SubmissionRejected, OutcomeUnknown} then 1 else 0) <= s.attempt + 1
       case Look(_, tx) => s.submitted && |s.sent| == s.lost + 1 <= s.attempt + 1 && tx == s.sent[s.lost]
       case LookAtBalance(_, tx, _) => s.submitted && |s.sent| == s.lost + 1 <= s.attempt + 1 && tx == s.sent[s.lost]
       case LookAtChallenge(_, tx, _, _) =>
         s.submitted && |s.sent| == s.lost + 1 <= s.attempt + 1 && tx == s.sent[s.lost]
       case Deadline(_, tx) => s.submitted && |s.sent| == s.lost + 1 <= s.attempt + 1 && tx == s.sent[s.lost]
       case _ => Preparing(s.place) && |s.sent| == s.lost <= s.attempt && (s.submitted <==> s.sent != [])
  }

  lemma NextKeepsCoherent(config: Config, s: Progress, call: Call)
    requires Coherent(config, s)
    ensures Coherent(config, Next(config, s, call))
  {
  }

  lemma {:induction false} RunIsCoherent(config: Config, heard: seq<Call>, n: nat)
    requires n <= |heard|
    ensures Coherent(config, Run(config, heard, n))
  {
    hide Coherent, Next;
    if n == 0 {
      assert Coherent(config, START) by { StartIsCoherent(config); }
    } else {
      RunIsCoherent(config, heard, n - 1);
      NextKeepsCoherent(config, Run(config, heard, n - 1), heard[n - 1]);
    }
  }

  lemma StartIsCoherent(config: Config)
    ensures Coherent(config, START)
  {
  }

  // ---- which check may report a cancellation ------------------------------------------

  predicate EndsCancelled(s: Progress) {
    s.place == Ended(Failed(Cancelled))
  }

  // The k-th answer told the solver to stop, in an attempt that began after an
  // earlier claim had been handed in.
  predicate SolverStopped(config: Config, heard: seq<Call>, k: nat)
    requires k < |heard|
  {
    && var s := Run(config, heard, k);
    && s.place.Batch? && heard[k] == Cancelling(true) && s.sent != [] && s.lost == |s.sent|
  }

  lemma CancelStep(config: Config, heard: seq<Call>, n: nat)
    requires n < |heard|
    ensures var s, t := Run(config, heard, n), Run(config, heard, n + 1);
            EndsCancelled(t) && t.sent != []
            <==> (EndsCancelled(s) && s.sent != []) || SolverStopped(config, heard, n)
  {
    RunIsCoherent(config, heard, n);
  }

  /**
   * A drop reports a cancellation although something was sent if and only if,
   * in an attempt after one whose claim was judged lost, the solver saw the
   * flag: every check of the drop's own is silent from the first submission
   * on, and the solver's never is.
   */
  lemma {:induction false} CancelledAfterSending(config: Config, heard: seq<Call>, n: nat)
    requires n <= |heard|
    ensures EndsCancelled(Run(config, heard, n)) && Run(config, heard, n).sent != []
       <==> exists k | 0 <= k < n :: SolverStopped(config, heard, k)
  {
    hide Next, SolverStopped;
    if n > 0 {
      CancelledAfterSending(config, heard, n - 1);
      CancelStep(config, heard, n - 1);
    }
  }

  // The k-th answer showed another balance than the attempt started from, and
  // the drop starts over from that one.
  predicate BaselineMoved(config: Config, heard: seq<Call>, k: nat)
    requires k < |heard|
  {
    && var s := Run(config, heard, k);
    && s.place.Reread? && heard[k].ReadAccount? && Ineligible(heard[k].reading).None?
    && heard[k].reading.value.1 != s.before
    && heard[k].reading.value.1 + config.rules.prize <= ExactU128.MAX
  }

  /**
   * When the baseline moves, nothing has been sent yet if and only if the latch
   * is still down. Otherwise claims were sent, and every one of them had been
   * judged lost. Either way the next attempt measures from the new balance.
   */
  lemma SentWhenBaselineMoved(config: Config, heard: seq<Call>, k: nat)
    requires k < |heard| && BaselineMoved(config, heard, k)
    ensures var s, t := Run(config, heard, k), Run(config, heard, k + 1);
            && (s.sent == [] <==> !s.submitted) && s.lost == |s.sent| && t.sent == s.sent
            && (s.attempt < config.maxStaleRetries ==>
                  t.place == FreeStop(Fetch) && t.before == heard[k].reading.value.1)
            && (s.attempt >= config.maxStaleRetries ==> t.place == Ended(Failed(StaleChallengeExhausted)))
  {
    RunIsCoherent(config, heard, k);
  }

  // ---- runs, part by part ----------------------------------------------------------------

  function After(config: Config, heard: seq<Call>): Progress {
    Run(config, heard, |heard|)
  }

  // One more answer is one more step.
  lemma OneMore(config: Config, heard: seq<Call>, call: Call) returns (longer: seq<Call>)
    ensures longer == heard + [call] && After(config, longer) == Next(config, After(config, heard), call)
  {
    longer := heard + [call];
    SameRun(config, heard, longer, |heard|);
  }

  lemma Opens(config: Config, held: nat) returns (heard: seq<Call>)
    requires held + config.rules.prize <= ExactU128.MAX
    ensures After(config, heard) == START.(place := FreeStop(Fetch), before := held)
  {
    assert After(config, []) == START;
    hide After;
    heard := OneMore(config, [], Cancelling(false));
    heard := OneMore(config, heard, Verified(true));
    heard := OneMore(config, heard, Cancelling(false));
    heard := OneMore(config, heard, ReadAccount(config.recipient, Some((Eligible, held))));
  }

  // The drop's own checks may be answered either way once something was sent.
  lemma Fetches(config: Config, heard: seq<Call>, pool: nat, challenge: Challenge, up: bool)
    returns (longer: seq<Call>)
    requires After(config, heard).place == FreeStop(Fetch) && (up ==> After(config, heard).submitted)
    requires pool >= config.rules.prize && challenge.difficulty <= MAX_SUPPORTED_DIFFICULTY
    ensures After(config, longer) == After(config, heard).(place := Batch(challenge))
  {
    hide After;
    longer := OneMore(config, heard, Cancelling(up));
    longer := OneMore(config, longer, ReadPinata(Some((pool, challenge))));
    longer := OneMore(config, longer, Cancelling(up));
  }

  lemma Solves(config: Config, heard: seq<Call>, solution: nat, pool: nat) returns (longer: seq<Call>)
    requires After(config, heard).place.Batch?
    requires config.rules.fits(After(config, heard).place.challenge, solution) && pool >= config.rules.prize
    ensures After(config, longer)
         == After(config, heard).(place := Reread(After(config, heard).place.challenge, solution))
  {
    hide After;
    var challenge := After(config, heard).place.challenge;
    longer := OneMore(config, heard, Cancelling(false));
    longer := OneMore(config, longer, Solved(challenge, Some(solution)));
    longer := OneMore(config, longer, Cancelling(false));
    longer := OneMore(config, longer, Verified(true));
    longer := OneMore(config, longer, ReadPinata(Some((pool, challenge))));
  }

  lemma HandsIn(config: Config, heard: seq<Call>) returns (longer: seq<Call>)
    requires After(config, heard).place.Reread?
    ensures var s, tx := After(config, heard), Tx(config.recipient, After(config, heard).place.solution);
            After(config, longer) == s.(place := Look(s.place.challenge, tx), submitted := true, sent := s.sent + [tx])
  {
    hide After;
    var before := After(config, heard).before;
    longer := OneMore(config, heard, ReadAccount(config.recipient, Some((Eligible, before))));
    longer := OneMore(config, longer, Cancelling(false));
    longer := OneMore(config, longer, Built(true));
    longer := OneMore(config, longer, Submitted(After(config, longer).place.tx, Accepted));
  }

  lemma Loses(config: Config, heard: seq<Call>, pool: nat, next: Challenge) returns (longer: seq<Call>)
    requires var s := After(config, heard);
             s.place.Look? && s.place.challenge != next && s.attempt < config.maxStaleRetries
    ensures var s := After(config, heard);
            After(config, longer) == s.(place := FreeStop(Fetch), attempt := s.attempt + 1, lost := s.lost + 1)
  {
    hide After;
    var tx, before := After(config, heard).place.tx, After(config, heard).before;
    longer := OneMore(config, heard, Looked(tx, Some(false)));
    longer := OneMore(config, longer, ReadAccount(config.recipient, Some((Eligible, before))));
    longer := OneMore(config, longer, ReadPinata(Some((pool, next))));
  }

  // ---- both happen -----------------------------------------------------------------------

  // Alice's claim loses to Bob's, whose payment leaves a fresh challenge.
  const LOSER := Tx(ALICE, 0)
  const WINNER := Tx(BOB, 0)
  const FRESH := Challenge(1, "a")
  const TOY := Config(Toy(STRICT), ALICE, 2)
  const LOST := Attempt(LOSER, Challenge(1, ""), 0, 0, 0, 0, 0, Lost(1, 1))

  // On this chain the attempt above is what Alice's client sees.
  lemma LostIsObserved(log: seq<Event>)
    requires 1 <= |log| && log[0] == Won(WINNER, FRESH)
    ensures DropTrace(Toy(STRICT), log, ALICE, [LOST])
  {
    var rules := Toy(STRICT);
    assert ChallengeAt(rules, log, 1) == FRESH && BalanceAt(rules, log, 1, ALICE) == BalanceAt(rules, log, 0, ALICE);
    assert Observed(rules, log, ALICE, LOST);
  }

  // From the first check into the solve of the second attempt.
  lemma LosesAndSolves() returns (heard: seq<Call>)
    ensures After(TOY, heard) == Progress(Batch(FRESH), 1, 0, true, [LOSER], 1)
  {
    hide After;
    heard := Opens(TOY, 0);
    heard := Fetches(TOY, heard, 5, Challenge(1, ""), false);
    heard := Solves(TOY, heard, 0, 5);
    heard := HandsIn(TOY, heard);
    heard := Loses(TOY, heard, 4, FRESH);
    heard := Fetches(TOY, heard, 4, FRESH, true);
  }

  /**
   * A claim is handed in and loses, and the solver of the next attempt sees the
   * flag: the drop reports a cancellation after a submission. The chain is
   * lawful and the attempt is what the client observes of it.
   */
  lemma CancelledAfterSendingHappens()
    ensures exists heard, log ::
              && EndsCancelled(After(TOY, heard)) && After(TOY, heard).sent == [LOSER]
              && Lawful(Toy(STRICT), log) && DropTrace(Toy(STRICT), log, ALICE, [LOST])
  {
    var heard := LosesAndSolves();
    heard := OneMore(TOY, heard, Cancelling(true));
    var log := [Won(WINNER, FRESH)];
    LostIsObserved(log);
    assert Admissible(Toy(STRICT), log, 0, log[0]);
  }

  /**
   * A claim is handed in and loses, a deposit arrives during the next solve,
   * and the baseline moves: something has been sent by then.
   */
  lemma BaselineMovesAfterSending()
    ensures exists heard: seq<Call>, k: nat, log: seq<Event> ::
              && k < |heard| && BaselineMoved(TOY, heard, k) && Run(TOY, heard, k).sent == [LOSER]
              && heard[k].reading.value.1 == BalanceAt(Toy(STRICT), log, |log|, ALICE)
              && Lawful(Toy(STRICT), log) && DropTrace(Toy(STRICT), log, ALICE, [LOST])
  {
    var earlier := LosesAndSolves();
    earlier := Solves(TOY, earlier, 1, 4);
    var heard := OneMore(TOY, earlier, ReadAccount(ALICE, Some((Eligible, 1))));
    SameRun(TOY, earlier, heard, |earlier|);
    assert BaselineMoved(TOY, heard, |earlier|);
    var log := [Won(WINNER, FRESH), Deposited(ALICE, 1)];
    LostIsObserved(log);
    assert Admissible(Toy(STRICT), log, 0, log[0]) && Admissible(Toy(STRICT), log, 1, log[1]);
    assert BalanceAt(Toy(STRICT), log, 1, ALICE) == BalanceAt(Toy(STRICT), log, 0, ALICE) == 0;
    assert BalanceAt(Toy(STRICT), log, 2, ALICE) == 1;
  }
}
