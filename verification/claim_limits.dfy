/**
 * Concurrent claim handlers and their limits (claimd/src/http.rs:340-488,
 * claimd/src/db.rs:88-210).
 *
 * A handler looks for an existing row, takes the time, passes four counting
 * gates one query at a time, and inserts. Other handlers and the worker act
 * between any two of its steps. Times are in milliseconds, the precision of
 * the ledger's timestamps.
 */
module ClaimLimits {
  import opened Wrappers
  import opened ClaimLedger
  import opened FiniteSets
  import Payouts

  const HOUR: int := 3_600_000
  const DAY: int := 86_400_000

  datatype Scope = OfRecipient(recipient: Recipient) | OfIp(ipHash: string) | Global

  datatype Limits = Limits(perRecipientPerDay: nat, perIpPerDay: nat, perHour: nat, perDay: nat)

  const GATES: nat := 4

  datatype Refusal = RateLimited(gate: nat) | Paused | HotBalanceTooLow | SequencerUnreachable | LedgerFailed

  datatype Answer = Found(row: Row) | Conflict | Refused(why: Refusal)

  // AtReread: the insert was tried, and the row is to be read back.
  datatype Place = AtLookup | AtClock | AtGate(passed: nat) | AtReread | Answered(answer: Answer)

  datatype Handler = Handler(id: RequestId, recipient: Recipient, ipHash: string, now: int, place: Place)

  datatype Front = Front(rows: Rows, handlers: map<nat, Handler>)

  datatype Step =
    | Enter(h: nat, id: RequestId, recipient: Recipient, ipHash: string)
    | Advance(h: nat, now: int)
    | Refuse(h: nat, why: Refusal)
    | Settle(id: RequestId, row: Row)

  // ---- the gates -------------------------------------------------------------------

  predicate InScope(row: Row, scope: Scope) {
    match scope
    case OfRecipient(recipient) => row.recipient == recipient
    case OfIp(ipHash) => row.ipHash == ipHash
    case Global => true
  }

  function CountedSince(rows: Rows, scope: Scope, since: int): set<RequestId> {
    set id | id in rows && InScope(rows[id], scope) && rows[id].createdAt >= since && Counted(rows[id])
  }

  function CountSince(rows: Rows, scope: Scope, since: int): nat {
    |CountedSince(rows, scope, since)|
  }

  function GateScope(gate: nat, c: Handler): Scope {
    if gate == 0 then OfRecipient(c.recipient) else if gate == 1 then OfIp(c.ipHash) else Global
  }

  function Window(gate: nat): int {
    if gate == 2 then HOUR else DAY
  }

  function Limit(limits: Limits, gate: nat): nat {
    if gate == 0 then limits.perRecipientPerDay
    else if gate == 1 then limits.perIpPerDay
    else if gate == 2 then limits.perHour
    else limits.perDay
  }

  // ---- the machine -------------------------------------------------------------------

  function Lookup(rows: Rows, c: Handler): Answer
    requires c.id in rows
  {
    if rows[c.id].recipient != c.recipient then Conflict else Found(rows[c.id])
  }

  function At(c: Handler, place: Place): Handler {
    c.(place := place)
  }

  function Advanced(limits: Limits, s: Front, h: nat, now: int): Front
    requires h in s.handlers
  {
    var c := s.handlers[h];
    match c.place
    case AtLookup =>
      s.(handlers := s.handlers[h := At(c, if c.id in s.rows then Answered(Lookup(s.rows, c)) else AtClock)])
    case AtClock => s.(handlers := s.handlers[h := c.(now := now, place := AtGate(0))])
    case AtGate(passed) =>
      if passed < GATES then
        var full := CountSince(s.rows, GateScope(passed, c), c.now - Window(passed)) >= Limit(limits, passed);
        var next := if full then Answered(Refused(RateLimited(passed))) else AtGate(passed + 1);
        s.(handlers := s.handlers[h := At(c, next)])
      else
        var row := QueuedRow(c.recipient, c.ipHash, c.now);
        Front(if c.id in s.rows then s.rows else s.rows[c.id := row], s.handlers[h := At(c, AtReread)])
    case AtReread =>
      if c.id !in s.rows then s else s.(handlers := s.handlers[h := At(c, Answered(Lookup(s.rows, c)))])
    case Answered(_) => s
  }

  // What the worker may do to a row: see WorkerOnlySettles.
  predicate Settles(before: Row, after: Row) {
    && after.recipient == before.recipient && after.ipHash == before.ipHash && after.createdAt == before.createdAt
    && (Counted(after) ==> Counted(before))
  }

  // A step that is not enabled changes nothing.
  function Apply(limits: Limits, s: Front, step: Step): Front {
    match step
    case Enter(h, id, recipient, ipHash) =>
      if h in s.handlers then s else s.(handlers := s.handlers[h := Handler(id, recipient, ipHash, 0, AtLookup)])
    case Advance(h, now) => if h in s.handlers then Advanced(limits, s, h, now) else s
    case Refuse(h, why) =>
      if h in s.handlers && !s.handlers[h].place.Answered? && !why.RateLimited?
      then s.(handlers := s.handlers[h := At(s.handlers[h], Answered(Refused(why)))])
      else s
    case Settle(id, row) => if id in s.rows && Settles(s.rows[id], row) then s.(rows := s.rows[id := row]) else s
  }

  function Run(limits: Limits, s: Front, steps: seq<Step>): Front
    decreases |steps|
  {
    if steps == [] then s else Apply(limits, Run(limits, s, steps[..|steps| - 1]), steps[|steps| - 1])
  }

  const START := Front(map[], map[])

  // The payout machine only ever settles rows in this sense.
  lemma WorkerOnlySettles(prize: nat, s: Payouts.Service, step: Payouts.Step, id: RequestId)
    requires Payouts.Inv(prize, s) && id in s.rows
    ensures id in Payouts.Apply(prize, s, step).rows
    ensures Settles(s.rows[id], Payouts.Apply(prize, s, step).rows[id])
  {
    hide Payouts.SendsOk, Payouts.Expected, Payouts.NextPlace, Payouts.HashOk, Payouts.KnowsOfSend, Payouts.RowOk;
    if !s.place.Idle? {
      Payouts.SendingRowHasNoHash(prize, s);
    }
  }

  // ---- counting ------------------------------------------------------------------------

  predicate InSpan(at: int, start: int, window: int) {
    start <= at <= start + window
  }

  // The counted rows of the scope that were created in the closed span.
  function RowsInSpan(rows: Rows, scope: Scope, start: int, window: int): set<RequestId> {
    set id | id in rows && InScope(rows[id], scope) && InSpan(rows[id].createdAt, start, window) && Counted(rows[id])
  }

  predicate InFlight(c: Handler, gate: nat, scope: Scope) {
    c.place.AtGate? && c.place.passed > gate && GateScope(gate, c) == scope
  }

  // The handlers between this gate and their insert.
  function Flight(s: Front, gate: nat, scope: Scope): set<nat> {
    set h | h in s.handlers && InFlight(s.handlers[h], gate, scope)
  }

  function FlightInSpan(s: Front, gate: nat, scope: Scope, start: int, window: int): set<nat> {
    set h | h in s.handlers && InFlight(s.handlers[h], gate, scope) && InSpan(s.handlers[h].now, start, window)
  }

  // Rows that are there and rows that may still come.
  function Total(s: Front, gate: nat, scope: Scope, start: int): nat {
    |RowsInSpan(s.rows, scope, start, Window(gate))| + |FlightInSpan(s, gate, scope, start, Window(gate))|
  }

  // The row a handler inserts is in the scope it was checked for.
  lemma InsertedInScope(c: Handler, gate: nat, scope: Scope)
    requires gate < GATES
    ensures GateScope(gate, c) == scope ==> InScope(QueuedRow(c.recipient, c.ipHash, c.now), scope)
    ensures IsGateScope(gate, scope) ==>
              (InScope(QueuedRow(c.recipient, c.ipHash, c.now), scope) ==> GateScope(gate, c) == scope)
  {
  }

  // The kind of scope the gate counts in.
  predicate IsGateScope(gate: nat, scope: Scope) {
    if gate == 0 then scope.OfRecipient? else if gate == 1 then scope.OfIp? else scope.Global?
  }

  // The handler is let through this gate: the rows of any span that holds its
  // time were fewer than the limit.
  lemma PassedGateHadRoom(s: Front, gate: nat, scope: Scope, start: int, c: Handler, limit: nat)
    requires gate < GATES && GateScope(gate, c) == scope && InSpan(c.now, start, Window(gate))
    requires CountSince(s.rows, scope, c.now - Window(gate)) < limit
    ensures |RowsInSpan(s.rows, scope, start, Window(gate))| < limit
  {
    SubsetIsSmaller(RowsInSpan(s.rows, scope, start, Window(gate)), CountedSince(s.rows, scope, c.now - Window(gate)));
  }

  predicate Passes(limits: Limits, s: Front, step: Step, gate: nat, scope: Scope, start: int) {
    && step.Advance? && step.h in s.handlers && s.handlers[step.h].place == AtGate(gate) && gate < GATES
    && GateScope(gate, s.handlers[step.h]) == scope && InSpan(s.handlers[step.h].now, start, Window(gate))
    && CountSince(s.rows, scope, s.handlers[step.h].now - Window(gate)) < Limit(limits, gate)
  }

  predicate Inserts(s: Front, step: Step) {
    && step.Advance? && step.h in s.handlers && s.handlers[step.h].place.AtGate?
    && s.handlers[step.h].place.passed >= GATES && s.handlers[step.h].id !in s.rows
  }

  // Without an insert the rows of a span only get fewer.
  lemma RowsOnlyShrink(limits: Limits, s: Front, step: Step, scope: Scope, start: int, window: int)
    requires !Inserts(s, step)
    ensures RowsInSpan(Apply(limits, s, step).rows, scope, start, window) <= RowsInSpan(s.rows, scope, start, window)
  {
  }

  // Without passing the gate nobody joins those in flight.
  lemma FlightOnlyShrinks(limits: Limits, s: Front, step: Step, gate: nat, scope: Scope, start: int)
    requires gate < GATES && !Passes(limits, s, step, gate, scope, start)
    ensures FlightInSpan(Apply(limits, s, step), gate, scope, start, Window(gate))
         <= FlightInSpan(s, gate, scope, start, Window(gate))
  {
    hide Counted, CountSince;
  }

  // The step inserts the row of a handler that counts for the span.
  predicate InsertsHere(s: Front, step: Step, gate: nat, scope: Scope, start: int) {
    Inserts(s, step) && GateScope(gate, s.handlers[step.h]) == scope
      && InSpan(s.handlers[step.h].now, start, Window(gate))
  }

  lemma InsertAddsItsRow(limits: Limits, s: Front, step: Step, gate: nat, scope: Scope, start: int)
    requires gate < GATES && IsGateScope(gate, scope) && Inserts(s, step)
    ensures RowsInSpan(Apply(limits, s, step).rows, scope, start, Window(gate))
         <= RowsInSpan(s.rows, scope, start, Window(gate))
            + if InsertsHere(s, step, gate, scope, start) then {s.handlers[step.h].id} else {}
  {
    hide Counted, InScope, GateScope;
    InsertedInScope(s.handlers[step.h], gate, scope);
  }

  lemma InsertLandsItsHandler(limits: Limits, s: Front, step: Step, gate: nat, scope: Scope, start: int)
    requires gate < GATES && Inserts(s, step)
    ensures FlightInSpan(Apply(limits, s, step), gate, scope, start, Window(gate))
         <= FlightInSpan(s, gate, scope, start, Window(gate)) - {step.h}
    ensures InsertsHere(s, step, gate, scope, start) ==> step.h in FlightInSpan(s, gate, scope, start, Window(gate))
  {
    hide CountSince;
  }

  // An insert turns the handler in flight into its row.
  lemma InsertMovesOne(limits: Limits, s: Front, step: Step, gate: nat, scope: Scope, start: int)
    requires gate < GATES && IsGateScope(gate, scope) && Inserts(s, step)
    ensures Total(Apply(limits, s, step), gate, scope, start) <= Total(s, gate, scope, start)
  {
    hide Apply, RowsInSpan, FlightInSpan, GateScope, InSpan;
    InsertAddsItsRow(limits, s, step, gate, scope, start);
    InsertLandsItsHandler(limits, s, step, gate, scope, start);
    var t := Apply(limits, s, step);
    var window := Window(gate);
    var added := if InsertsHere(s, step, gate, scope, start) then {s.handlers[step.h].id} else {};
    SubsetIsSmaller(RowsInSpan(t.rows, scope, start, window), RowsInSpan(s.rows, scope, start, window) + added);
    var flying := FlightInSpan(s, gate, scope, start, window);
    SubsetIsSmaller(FlightInSpan(t, gate, scope, start, window), flying - {step.h});
  }

  lemma ApplyKeepsTotal(limits: Limits, s: Front, step: Step, gate: nat, scope: Scope, start: int, crowd: nat)
    requires gate < GATES && IsGateScope(gate, scope)
    requires |Flight(Apply(limits, s, step), gate, scope)| <= crowd
    requires Total(s, gate, scope, start) < Limit(limits, gate) + crowd || Total(s, gate, scope, start) == 0
    ensures Total(Apply(limits, s, step), gate, scope, start) < Limit(limits, gate) + crowd
         || Total(Apply(limits, s, step), gate, scope, start) == 0
  {
    hide Apply, InScope, InFlight, Counted, CountSince;
    var t := Apply(limits, s, step);
    if Inserts(s, step) {
      InsertMovesOne(limits, s, step, gate, scope, start);
    } else {
      RowsOnlyShrink(limits, s, step, scope, start, Window(gate));
      SubsetIsSmaller(RowsInSpan(t.rows, scope, start, Window(gate)), RowsInSpan(s.rows, scope, start, Window(gate)));
      if Passes(limits, s, step, gate, scope, start) {
        PassedGateHadRoom(s, gate, scope, start, s.handlers[step.h], Limit(limits, gate));
        SubsetIsSmaller(FlightInSpan(t, gate, scope, start, Window(gate)), Flight(t, gate, scope));
      } else {
        FlightOnlyShrinks(limits, s, step, gate, scope, start);
        var flying := FlightInSpan(s, gate, scope, start, Window(gate));
        SubsetIsSmaller(FlightInSpan(t, gate, scope, start, Window(gate)), flying);
      }
    }
  }

  // At no moment of the run are more handlers than this between the gate and
  // their insert.
  ghost predicate NeverMoreInFlight(limits: Limits, steps: seq<Step>, gate: nat, scope: Scope, crowd: nat)
    decreases |steps|
  {
    && |Flight(Run(limits, START, steps), gate, scope)| <= crowd
    && (steps != [] ==> NeverMoreInFlight(limits, steps[..|steps| - 1], gate, scope, crowd))
  }

  lemma {:induction false} TotalIsBounded(limits: Limits, steps: seq<Step>, gate: nat, scope: Scope,
                                          start: int, crowd: nat)
    requires gate < GATES && IsGateScope(gate, scope) && NeverMoreInFlight(limits, steps, gate, scope, crowd)
    ensures var total := Total(Run(limits, START, steps), gate, scope, start);
            total < Limit(limits, gate) + crowd || total == 0
    decreases |steps|
  {
    hide Apply, Total, Flight;
    if steps == [] {
      NothingAtStart(gate, scope, start);
    } else {
      TotalIsBounded(limits, steps[..|steps| - 1], gate, scope, start, crowd);
      ApplyKeepsTotal(limits, Run(limits, START, steps[..|steps| - 1]), steps[|steps| - 1], gate, scope, start, crowd);
    }
  }

  lemma NothingAtStart(gate: nat, scope: Scope, start: int)
    ensures Total(START, gate, scope, start) == 0
  {
    assert RowsInSpan(START.rows, scope, start, Window(gate)) == {};
    assert FlightInSpan(START, gate, scope, start, Window(gate)) == {};
  }

  /**
   * The limits hold in every span, not only the ones a gate looked at: any
   * closed stretch of the window's length holds at most the limit plus the
   * crowd minus one counted rows, where the crowd is the most handlers that
   * were ever between that gate and their insert. The clock may jump as it
   * likes.
   */
  lemma EverySpanIsLimited(limits: Limits, steps: seq<Step>, gate: nat, scope: Scope, start: int, crowd: nat)
    requires gate < GATES && IsGateScope(gate, scope) && crowd > 0
    requires NeverMoreInFlight(limits, steps, gate, scope, crowd)
    ensures |RowsInSpan(Run(limits, START, steps).rows, scope, start, Window(gate))| <= Limit(limits, gate) + crowd - 1
  {
    hide Run, NeverMoreInFlight;
    TotalIsBounded(limits, steps, gate, scope, start, crowd);
  }

  // One handler at a time: the limit itself.
  lemma SerialHandlersKeepTheLimit(limits: Limits, steps: seq<Step>, gate: nat, scope: Scope, start: int)
    requires gate < GATES && IsGateScope(gate, scope) && NeverMoreInFlight(limits, steps, gate, scope, 1)
    ensures |RowsInSpan(Run(limits, START, steps).rows, scope, start, Window(gate))| <= Limit(limits, gate)
  {
    EverySpanIsLimited(limits, steps, gate, scope, start, 1);
  }

  // ---- limit by limit ---------------------------------------------------------------------

  // The rows that use up a limit from this time on: all but those that failed
  // and hold no transaction hash.
  function UsedSince(rows: Rows, start: int): set<RequestId> {
    set id | id in rows && rows[id].createdAt >= start && (rows[id].status == Failed ==> rows[id].txHash.Some?)
  }

  function UsedWithin(rows: Rows, start: int, length: int): set<RequestId> {
    set id | id in UsedSince(rows, start) && rows[id].createdAt <= start + length
  }

  function ForRecipient(rows: Rows, ids: set<RequestId>, recipient: Recipient): set<RequestId>
    requires ids <= rows.Keys
  {
    set id | id in ids && rows[id].recipient == recipient
  }

  function FromAddress(rows: Rows, ids: set<RequestId>, ipHash: string): set<RequestId>
    requires ids <= rows.Keys
  {
    set id | id in ids && rows[id].ipHash == ipHash
  }

  // A day has 86400 seconds and an hour 3600; times are in milliseconds.
  ghost predicate IsFull(limits: Limits, rows: Rows, recipient: Recipient, ipHash: string, now: int, gate: nat) {
    var (day, hour) := (UsedSince(rows, now - 86_400_000), UsedSince(rows, now - 3_600_000));
    match gate
    case 0 => |ForRecipient(rows, day, recipient)| >= limits.perRecipientPerDay
    case 1 => |FromAddress(rows, day, ipHash)| >= limits.perIpPerDay
    case 2 => |hour| >= limits.perHour
    case _ => |day| >= limits.perDay
  }

  // What each gate looks at.
  lemma GatesSeeTheirLimits(limits: Limits, rows: Rows, c: Handler, gate: nat)
    requires gate < GATES
    ensures CountSince(rows, GateScope(gate, c), c.now - Window(gate)) >= Limit(limits, gate)
       <==> IsFull(limits, rows, c.recipient, c.ipHash, c.now, gate)
  {
    var counted := CountedSince(rows, GateScope(gate, c), c.now - Window(gate));
    var (day, hour) := (UsedSince(rows, c.now - 86_400_000), UsedSince(rows, c.now - 3_600_000));
    if gate == 0 {
      assert counted == ForRecipient(rows, day, c.recipient);
    } else if gate == 1 {
      assert counted == FromAddress(rows, day, c.ipHash);
    } else {
      assert counted == if gate == 2 then hour else day;
    }
  }

  /**
   * The four limits: of one recipient and of one address in any day, of
   * everybody in any hour and in any day. Each is exceeded by less than the
   * crowd at its gate.
   */
  lemma EachLimitHolds(limits: Limits, steps: seq<Step>, recipient: Recipient, ipHash: string, start: int, crowd: nat)
    requires crowd > 0
    requires NeverMoreInFlight(limits, steps, 0, OfRecipient(recipient), crowd)
    requires NeverMoreInFlight(limits, steps, 1, OfIp(ipHash), crowd)
    requires NeverMoreInFlight(limits, steps, 2, Global, crowd) && NeverMoreInFlight(limits, steps, 3, Global, crowd)
    ensures var rows := Run(limits, START, steps).rows;
            var (day, hour) := (UsedWithin(rows, start, 86_400_000), UsedWithin(rows, start, 3_600_000));
            && |ForRecipient(rows, day, recipient)| < limits.perRecipientPerDay + crowd
            && |FromAddress(rows, day, ipHash)| < limits.perIpPerDay + crowd
            && |hour| < limits.perHour + crowd && |day| < limits.perDay + crowd
  {
    hide Run, NeverMoreInFlight;
    var rows := Run(limits, START, steps).rows;
    var (day, hour) := (UsedWithin(rows, start, 86_400_000), UsedWithin(rows, start, 3_600_000));
    EverySpanIsLimited(limits, steps, 0, OfRecipient(recipient), start, crowd);
    EverySpanIsLimited(limits, steps, 1, OfIp(ipHash), start, crowd);
    EverySpanIsLimited(limits, steps, 2, Global, start, crowd);
    EverySpanIsLimited(limits, steps, 3, Global, start, crowd);
    assert RowsInSpan(rows, OfRecipient(recipient), start, DAY) == ForRecipient(rows, day, recipient);
    assert RowsInSpan(rows, OfIp(ipHash), start, DAY) == FromAddress(rows, day, ipHash);
    assert RowsInSpan(rows, Global, start, HOUR) == hour && RowsInSpan(rows, Global, start, DAY) == day;
  }

  // ---- the bound is met ------------------------------------------------------------------

  const ONE_EACH := Limits(1, 1, 1, 1)

  ghost predicate Reachable(limits: Limits, s: Front) {
    exists steps :: s == Run(limits, START, steps)
  }

  lemma ReachableStep(limits: Limits, s: Front, step: Step)
    requires Reachable(limits, s)
    ensures Reachable(limits, Apply(limits, s, step))
  {
    hide Apply;
    var steps :| s == Run(limits, START, steps);
    var longer := steps + [step];
    assert longer[..|longer| - 1] == steps;
    assert Apply(limits, s, step) == Run(limits, START, longer);
  }

  lemma StartIsReachable(limits: Limits)
    ensures Reachable(limits, START)
  {
    assert START == Run(limits, START, []);
  }

  function Racer(h: nat, place: Place): Handler {
    Handler(h, "r", "ip", 0, place)
  }

  function RacerRow(): Row {
    QueuedRow("r", "ip", 0)
  }

  lemma EmptyLedgerPasses(c: Handler, gate: nat)
    requires gate < GATES
    ensures CountSince(map[], GateScope(gate, c), c.now - Window(gate)) == 0
  {
    assert CountedSince(map[], GateScope(gate, c), c.now - Window(gate)) == {};
  }

  // While the ledger is empty one more handler gets as far as its insert.
  lemma {:induction false} ReachGate(s: Front, h: nat, passed: nat) returns (t: Front)
    requires Reachable(ONE_EACH, s) && s.rows == map[] && h !in s.handlers && passed <= GATES
    ensures Reachable(ONE_EACH, t) && t.rows == map[] && t.handlers == s.handlers[h := Racer(h, AtGate(passed))]
  {
    hide Run, Reachable, CountSince;
    if passed == 0 {
      t := Apply(ONE_EACH, s, Enter(h, h, "r", "ip"));
      ReachableStep(ONE_EACH, s, Enter(h, h, "r", "ip"));
      ReachableStep(ONE_EACH, t, Advance(h, 0));
      t := Apply(ONE_EACH, t, Advance(h, 0));
      ReachableStep(ONE_EACH, t, Advance(h, 0));
      t := Apply(ONE_EACH, t, Advance(h, 0));
    } else {
      var u := ReachGate(s, h, passed - 1);
      EmptyLedgerPasses(u.handlers[h], passed - 1);
      ReachableStep(ONE_EACH, u, Advance(h, 0));
      t := Apply(ONE_EACH, u, Advance(h, 0));
      assert t.handlers == s.handlers[h := Racer(h, AtGate(passed))];
    }
  }

  // The first n handlers, of which the first m have inserted.
  ghost predicate Raced(s: Front, n: nat, m: nat) {
    && (forall h: nat :: h in s.handlers <==> h < n)
    && (forall h | m <= h < n :: s.handlers[h] == Racer(h, AtGate(GATES)))
    && (forall id: nat :: id in s.rows <==> id < m)
    && (forall id | id in s.rows :: s.rows[id] == RacerRow())
  }

  lemma {:induction false} RaceTo(n: nat, m: nat) returns (s: Front)
    requires m <= n
    ensures Reachable(ONE_EACH, s) && Raced(s, n, m)
    decreases n + m
  {
    hide Run, Reachable;
    if n == 0 {
      s := START;
      StartIsReachable(ONE_EACH);
    } else if m == 0 {
      var before := RaceTo(n - 1, 0);
      assert before.rows == map[];
      s := ReachGate(before, n - 1, GATES);
    } else {
      var before := RaceTo(n, m - 1);
      ReachableStep(ONE_EACH, before, Advance(m - 1, 0));
      s := Apply(ONE_EACH, before, Advance(m - 1, 0));
    }
  }

  lemma {:induction false} FirstIds(rows: Rows, n: nat)
    requires forall id: nat :: id in rows <==> id < n
    ensures |rows.Keys| == n
    decreases n
  {
    if n > 0 {
      var fewer := rows - {n - 1};
      assert forall id: nat :: id in fewer <==> id < n - 1;
      FirstIds(fewer, n - 1);
      assert rows.Keys == fewer.Keys + {n - 1};
    } else {
      assert rows.Keys == {};
    }
  }

  /**
   * The excess is real: with every limit at one, n handlers that all pass
   * their gates before any of them inserts leave n counted rows of one
   * recipient, created at one instant.
   */
  lemma CrowdOvershoots(n: nat)
    ensures exists s :: Reachable(ONE_EACH, s) && Raced(s, n, n) && |RowsInSpan(s.rows, OfRecipient("r"), 0, DAY)| == n
  {
    hide Run, Reachable;
    var s := RaceTo(n, n);
    FirstIds(s.rows, n);
    assert RowsInSpan(s.rows, OfRecipient("r"), 0, DAY) == s.rows.Keys;
  }

  // ---- answers ---------------------------------------------------------------------------

  // What a handler was told about its id is what the ledger keeps saying.
  predicate AnswerStands(rows: Rows, c: Handler) {
    match c.place
    case Answered(Found(row)) =>
      && c.id in rows && row.recipient == c.recipient
      && rows[c.id].recipient == c.recipient && rows[c.id].createdAt == row.createdAt
    case Answered(Conflict) => c.id in rows && rows[c.id].recipient != c.recipient
    case AtReread => c.id in rows
    case _ => true
  }

  ghost predicate AnswersStand(s: Front) {
    forall h | h in s.handlers :: AnswerStands(s.rows, s.handlers[h])
  }

  lemma ApplyKeepsAnswers(limits: Limits, s: Front, step: Step)
    requires AnswersStand(s)
    ensures AnswersStand(Apply(limits, s, step))
  {
    hide CountSince, Counted;
  }

  /**
   * Idempotency under races: however the handlers interleave, a handler that
   * was answered with a row was answered with the row of its id, for its own
   * recipient, and a conflict means the id is another recipient's. Two
   * handlers of one id answered with rows saw the same row.
   */
  lemma {:induction false} AnswersAlwaysStand(limits: Limits, steps: seq<Step>)
    ensures AnswersStand(Run(limits, START, steps))
    decreases |steps|
  {
    hide Apply;
    if steps != [] {
      AnswersAlwaysStand(limits, steps[..|steps| - 1]);
      ApplyKeepsAnswers(limits, Run(limits, START, steps[..|steps| - 1]), steps[|steps| - 1]);
    }
  }

  lemma OneRowPerId(limits: Limits, steps: seq<Step>, g: nat, h: nat)
    requires var s := Run(limits, START, steps);
             && g in s.handlers && h in s.handlers && s.handlers[g].id == s.handlers[h].id
             && s.handlers[g].place.Answered? && s.handlers[g].place.answer.Found?
             && s.handlers[h].place.Answered? && s.handlers[h].place.answer.Found?
    ensures var s := Run(limits, START, steps);
            && s.handlers[g].place.answer.row.createdAt == s.handlers[h].place.answer.row.createdAt
            && s.handlers[g].recipient == s.handlers[h].recipient
  {
    hide Run;
    AnswersAlwaysStand(limits, steps);
    var s := Run(limits, START, steps);
    assert AnswerStands(s.rows, s.handlers[g]) && AnswerStands(s.rows, s.handlers[h]);
  }
}
