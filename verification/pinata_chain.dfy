/**
 * The legacy testnet as the drop client can observe it.
 *
 * The chain is the log of what was applied to its state, in order, plus how
 * much of that log the transaction index already answers for. A claim is
 * applied only if its solution fits the challenge of that moment; applying it
 * pays the prize and replaces the challenge by a fresh one. The chain only
 * grows: blocks that are later orphaned are outside this model, as the
 * comment on `classify` says they are outside its two facts
 * (lez-faucet-ffi/src/client.rs:378-418).
 */
module PinataChain {

  type Account = string

  datatype Challenge = Challenge(difficulty: nat, seed: string)

  // A claim carries no signature and no nonce: these two values are all of it,
  // and its hash is a function of them.
  datatype Tx = Tx(winner: Account, solution: nat)

  datatype Event =
    | Deposited(to: Account, amount: nat)
    | Spent(from: Account, amount: nat)
    | Won(tx: Tx, next: Challenge)

  // What does not change: the prize, the first challenge, the opening balances
  // and the proof-of-work check.
  datatype Rules = Rules(prize: nat, origin: Challenge, opening: Account -> nat, fits: (Challenge, nat) -> bool)

  // ---- state as a function of the log ------------------------------------------

  function ChallengeAt(rules: Rules, log: seq<Event>, n: nat): Challenge
    requires n <= |log|
  {
    if n == 0 then rules.origin
    else if log[n - 1].Won? then log[n - 1].next
    else ChallengeAt(rules, log, n - 1)
  }

  function Change(rules: Rules, event: Event, account: Account): int {
    match event
    case Deposited(to, amount) => if to == account then amount else 0
    case Spent(from, amount) => if from == account then 0 - amount else 0
    case Won(tx, _) => if tx.winner == account then rules.prize else 0
  }

  function BalanceAt(rules: Rules, log: seq<Event>, n: nat, account: Account): int
    requires n <= |log|
  {
    if n == 0 then rules.opening(account) else BalanceAt(rules, log, n - 1, account) + Change(rules, log[n - 1],
      account)
  }

  // How often the claim was paid by the first n events.
  function PaidBy(log: seq<Event>, n: nat, tx: Tx): nat
    requires n <= |log|
  {
    if n == 0 then 0 else PaidBy(log, n - 1, tx) + (if log[n - 1].Won? && log[n - 1].tx == tx then 1 else 0)
  }

  predicate SeenBy(rules: Rules, log: seq<Event>, n: nat, challenge: Challenge)
    requires n <= |log|
  {
    challenge == rules.origin || exists i | 0 <= i < n :: log[i].Won? && log[i].next == challenge
  }

  // The event may be applied after the first n: a claim must fit the current
  // challenge and leave a fresh one; nobody spends more than they hold.
  predicate Admissible(rules: Rules, log: seq<Event>, n: nat, event: Event)
    requires n <= |log|
  {
    match event
    case Won(tx, next) => rules.fits(ChallengeAt(rules, log, n), tx.solution) && !SeenBy(rules, log, n, next)
    case Spent(from, amount) => amount <= BalanceAt(rules, log, n, from)
    case Deposited(_, _) => true
  }

  ghost predicate Lawful(rules: Rules, log: seq<Event>) {
    forall n {:trigger Admissible(rules, log, n, log[n])} | 0 <= n < |log| :: Admissible(rules, log, n, log[n])
  }

  // ---- what the client's safety rests on ---------------------------------------

  // No two challenges of this chain accept the solution. A difficulty of zero
  // accepts every solution and breaks this.
  ghost predicate OneChallengeOnly(rules: Rules, log: seq<Event>, solution: nat) {
    forall c, d | SeenBy(rules, log, |log|, c) && SeenBy(rules, log, |log|, d)
                  && rules.fits(c, solution) && rules.fits(d, solution) :: c == d
  }

  ghost predicate NeverSpends(log: seq<Event>, account: Account) {
    forall i | 0 <= i < |log| :: !(log[i].Spent? && log[i].from == account)
  }

  // ---- facts about lawful logs ---------------------------------------------------

  lemma {:induction false} CurrentIsSeen(rules: Rules, log: seq<Event>, n: nat)
    requires n <= |log|
    ensures SeenBy(rules, log, n, ChallengeAt(rules, log, n))
  {
    if n > 0 && !log[n - 1].Won? {
      CurrentIsSeen(rules, log, n - 1);
    }
  }

  // Once a claim is paid its challenge never comes back.
  lemma {:induction false} WonChallengeIsGone(rules: Rules, log: seq<Event>, i: nat, n: nat)
    requires Lawful(rules, log) && i < n <= |log| && log[i].Won?
    ensures ChallengeAt(rules, log, n) != ChallengeAt(rules, log, i)
  {
    if log[n - 1].Won? {
      assert Admissible(rules, log, n - 1, log[n - 1]);
      CurrentIsSeen(rules, log, i);
      assert SeenBy(rules, log, n - 1, ChallengeAt(rules, log, i));
    } else {
      WonChallengeIsGone(rules, log, i, n - 1);
    }
  }

  // A challenge that was replaced never comes back.
  lemma {:induction false} RotatedChallengeIsGone(rules: Rules, log: seq<Event>, a: nat, b: nat, n: nat)
    requires Lawful(rules, log) && a <= b <= n <= |log|
    requires ChallengeAt(rules, log, a) != ChallengeAt(rules, log, b)
    ensures ChallengeAt(rules, log, n) != ChallengeAt(rules, log, a)
    decreases b - a
  {
    hide Lawful;
    if log[a].Won? {
      WonChallengeIsGone(rules, log, a, n);
    } else {
      RotatedChallengeIsGone(rules, log, a + 1, b, n);
    }
  }

  // Two payments of one claim would need one challenge twice.
  lemma NeverPaidTwice(rules: Rules, log: seq<Event>, tx: Tx, i: nat, j: nat)
    requires Lawful(rules, log) && OneChallengeOnly(rules, log, tx.solution)
    requires i < j < |log| && log[i].Won? && log[i].tx == tx && log[j].Won?
    ensures log[j].tx != tx
  {
    if log[j].tx == tx {
      assert Admissible(rules, log, i, log[i]) && Admissible(rules, log, j, log[j]);
      SeenLater(rules, log, i);
      SeenLater(rules, log, j);
      WonChallengeIsGone(rules, log, i, j);
    }
  }

  lemma SeenLater(rules: Rules, log: seq<Event>, n: nat)
    requires n <= |log|
    ensures SeenBy(rules, log, |log|, ChallengeAt(rules, log, n))
  {
    CurrentIsSeen(rules, log, n);
  }

  lemma {:induction false} PaidMeansWon(log: seq<Event>, n: nat, tx: Tx) returns (at: nat)
    requires n <= |log| && PaidBy(log, n, tx) > 0
    ensures at < n && log[at].Won? && log[at].tx == tx && PaidBy(log, at, tx) == PaidBy(log, n, tx) - 1
  {
    if log[n - 1].Won? && log[n - 1].tx == tx {
      at := n - 1;
    } else {
      at := PaidMeansWon(log, n - 1, tx);
    }
  }

  lemma {:induction false} PaidGrows(log: seq<Event>, a: nat, b: nat, tx: Tx)
    requires a <= b <= |log|
    ensures PaidBy(log, a, tx) <= PaidBy(log, b, tx)
  {
    if a < b {
      PaidGrows(log, a, b - 1, tx);
    }
  }

  lemma PaidAtMostOnce(rules: Rules, log: seq<Event>, n: nat, tx: Tx)
    requires Lawful(rules, log) && OneChallengeOnly(rules, log, tx.solution) && n <= |log|
    ensures PaidBy(log, n, tx) <= 1
  {
    if PaidBy(log, n, tx) > 1 {
      var j := PaidMeansWon(log, n, tx);
      var i := PaidMeansWon(log, j, tx);
      NeverPaidTwice(rules, log, tx, i, j);
    }
  }

  // Without spending, what an account gains covers the prizes it was paid.
  lemma {:induction false} PrizesAreGained(rules: Rules, log: seq<Event>, a: nat, b: nat, tx: Tx)
    requires a <= b <= |log| && NeverSpends(log, tx.winner)
    ensures BalanceAt(rules, log, b, tx.winner)
         >= BalanceAt(rules, log, a, tx.winner) + (PaidBy(log, b, tx) - PaidBy(log, a, tx)) * rules.prize
    decreases b - a
  {
    hide BalanceAt, PaidBy, NeverSpends;
    if a < b {
      PrizesAreGained(rules, log, a, b - 1, tx);
      OneEventGains(rules, log, b, tx);
      OneMorePrize(PaidBy(log, b - 1, tx) - PaidBy(log, a, tx), rules.prize);
    }
  }

  lemma OneEventGains(rules: Rules, log: seq<Event>, n: nat, tx: Tx)
    requires 0 < n <= |log| && NeverSpends(log, tx.winner)
    ensures PaidBy(log, n, tx) == PaidBy(log, n - 1, tx) || PaidBy(log, n, tx) == PaidBy(log, n - 1, tx) + 1
    ensures BalanceAt(rules, log, n, tx.winner) >= BalanceAt(rules, log, n - 1, tx.winner)
         + if PaidBy(log, n, tx) > PaidBy(log, n - 1, tx) then rules.prize else 0
  {
  }

  lemma OneMorePrize(paid: int, prize: nat)
    ensures (paid + 1) * prize == paid * prize + prize
  {
  }

  lemma {:induction false} BalanceNeverNegative(rules: Rules, log: seq<Event>, n: nat, account: Account)
    requires Lawful(rules, log) && n <= |log|
    ensures BalanceAt(rules, log, n, account) >= 0
  {
    if n > 0 {
      BalanceNeverNegative(rules, log, n - 1, account);
      assert Admissible(rules, log, n - 1, log[n - 1]);
    }
  }

  // ---- growth --------------------------------------------------------------------

  ghost predicate Extends(log: seq<Event>, later: seq<Event>) {
    |log| <= |later| && forall i | 0 <= i < |log| :: later[i] == log[i]
  }

  lemma GrowsOn(log: seq<Event>, later: seq<Event>, latest: seq<Event>)
    requires Extends(log, later) && Extends(later, latest)
    ensures Extends(log, latest) && |log| <= |later| <= |latest|
  {
  }

  lemma {:induction false} SamePast(rules: Rules, log: seq<Event>, later: seq<Event>, n: nat, account: Account, tx: Tx)
    requires Extends(log, later) && n <= |log|
    ensures ChallengeAt(rules, later, n) == ChallengeAt(rules, log, n)
    ensures BalanceAt(rules, later, n, account) == BalanceAt(rules, log, n, account)
    ensures PaidBy(later, n, tx) == PaidBy(log, n, tx)
  {
    if n > 0 {
      SamePast(rules, log, later, n - 1, account, tx);
    }
  }

  lemma AdmissibleKeepsLawful(rules: Rules, log: seq<Event>, event: Event)
    requires Lawful(rules, log) && Admissible(rules, log, |log|, event)
    ensures Lawful(rules, log + [event])
  {
    var later := log + [event];
    forall n | 0 <= n < |later|
      ensures Admissible(rules, later, n, later[n])
    {
      var account := if later[n].Spent? then later[n].from else "";
      SamePast(rules, log, later, n, account, Tx("", 0));
      if n < |log| {
        assert Admissible(rules, log, n, log[n]);
      }
    }
  }
}
