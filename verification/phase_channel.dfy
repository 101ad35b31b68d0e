/**
 * The live-phase channel (lez-faucet-ffi/src/client.rs:213-303).
 *
 * Two atomics, written by the one drop that holds the permit and read by a
 * poller that takes no lock. The history is the order of the atomic writes; a
 * read is two positions in it, one for each load.
 */
module PhaseChannels {
  import opened Wrappers

  datatype DropPhase =
    | ValidatingInput | VerifyingPrograms | InspectingRecipient | FetchingChallenge
    | Solving | RefreshingChallenge | Submitting | Reconciling

  function PhaseCode(phase: DropPhase): (code: nat)
    ensures code != 0 && PhaseFromCode(code) == Some(phase)
  {
    match phase
    case ValidatingInput => 1
    case VerifyingPrograms => 2
    case InspectingRecipient => 3
    case FetchingChallenge => 4
    case Solving => 5
    case RefreshingChallenge => 6
    case Submitting => 7
    case Reconciling => 8
  }

  function PhaseFromCode(code: nat): (phase: Option<DropPhase>)
  {
    if code == 1 then Some(ValidatingInput)
    else if code == 2 then Some(VerifyingPrograms)
    else if code == 3 then Some(InspectingRecipient)
    else if code == 4 then Some(FetchingChallenge)
    else if code == 5 then Some(Solving)
    else if code == 6 then Some(RefreshingChallenge)
    else if code == 7 then Some(Submitting)
    else if code == 8 then Some(Reconciling)
    else None
  }

  // Each write names the operation that made it; the channel itself does not
  // know operations, only tokens.
  datatype Write =
    | SetPhase(op: nat, phase: DropPhase)
    | SetToken(op: nat, token: nat)
    | Clear(op: nat, token: nat)

  // ---- the two atomics after the first n writes -------------------------------------

  function TokenAt(h: seq<Write>, n: nat): nat
    requires n <= |h|
  {
    if n == 0 then 0
    else match h[n - 1]
      case SetPhase(_, _) => TokenAt(h, n - 1)
      case SetToken(_, token) => token
      case Clear(_, token) => if TokenAt(h, n - 1) == token then 0 else TokenAt(h, n - 1)
  }

  function CodeAt(h: seq<Write>, n: nat): nat
    requires n <= |h|
  {
    if n == 0 then 0
    else if h[n - 1].SetPhase? then PhaseCode(h[n - 1].phase)
    else CodeAt(h, n - 1)
  }

  // Who wrote the phase that is there.
  ghost function AuthorAt(h: seq<Write>, n: nat): Option<nat>
    requires n <= |h|
  {
    if n == 0 then None
    else if h[n - 1].SetPhase? then Some(h[n - 1].op)
    else AuthorAt(h, n - 1)
  }

  // Whose token is there: the operation that stored it last.
  ghost function LiveAt(h: seq<Write>, n: nat): Option<nat>
    requires n <= |h|
  {
    if n == 0 then None
    else if h[n - 1].SetToken? then Some(h[n - 1].op)
    else LiveAt(h, n - 1)
  }

  // What a poller gets that loads the token after a writes and the phase after b.
  function ReadAs(h: seq<Write>, a: nat, b: nat, token: nat): Option<DropPhase>
    requires a <= b <= |h|
  {
    if token == 0 || TokenAt(h, a) != token then None else PhaseFromCode(CodeAt(h, b))
  }

  // ---- what the permit guarantees -----------------------------------------------------

  // One operation at a time: each stores a phase and then its own token, any
  // number of times, and clears its token before the next operation writes.
  ghost predicate Orderly(h: seq<Write>, tokenOf: nat -> nat, n: nat)
    requires n < |h|
  {
    && (h[n].SetPhase? ==> tokenOf(h[n].op) != 0)
    && (h[n].SetToken? ==> h[n].token == tokenOf(h[n].op) && n > 0 && h[n - 1].SetPhase?)
    && (h[n].Clear? ==> h[n].token == tokenOf(h[n].op))
    && (n > 0 && h[n - 1].Clear? ==> h[n - 1].op < h[n].op)
    && (n > 0 && !h[n - 1].Clear? ==> h[n - 1].op == h[n].op)
    && (n > 0 && h[n - 1].SetPhase? ==> h[n].SetToken?)
  }

  ghost predicate Serialized(h: seq<Write>, tokenOf: nat -> nat) {
    forall n | 0 <= n < |h| :: Orderly(h, tokenOf, n)
  }

  // ---- reads --------------------------------------------------------------------------

  lemma {:induction false} OpsNeverGoBack(h: seq<Write>, tokenOf: nat -> nat, i: nat, j: nat)
    requires Serialized(h, tokenOf) && i <= j < |h|
    ensures h[i].op <= h[j].op
    ensures (exists c | i <= c < j :: h[c].Clear?) ==> h[i].op < h[j].op
    ensures (forall c | i <= c < j :: !h[c].Clear?) ==> h[i].op == h[j].op
    decreases j - i
  {
    if i < j {
      OpsNeverGoBack(h, tokenOf, i, j - 1);
      assert Orderly(h, tokenOf, j);
    }
  }

  // A token is there only while its operation is: between the store and the
  // clear, and everything since the store is that operation's.
  lemma {:induction false} LiveTokenIsCurrent(h: seq<Write>, tokenOf: nat -> nat, n: nat)
    requires Serialized(h, tokenOf) && n <= |h| && TokenAt(h, n) != 0
    ensures n > 0 && LiveAt(h, n) == Some(h[n - 1].op) && !h[n - 1].Clear?
    ensures TokenAt(h, n) == tokenOf(h[n - 1].op)
    ensures AuthorAt(h, n) == LiveAt(h, n)
  {
    assert Orderly(h, tokenOf, n - 1);
    if h[n - 1].SetPhase? {
      LiveTokenIsCurrent(h, tokenOf, n - 1);
    } else if h[n - 1].SetToken? {
      assert Orderly(h, tokenOf, n - 2);
    } else {
      LiveTokenIsCurrent(h, tokenOf, n - 1);
    }
  }

  lemma {:induction false} AuthorStays(h: seq<Write>, tokenOf: nat -> nat, a: nat, b: nat)
    requires Serialized(h, tokenOf) && 0 < a <= b <= |h| && AuthorAt(h, a) == Some(h[a - 1].op)
    ensures (forall j | a <= j < b :: h[j].SetPhase? ==> h[j].op == h[a - 1].op) ==> AuthorAt(h, b) == AuthorAt(h, a)
    ensures (exists j | a <= j < b :: h[j].SetPhase? && h[j].op != h[a - 1].op) ==>
              AuthorAt(h, b).Some? && AuthorAt(h, b).value > h[a - 1].op
    decreases b - a
  {
    if a < b {
      AuthorStays(h, tokenOf, a, b - 1);
      if h[b - 1].SetPhase? {
        OpsNeverGoBack(h, tokenOf, a - 1, b - 1);
        forall j | a <= j < b && h[j].op != h[a - 1].op
          ensures h[a - 1].op < h[b - 1].op
        {
          OpsNeverGoBack(h, tokenOf, a - 1, j);
          OpsNeverGoBack(h, tokenOf, j, b - 1);
        }
      }
    }
  }

  // A clear, and after it a phase of the next operation, both between the loads.
  ghost predicate Overtaken(h: seq<Write>, a: nat, b: nat)
    requires a <= b <= |h|
  {
    exists c, j | a <= c < j < b :: h[c].Clear? && h[j].SetPhase?
  }

  /**
   * Exactly when a read is misattributed. A poller that saw its token gets the
   * phase of the operation that stored that token, unless a clear and the next
   * operation's phase both fell between its two loads; then it gets a later
   * operation's phase.
   */
  lemma ReadIsForeignExactlyWhenOvertaken(h: seq<Write>, tokenOf: nat -> nat, a: nat, b: nat, token: nat)
    requires Serialized(h, tokenOf) && a <= b <= |h| && token != 0 && TokenAt(h, a) == token
    ensures LiveAt(h, a).Some? && tokenOf(LiveAt(h, a).value) == token && AuthorAt(h, b).Some?
    ensures AuthorAt(h, b) != LiveAt(h, a) <==> Overtaken(h, a, b)
  {
    LiveTokenIsCurrent(h, tokenOf, a);
    AuthorStays(h, tokenOf, a, b);
    forall j | a <= j < b && h[j].SetPhase?
      ensures h[j].op != h[a - 1].op <==> exists c | a <= c < j :: h[c].Clear?
    {
      OpsNeverGoBack(h, tokenOf, a - 1, j);
    }
  }

  lemma {:induction false} CodeOfAuthor(h: seq<Write>, n: nat)
    requires n <= |h| && AuthorAt(h, n).Some?
    ensures exists i | 0 <= i < n ::
              h[i].SetPhase? && Some(h[i].op) == AuthorAt(h, n) && CodeAt(h, n) == PhaseCode(h[i].phase)
  {
    if !h[n - 1].SetPhase? {
      CodeOfAuthor(h, n - 1);
    }
  }

  // With no clear between its loads a read returns only a phase that an
  // operation of that token published, and it does return one.
  lemma UndisturbedReadIsOwn(h: seq<Write>, tokenOf: nat -> nat, a: nat, b: nat, token: nat)
    requires Serialized(h, tokenOf) && a <= b <= |h| && token != 0 && TokenAt(h, a) == token
    requires forall c | a <= c < b :: !h[c].Clear?
    ensures exists i | 0 <= i < b ::
              h[i].SetPhase? && tokenOf(h[i].op) == token && ReadAs(h, a, b, token) == Some(h[i].phase)
  {
    ReadIsForeignExactlyWhenOvertaken(h, tokenOf, a, b, token);
    CodeOfAuthor(h, b);
  }

  // Once its operation has cleared it, a token that is not used again reads as
  // no phase, whoever else publishes.
  lemma {:induction false} FinishedTokenReadsNone(h: seq<Write>, i: nat, a: nat, b: nat)
    requires i < a <= b <= |h| && h[i].Clear?
    requires forall j | i < j < a :: h[j].SetToken? ==> h[j].token != h[i].token
    ensures ReadAs(h, a, b, h[i].token) == None
    decreases a
  {
    if i < a - 1 {
      FinishedTokenReadsNone(h, i, a - 1, b);
    }
  }

  // The comment's unconditional claim fails: token 5 reads the phase that the
  // operation with token 6 published.
  lemma OvertakenReadIsForeign()
    ensures exists h, tokenOf ::
              && Serialized(h, tokenOf) && |h| == 4
              && LiveAt(h, 2) == Some(0) && AuthorAt(h, 4) == Some(1)
              && tokenOf(0) == 5 && tokenOf(1) == 6
              && ReadAs(h, 2, 4, 5) == Some(Submitting)
  {
    var h := [SetPhase(0, Solving), SetToken(0, 5), Clear(0, 5), SetPhase(1, Submitting)];
    var tokenOf := (op: nat) => op + 5;
    assert Serialized(h, tokenOf);
    assert TokenAt(h, 2) == 5;
    assert LiveAt(h, 2) == Some(0) && AuthorAt(h, 4) == Some(1);
  }

  // It is the permit that makes this so: two operations writing at once
  // misattribute a phase with no clear in sight.
  lemma WithoutThePermitReadsMix()
    ensures exists h: seq<Write> ::
              && |h| == 3 && (forall c | 0 <= c < 3 :: !h[c].Clear?)
              && TokenAt(h, 3) == 5 && LiveAt(h, 3) == Some(0) && AuthorAt(h, 3) == Some(1)
  {
    var h := [SetPhase(0, Solving), SetPhase(1, Submitting), SetToken(0, 5)];
    assert TokenAt(h, 3) == 5 && LiveAt(h, 3) == Some(0);
    assert AuthorAt(h, 2) == Some(1) && AuthorAt(h, 3) == AuthorAt(h, 2);
  }

  // ---- the channel ------------------------------------------------------------------------

  class PhaseChannel {
    var token: nat
    var code: nat
    ghost var writes: seq<Write>

    ghost predicate Valid()
      reads this
    {
      token == TokenAt(writes, |writes|) && code == CodeAt(writes, |writes|)
    }

    constructor ()
      ensures Valid() && writes == []
    {
      token, code, writes := 0, 0, [];
    }

    // Phase first, then token; token 0 is never published.
    method Publish(operation: nat, phase: DropPhase, ghost op: nat)
      requires Valid()
      modifies this
      ensures Valid()
      ensures writes == old(writes) + if operation == 0 then [] else [SetPhase(op, phase), SetToken(op, operation)]
    {
      if operation == 0 { return; }
      StorePhase(phase, op);
      StoreToken(operation, op);
    }

    method StorePhase(phase: DropPhase, ghost op: nat)
      requires Valid()
      modifies this`code, this`writes
      ensures Valid() && writes == old(writes) + [SetPhase(op, phase)]
    {
      WriteShows(writes, SetPhase(op, phase));
      code := PhaseCode(phase);
      writes := writes + [SetPhase(op, phase)];
    }

    method StoreToken(operation: nat, ghost op: nat)
      requires Valid()
      modifies this`token, this`writes
      ensures Valid() && writes == old(writes) + [SetToken(op, operation)]
    {
      WriteShows(writes, SetToken(op, operation));
      token := operation;
      writes := writes + [SetToken(op, operation)];
    }

    // Zeroes the token only if it is this one; any other token stays.
    method ClearToken(operation: nat, ghost op: nat)
      requires Valid()
      modifies this
      ensures Valid() && writes == old(writes) + [Clear(op, operation)]
      ensures old(token) != operation ==> token == old(token)
    {
      if token == operation {
        token := 0;
      }
      WriteShows(writes, Clear(op, operation));
      writes := writes + [Clear(op, operation)];
    }

    // Whatever the drops write while a poller is between its loads: it may
    // well stop between the two stores of one publication.
    method Others()
      requires Valid()
      modifies this
      ensures Valid() && old(writes) <= writes
    {
      var more: nat := *;
      while more > 0
        invariant Valid() && old(writes) <= writes
      {
        var operation: nat, phase: DropPhase := *, *;
        ghost var op: nat := *;
        if * {
          StorePhase(phase, op);
        } else if * {
          StoreToken(operation, op);
        } else {
          ClearToken(operation, op);
        }
        more := more - 1;
      }
    }

    // The two loads of a poller, with writers at work between them.
    method Current(operation: nat) returns (phase: Option<DropPhase>, ghost a: nat)
      requires Valid()
      modifies this
      ensures Valid() && old(writes) <= writes && a == |old(writes)|
      ensures phase == ReadAs(writes, a, |writes|, operation)
    {
      a := |writes|;
      ghost var first := writes;
      var seen := token;
      Others();
      PastShows(first, writes, a);
      phase := if operation == 0 || seen != operation then None else PhaseFromCode(code);
    }
  }

  lemma {:induction false} PastShows(h: seq<Write>, later: seq<Write>, n: nat)
    requires h <= later && n <= |h|
    ensures TokenAt(later, n) == TokenAt(h, n) && CodeAt(later, n) == CodeAt(h, n)
  {
    if n > 0 {
      PastShows(h, later, n - 1);
    }
  }

  lemma WriteShows(h: seq<Write>, w: Write)
    ensures TokenAt(h + [w], |h|) == TokenAt(h, |h|) && CodeAt(h + [w], |h|) == CodeAt(h, |h|)
  {
    PastShows(h, h + [w], |h|);
  }
}
