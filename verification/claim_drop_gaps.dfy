/**
 * Why the end-to-end theorem of ClaimDrops has its conditions: a run for each
 * in which the client reports that nothing was sent, and a transaction for its
 * request has been accepted; and one in which the transaction it reports pays
 * somebody else.
 */
module ClaimDropGaps {
  import opened Wrappers
  import opened ClaimLedger
  import opened ClaimDrops
  import P = Payouts

  const REQUEST := Request(7, "r", 1, 0)

  // Accepted although the client was told otherwise.
  ghost predicate Contradicted(j: Joint, outcome: Outcome, faults: nat, late: bool, twice: bool) {
    && j.place == Done(outcome) && j.late == late && j.twice == twice && P.Tally(j.service.faults, REQUEST.id) == faults
    && "a" in P.AcceptedOf(j.service, REQUEST.id)
    && REQUEST.id in j.service.rows && j.service.rows[REQUEST.id].recipient == REQUEST.recipient
  }

  // The worker picks the row and its send is accepted.
  lemma PickAndSend(j: Joint) returns (k: Joint)
    requires Reachable(REQUEST, j) && j.service.place.Idle? && j.service.accepted == map[]
    requires j.service.rows == map[REQUEST.id := QueuedRow("r", "i", 0)]
    ensures Reachable(REQUEST, k)
    ensures k == j.(service := j.service.(
                      rows := map[REQUEST.id := QueuedRow("r", "i", 0).(balanceBefore := Some(0))],
                      place := P.MustMark(REQUEST.id, "a"), accepted := map["a" := REQUEST.id],
                      sends := P.Bump(j.service.sends, REQUEST.id)))
  {
    hide Run, Reachable, P.Bump;
    k := Reach(REQUEST, j, Others(P.Pick(REQUEST.id)));
    k := Reach(REQUEST, k, Others(P.Baseline(0)));
    assert k.service.rows == map[REQUEST.id := QueuedRow("r", "i", 0).(balanceBefore := Some(0))];
    k := Reach(REQUEST, k, Others(P.Send(P.Sent("a"))));
  }

  // A status read that finds no row, and reads that decide nothing.
  lemma FindNothing(j: Joint) returns (k: Joint)
    requires Reachable(REQUEST, j) && j.place.Polling? && j.place.record.None? && j.place.hash.None?
    requires REQUEST.id !in j.service.rows && j.place.missing < 2
    ensures Reachable(REQUEST, k) && k == j.(place := Polling(None, None, j.place.missing + 1))
  {
    hide Run, Reachable;
    k := Reach(REQUEST, j, ReadStatus);
    k := Reach(REQUEST, k, Judge(None, None));
  }

  /**
   * A request handled after the client gave it up: its reply is lost, three
   * status reads find no row, the drop ends "not recorded", and then the
   * service records the row and pays it.
   */
  lemma LateRequestIsPaid()
    ensures exists j :: Reachable(REQUEST, j) && Contradicted(j, NotRecorded, 0, true, false)
  {
    hide Run, Reachable, P.Bump;
    StartIsReachable(REQUEST);
    var j := Reach(REQUEST, START, LoseReply);
    j := FindNothing(j);
    j := FindNothing(j);
    j := Reach(REQUEST, j, ReadStatus);
    j := Reach(REQUEST, j, HandlePost(true, true, "i", 0));
    assert j.service == P.START.(rows := map[REQUEST.id := QueuedRow("r", "i", 0)]);
    j := PickAndSend(j);
    assert Contradicted(j, NotRecorded, 0, true, false);
  }

  // The worker dies before the mark; on restart the hot account cannot cover
  // the claim any more, and the row fails as if nothing had been sent.
  lemma CrashAndRefuse(j: Joint) returns (k: Joint)
    requires Reachable(REQUEST, j) && j.service.place == P.MustMark(REQUEST.id, "a")
    requires j.service.rows == map[REQUEST.id := QueuedRow("r", "i", 0).(balanceBefore := Some(0))]
    ensures Reachable(REQUEST, k)
    ensures k == j.(service := j.service.(rows := k.service.rows, place := P.Idle,
                                          faults := P.Bump(j.service.faults, REQUEST.id)))
    ensures k.service.rows == P.AfterWrite(j.service.(place := P.MustFail(REQUEST.id, HotBalanceLow, None))).rows
  {
    hide Run, Reachable, P.Bump;
    k := Reach(REQUEST, j, Others(P.Crash));
    k := Reach(REQUEST, k, Others(P.Pick(REQUEST.id)));
    assert k.service.place == P.Picked(REQUEST.id);
    k := Reach(REQUEST, k, Others(P.Refuse(HotBalanceLow)));
    k := Reach(REQUEST, k, Others(P.Write));
  }

  /**
   * A crash between a send and its mark: the transfer was accepted, the
   * restarted worker fails the row with hot_balance_low, and the client
   * reports that the service gave up before sending anything.
   */
  lemma CrashIsReportedAsRejected()
    ensures exists j :: Reachable(REQUEST, j) && Contradicted(j, Rejected, 1, false, false)
  {
    hide Run, Reachable;
    StartIsReachable(REQUEST);
    var j := Reach(REQUEST, START, HandlePost(true, true, "i", 0));
    assert j.service == P.START.(rows := map[REQUEST.id := QueuedRow("r", "i", 0)]);
    j := Reach(REQUEST, j, ReceiveReply);
    j := Reach(REQUEST, j, TakeRecord);
    j := Reach(REQUEST, j, Judge(None, None));
    assert j.place == Polling(None, None, 0);
    j := PickAndSend(j);
    j := CrashAndRefuse(j);
    j := Reach(REQUEST, j, ReadStatus);
    j := Reach(REQUEST, j, TakeRecord);
    assert Contradicted(j, Rejected, 1, false, false);
  }

  /**
   * The same request asked twice: the first POST is turned away by a limit and
   * the drop ends refused; the second gets in and is paid.
   */
  lemma DuplicateIsPaid()
    ensures exists j :: Reachable(REQUEST, j) && Contradicted(j, Refused, 0, false, true)
  {
    hide Run, Reachable, P.Bump;
    StartIsReachable(REQUEST);
    var j := Reach(REQUEST, START, HandlePost(false, true, "i", 0));
    j := Reach(REQUEST, j, ReceiveReply);
    j := Reach(REQUEST, j, Others(P.Insert(REQUEST.id, "r", "i", 0)));
    assert j.service == P.START.(rows := map[REQUEST.id := QueuedRow("r", "i", 0)]);
    j := PickAndSend(j);
    assert Contradicted(j, Refused, 0, false, true);
  }

  // ---- somebody else's transfer ---------------------------------------------------------

  // Sixty-four hexadecimal digits.
  const HASH: Hash := seq(64, k => 'a')

  const FOREIGN := QueuedRow("other", "i", 0)
  const SENT := FOREIGN.(status := Submitted, balanceBefore := Some(0), txHash := Some(HASH))

  // The service pays another recipient under the key.
  lemma PayForeigner() returns (j: Joint)
    ensures Reachable(REQUEST, j) && j.post.InFlight? && j.place.Asking? && !j.late && !j.served && !j.twice
    ensures j.service.rows == map[REQUEST.id := SENT] && HASH in j.service.landed
    ensures P.Tally(j.service.faults, REQUEST.id) == 0
  {
    hide Run, Reachable, P.Bump;
    StartIsReachable(REQUEST);
    j := Reach(REQUEST, START, Others(P.Insert(REQUEST.id, "other", "i", 0)));
    j := Reach(REQUEST, j, Others(P.Pick(REQUEST.id)));
    assert j.service.rows == map[REQUEST.id := FOREIGN];
    j := Reach(REQUEST, j, Others(P.Baseline(0)));
    assert j.service.rows == map[REQUEST.id := FOREIGN.(balanceBefore := Some(0))];
    j := Reach(REQUEST, j, Others(P.Send(P.Sent(HASH))));
    j := Reach(REQUEST, j, Others(P.Write));
    assert j.service.rows == map[REQUEST.id := SENT];
    j := Reach(REQUEST, j, Others(P.Land(HASH)));
  }

  /**
   * The key was already used for another recipient, the refusal of this POST is
   * lost, and the client reads that recipient's row: it takes the hash, sees it
   * included, finds its own balance up by the prize for some other reason, and
   * reports a transfer that pays somebody else. It never compares recipients.
   */
  lemma ForeignTransferIsReported()
    ensures exists j ::
              && Reachable(REQUEST, j) && j.place == Done(Paid(HASH, 1)) && !j.served && !j.twice && !j.late
              && P.Tally(j.service.faults, REQUEST.id) == 0
              && REQUEST.id in j.service.rows && j.service.rows[REQUEST.id].recipient == "other"
  {
    hide Run, Reachable, IsTxHash;
    var j := PayForeigner();
    j := Reach(REQUEST, j, HandlePost(true, true, "i", 0));
    j := Reach(REQUEST, j, LoseReply);
    j := Reach(REQUEST, j, ReadStatus);
    assert IsTxHash(HASH) by { HashIsAccepted(); }
    j := Reach(REQUEST, j, TakeRecord);
    assert j.place == Looking(Some(HASH), 0);
    j := Reach(REQUEST, j, Judge(Some(true), Some(1)));
  }

  lemma HashIsAccepted()
    ensures IsTxHash(HASH)
  {
  }
}
