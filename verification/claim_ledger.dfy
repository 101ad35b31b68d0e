/**
 * The durable ledger of the payout service: one row per request id
 * (claimd/src/db.rs).
 *
 * Every write is one statement on one row. A statement either takes effect or
 * fails and changes nothing; an UPDATE that matches no row is a success.
 */
module ClaimLedger {
  import opened Wrappers

  // Request ids, numbered in the order the ledger sorts their text.
  type RequestId = nat
  type Recipient = string
  type Hash = string

  datatype Status = Queued | Submitted | Included | Failed

  predicate IsTerminal(status: Status) {
    status.Included? || status.Failed?
  }

  datatype FailureCode = SubmissionRejected | OutcomeUnknown | HotBalanceLow | InternalError

  datatype Row = Row(recipient: Recipient, ipHash: string, status: Status, txHash: Option<Hash>,
                     balanceBefore: Option<nat>, balanceAfter: Option<nat>,
                     errorCode: Option<FailureCode>, createdAt: int)

  type Rows = map<RequestId, Row>

  // ---- the statements, as functions of the table -------------------------------------

  function QueuedRow(recipient: Recipient, ipHash: string, now: int): Row {
    Row(recipient, ipHash, Queued, None, None, None, None, now)
  }

  function WithBefore(rows: Rows, id: RequestId, before: nat): Rows {
    if id !in rows then rows else rows[id := rows[id].(balanceBefore := Some(before))]
  }

  // Only a queued row becomes submitted.
  function WithSubmission(rows: Rows, id: RequestId, hash: Hash): Rows {
    if id !in rows || !rows[id].status.Queued? then rows
    else rows[id := rows[id].(status := Submitted, txHash := Some(hash))]
  }

  function WithInclusion(rows: Rows, id: RequestId, after: nat): Rows {
    if id !in rows then rows
    else rows[id := rows[id].(status := Included, balanceAfter := Some(after), errorCode := None)]
  }

  // A balance that was not read leaves the stored one alone.
  function WithFailure(rows: Rows, id: RequestId, code: FailureCode, after: Option<nat>): Rows {
    if id !in rows then rows
    else rows[id := rows[id].(status := Failed, errorCode := Some(code),
                              balanceAfter := if after.Some? then after else rows[id].balanceAfter)]
  }

  // ---- queries ---------------------------------------------------------------------------

  predicate IsPending(row: Row) {
    row.status.Queued? || row.status.Submitted?
  }

  // Oldest first, then by id.
  predicate Before(rows: Rows, a: RequestId, b: RequestId)
    requires a in rows && b in rows
  {
    rows[a].createdAt < rows[b].createdAt || (rows[a].createdAt == rows[b].createdAt && a <= b)
  }

  predicate IsNextPending(rows: Rows, id: RequestId) {
    && id in rows && IsPending(rows[id])
    && forall other | other in rows && IsPending(rows[other]) :: Before(rows, id, other)
  }

  // The rows the limits see: all but those that are failed and hold no hash.
  predicate Counted(row: Row) {
    !row.status.Failed? || row.txHash.Some?
  }

  class Ledger {
    var rows: Rows
    // How many statements have failed so far.
    ghost var failures: nat

    constructor ()
      ensures rows == map[] && failures == 0
    {
      rows, failures := map[], 0;
    }

    method Statement() returns (ok: bool)
      modifies this`failures
      ensures failures == old(failures) + if ok then 0 else 1
    {
      ok := *;
      failures := failures + if ok then 0 else 1;
    }

    method Get(id: RequestId) returns (ok: bool, row: Option<Row>)
      modifies this`failures
      ensures ok ==> row == if id in rows then Some(rows[id]) else None
      ensures failures == old(failures) + if ok then 0 else 1
    {
      ok := Statement();
      row := if ok && id in rows then Some(rows[id]) else None;
    }

    // An INSERT and then a SELECT. The primary key refuses a second row for the
    // same id; an error may come from either statement, so after one the row
    // may be there or not.
    method InsertQueued(id: RequestId, recipient: Recipient, ipHash: string, now: int)
      returns (ok: bool, row: Option<Row>)
      modifies this
      ensures rows == old(rows) || (id !in old(rows) && rows == old(rows)[id := QueuedRow(recipient, ipHash, now)])
      ensures ok ==> rows != old(rows) && id in rows && row == Some(rows[id])
      ensures id in old(rows) ==> !ok
      ensures failures == old(failures) + if ok || id in old(rows) then 0 else 1
    {
      row := None;
      if id in rows { return false, None; }
      ok := Statement();
      if !ok { return; }
      rows := rows[id := QueuedRow(recipient, ipHash, now)];
      ok, row := Get(id);
    }

    method SetBalanceBefore(id: RequestId, before: nat) returns (ok: bool)
      modifies this
      ensures rows == if ok then WithBefore(old(rows), id, before) else old(rows)
      ensures failures == old(failures) + if ok then 0 else 1
    {
      ok := Statement();
      if ok && id in rows {
        rows := rows[id := rows[id].(balanceBefore := Some(before))];
      }
    }

    method MarkSubmitted(id: RequestId, hash: Hash) returns (ok: bool)
      modifies this
      ensures rows == if ok then WithSubmission(old(rows), id, hash) else old(rows)
      ensures failures == old(failures) + if ok then 0 else 1
    {
      ok := Statement();
      if ok && id in rows && rows[id].status == Queued {
        rows := rows[id := rows[id].(status := Submitted, txHash := Some(hash))];
      }
    }

    method MarkIncluded(id: RequestId, after: nat) returns (ok: bool)
      modifies this
      ensures rows == if ok then WithInclusion(old(rows), id, after) else old(rows)
      ensures failures == old(failures) + if ok then 0 else 1
    {
      ok := Statement();
      if ok && id in rows {
        rows := rows[id := rows[id].(status := Included, balanceAfter := Some(after), errorCode := None)];
      }
    }

    method MarkFailed(id: RequestId, code: FailureCode, after: Option<nat>) returns (ok: bool)
      modifies this
      ensures rows == if ok then WithFailure(old(rows), id, code, after) else old(rows)
      ensures failures == old(failures) + if ok then 0 else 1
    {
      ok := Statement();
      if ok && id in rows {
        var row := rows[id];
        match after {
          case Some(balance) =>
            rows := rows[id := row.(status := Failed, errorCode := Some(code), balanceAfter := Some(balance))];
          case None =>
            rows := rows[id := row.(status := Failed, errorCode := Some(code))];
        }
      }
    }

    // The pending row that comes first; None only when nothing is pending.
    method NextPending() returns (ok: bool, next: Option<RequestId>)
      modifies this`failures
      ensures ok && next.Some? ==> IsNextPending(rows, next.value)
      ensures ok && next.None? ==> forall id | id in rows :: !IsPending(rows[id])
      ensures failures == old(failures) + if ok then 0 else 1
    {
      ok := Statement();
      next := None;
      var unseen := rows.Keys;
      while unseen != {}
        invariant unseen <= rows.Keys
        invariant next.None? ==> forall id | id in rows && id !in unseen :: !IsPending(rows[id])
        invariant next.Some? ==> next.value in rows && IsPending(rows[next.value])
        invariant next.Some? ==>
                    forall id | id in rows && id !in unseen && IsPending(rows[id]) :: Before(rows, next.value, id)
        decreases |unseen|
      {
        var id :| id in unseen;
        if IsPending(rows[id]) && (next.None? || !Before(rows, next.value, id)) {
          next := Some(id);
        }
        unseen := unseen - {id};
      }
    }
  }
}
