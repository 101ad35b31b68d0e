/**
 * How the core module judges the envelope a foreign call returned
 * (faucet-module/src/lez_faucet_module.cpp): by structure and by code, never
 * by the text of a message.
 */
module Envelopes {
  import opened Wrappers
  import opened Digits
  import opened ExactU128
  import opened JsonValues
  import opened JsonGrammar
  import opened JsonRoundTrip
  import opened JsonSound

  datatype Operation = FaucetInfo | InspectRecipient | RequestDrop

  datatype Status = Queued | Running | Cancelling | Succeeded | Failed | Cancelled | OutcomeUnknown

  predicate IsTerminal(status: Status) {
    status in {Succeeded, Failed, Cancelled, OutcomeUnknown}
  }

  function TerminalStatusForCode(code: string): (status: Status)
    ensures IsTerminal(status)
  {
    if code == "cancelled" then Cancelled
    else if code == "outcome_unknown" then OutcomeUnknown
    else Failed
  }

  function ErrorObject(code: string, message: string): Json {
    Object([Member("code", String(code)), Member("message", String(message)), Member("retryable", Bool(false))])
  }

  function ErrorEnvelope(code: string, message: string): string {
    Dump(Object([Member("ok", Bool(false)), Member("error", ErrorObject(code, message))]))
  }

  predicate EnvelopeSucceeded(envelope: Json) {
    At(envelope, "ok").Bool? && At(envelope, "ok").flag
  }

  // ---- money fields ----------------------------------------------------------

  // The money fields of each operation's result, and whether they must be there.
  function MoneyFields(operation: Operation): seq<(string, bool)> {
    match operation
    case FaucetInfo => [("prize_amount", true), ("pool_balance", true), ("claims_remaining", true)]
    case InspectRecipient => [("balance", false)]
    case RequestDrop => [("amount", true), ("balance_before", true), ("balance_after", true)]
  }

  predicate FieldFits(json: Json, key: string, required: bool) {
    var field := At(json, key);
    if field.Null? then !required else field.String? && FitsU128(field.text)
  }

  function NormalizeDecimalField(json: Json, key: string, required: bool): Option<Json>
    requires json.Object?
  {
    var field := At(json, key);
    if field.Null? then (if required then None else Some(json))
    else if !field.String? then None
    else
      var text := NormalizedField(field.text);
      if text.None? then None else Some(Object(SetMember(json.members, key, String(text.value))))
  }

  function NormalizeFrom(json: Json, fields: seq<(string, bool)>, i: nat): (r: Option<Json>)
    requires json.Object? && i <= |fields|
    decreases |fields| - i
  {
    if i == |fields| then Some(json)
    else
      var next := NormalizeDecimalField(json, fields[i].0, fields[i].1);
      if next.None? then None else NormalizeFrom(next.value, fields, i + 1)
  }

  function NormalizeResult(operation: Operation, result: Json): Option<Json> {
    if !result.Object? then None else NormalizeFrom(result, MoneyFields(operation), 0)
  }

  ghost predicate DistinctFields(fields: seq<(string, bool)>) {
    forall i, j | 0 <= i < j < |fields| :: fields[i].0 != fields[j].0
  }

  // What a normalized field shows: the canonical string of the number that came in.
  ghost predicate Normalized(before: Json, after: Json, key: string) {
    At(after, key) == if At(before, key).String? && FitsU128(At(before, key).text)
                      then String(Decimal(Value(At(before, key).text))) else At(before, key)
  }

  // Normalizing succeeds exactly when every money field is in range, rewrites
  // those fields canonically and leaves every other member alone.
  lemma {:induction false} NormalizeFromMeans(json: Json, fields: seq<(string, bool)>, i: nat, other: string)
    requires json.Object? && UniqueKeys(json.members) && DistinctFields(fields) && i <= |fields|
    ensures NormalizeFrom(json, fields, i).Some? <==>
            forall k | i <= k < |fields| :: FieldFits(json, fields[k].0, fields[k].1)
    ensures NormalizeFrom(json, fields, i).Some? ==>
              var after := NormalizeFrom(json, fields, i).value;
              && after.Object? && UniqueKeys(after.members)
              && (forall k | i <= k < |fields| :: Normalized(json, after, fields[k].0))
              && ((forall k | i <= k < |fields| :: fields[k].0 != other) ==> At(after, other) == At(json, other))
    decreases |fields| - i
  {
    hide At, SetMember, UniqueKeys, FitsU128, NormalizedField;
    if i < |fields| {
      var (key, required) := fields[i];
      FieldMeans(json, key, required, other);
      var next := NormalizeDecimalField(json, key, required);
      if next.Some? {
        forall k | i < k < |fields|
          ensures At(next.value, fields[k].0) == At(json, fields[k].0)
        {
          FieldMeans(json, key, required, fields[k].0);
        }
        NormalizeFromMeans(next.value, fields, i + 1, other);
        NormalizeFromMeans(next.value, fields, i + 1, key);
      }
    }
  }

  lemma FieldMeans(json: Json, key: string, required: bool, other: string)
    requires json.Object? && UniqueKeys(json.members)
    ensures NormalizeDecimalField(json, key, required).Some? <==> FieldFits(json, key, required)
    ensures NormalizeDecimalField(json, key, required).Some? ==>
              var after := NormalizeDecimalField(json, key, required).value;
              && after.Object? && UniqueKeys(after.members)
              && Normalized(json, after, key)
              && (other != key ==> At(after, other) == At(json, other))
  {
    var field := At(json, key);
    if field.String? && FitsU128(field.text) {
      SetThenAt(json.members, key, String(Decimal(Value(field.text))), other);
    }
  }

  // ---- settling --------------------------------------------------------------

  datatype Settled = Settled(status: Status, phase: Option<string>, result: Option<Json>, error: Option<Json>)

  function SettledError(code: string, message: string, status: Status): Settled {
    Settled(status, None, None, Some(ErrorObject(code, message)))
  }

  const CANCELLED_EARLY := "The request was cancelled before anything was submitted."
  const UNREADABLE := "The faucet returned a result this app could not read."
  const UNVERIFIED := "The faucet returned an amount this app could not verify."
  const NO_CODE := "The faucet reported a failure without a code."

  /** The terminal outcome of a job whose worker ran, or did not, and returned `raw`. */
  function Settle(operation: Operation, ran: bool, raw: string): (settled: Settled)
    ensures IsTerminal(settled.status)
  {
    if !ran then SettledError("cancelled", CANCELLED_EARLY, Cancelled)
    else if Parse(raw).None? then SettledError("internal_error", UNREADABLE, Failed)
    else
      var envelope := Parse(raw).value;
      if EnvelopeSucceeded(envelope) then
        var result := NormalizeResult(operation, At(envelope, "result"));
        if result.None? then SettledError("internal_error", UNVERIFIED, Failed)
        else Settled(Succeeded, None, result, None)
      else
        var error := At(envelope, "error");
        var code := At(error, "code");
        if !code.String? then SettledError("internal_error", NO_CODE, Failed)
        else
          var phase := At(error, "phase");
          Settled(TerminalStatusForCode(code.text), if phase.String? then Some(phase.text) else None, None, Some(error))
  }

  // When a returned text reports a success this module will show.
  ghost predicate ReportsSuccess(operation: Operation, raw: string) {
    && Parse(raw).Some?
    && At(Parse(raw).value, "ok") == Bool(true)
    && var result := At(Parse(raw).value, "result");
       && result.Object?
       && forall k | 0 <= k < |MoneyFields(operation)| ::
            FieldFits(result, MoneyFields(operation)[k].0, MoneyFields(operation)[k].1)
  }

  /**
   * `succeeded` is reached exactly when the worker ran and the text has a
   * structural top-level success whose every money field is an in-range decimal.
   */
  lemma SucceedsExactly(operation: Operation, ran: bool, raw: string)
    ensures Settle(operation, ran, raw).status == Succeeded <==> ran && ReportsSuccess(operation, raw)
    ensures Settle(operation, ran, raw).status == Succeeded ==>
              Settle(operation, ran, raw).result.Some? && Settle(operation, ran, raw).error.None?
  {
    if ran && Parse(raw).Some? && EnvelopeSucceeded(Parse(raw).value) {
      ReprintIsStable(raw);
      ResultNormalizes(Parse(raw).value, operation);
    }
  }

  lemma ResultNormalizes(envelope: Json, operation: Operation)
    requires WellFormed(envelope)
    ensures var result := At(envelope, "result");
            NormalizeResult(operation, result).Some? <==>
            && result.Object?
            && forall k | 0 <= k < |MoneyFields(operation)| ::
                 FieldFits(result, MoneyFields(operation)[k].0, MoneyFields(operation)[k].1)
  {
    hide FieldFits, NormalizeFrom;
    var result := At(envelope, "result");
    if result.Object? {
      assert WellFormed(result);
      assert DistinctFields(MoneyFields(operation));
      NormalizeFromMeans(result, MoneyFields(operation), 0, "");
    }
  }

  // ---- settling, by what the text says ------------------------------------------

  // The members of each operation's result that are money.
  predicate IsMoney(operation: Operation, key: string) {
    match operation
    case FaucetInfo => key == "prize_amount" || key == "pool_balance" || key == "claims_remaining"
    case InspectRecipient => key == "balance"
    case RequestDrop => key == "amount" || key == "balance_before" || key == "balance_after"
  }

  // The text is an envelope whose top-level ok is true.
  predicate SaysOk(raw: string) {
    Parse(raw).Some? && At(Parse(raw).value, "ok") == Bool(true)
  }

  // The text is an envelope that is not a success, and its error has this code.
  predicate SaysCode(raw: string, code: string) {
    && Parse(raw).Some? && !SaysOk(raw)
    && At(At(Parse(raw).value, "error"), "code") == String(code)
  }

  // Every money field of the text's result is an in-range decimal; only the
  // balance of a recipient may be missing.
  ghost predicate MoneyFits(operation: Operation, raw: string) {
    && SaysOk(raw) && At(Parse(raw).value, "result").Object?
    && forall key | IsMoney(operation, key) ::
         FieldFits(At(Parse(raw).value, "result"), key, !operation.InspectRecipient?)
  }

  // The member as a succeeded job shows it: money in canonical form, anything
  // else as it came.
  ghost predicate ShownAs(operation: Operation, before: Json, after: Json, key: string) {
    At(after, key) == if IsMoney(operation, key) && At(before, key).String? && FitsU128(At(before, key).text)
                      then String(Decimal(Value(At(before, key).text))) else At(before, key)
  }

  ghost predicate ResultShown(operation: Operation, before: Json, after: Json) {
    forall key :: ShownAs(operation, before, after, key)
  }

  // What a job must show for what its worker returned.
  ghost predicate IsSettledBy(operation: Operation, ran: bool, raw: string, status: Status, result: Option<Json>,
                              error: Option<Json>) {
    && (status == Succeeded <==> ran && MoneyFits(operation, raw))
    && (status == OutcomeUnknown <==> ran && SaysCode(raw, "outcome_unknown"))
    && (status == Cancelled <==> !ran || SaysCode(raw, "cancelled"))
    && (status == Failed <==> status !in {Succeeded, OutcomeUnknown, Cancelled})
    && (status == Succeeded <==> result.Some?) && (result.Some? <==> error.None?)
    && (status == Succeeded ==> ResultShown(operation, At(Parse(raw).value, "result"), result.value))
    && (ran && (exists code :: SaysCode(raw, code)) ==> error == Some(At(Parse(raw).value, "error")))
    && (!(ran && exists code :: SaysCode(raw, code)) && error.Some? ==>
          At(error.value, "code") == String(if ran then "internal_error" else "cancelled"))
  }

  // The phase a job is left with: the error's if it names one, else its own.
  ghost predicate PhaseLeft(ran: bool, raw: string, before: Option<string>, after: Option<string>) {
    if ran && (exists code :: SaysCode(raw, code)) && At(At(Parse(raw).value, "error"), "phase").String?
    then after == Some(At(At(Parse(raw).value, "error"), "phase").text)
    else after == before
  }

  lemma MoneyIsListed(operation: Operation, key: string)
    ensures IsMoney(operation, key) <==>
            exists k | 0 <= k < |MoneyFields(operation)| :: MoneyFields(operation)[k].0 == key
    ensures forall k | 0 <= k < |MoneyFields(operation)| ::
              && MoneyFields(operation)[k].1 == !operation.InspectRecipient?
              && IsMoney(operation, MoneyFields(operation)[k].0)
  {
    var fields := MoneyFields(operation);
    if IsMoney(operation, key) {
      assert fields[0].0 == key || fields[1].0 == key || fields[2].0 == key;
    }
  }

  lemma FitsByKey(operation: Operation, result: Json)
    ensures (forall k | 0 <= k < |MoneyFields(operation)| ::
               FieldFits(result, MoneyFields(operation)[k].0, MoneyFields(operation)[k].1))
       <==> (forall key | IsMoney(operation, key) :: FieldFits(result, key, !operation.InspectRecipient?))
  {
    hide FieldFits, MoneyFields, IsMoney;
    MoneyIsListed(operation, "");
    forall key | IsMoney(operation, key)
      ensures exists k | 0 <= k < |MoneyFields(operation)| :: MoneyFields(operation)[k].0 == key
    {
      MoneyIsListed(operation, key);
    }
  }

  lemma ShowsEveryMember(operation: Operation, raw: string)
    requires ReportsSuccess(operation, raw)
    ensures var result := At(Parse(raw).value, "result");
            NormalizeResult(operation, result).Some?
            && ResultShown(operation, result, NormalizeResult(operation, result).value)
  {
    hide FieldFits, NormalizeFrom, Parse;
    ReprintIsStable(raw);
    var result, fields := At(Parse(raw).value, "result"), MoneyFields(operation);
    ResultNormalizes(Parse(raw).value, operation);
    assert WellFormed(result) && DistinctFields(fields);
    forall key
      ensures ShownAs(operation, result, NormalizeResult(operation, result).value, key)
    {
      MoneyIsListed(operation, key);
      NormalizeFromMeans(result, fields, 0, key);
    }
  }

  /**
   * What a job shows is decided by the structure of what its worker returned,
   * for every text: succeeded by a structural ok with every money field in
   * range, and then the same result with those fields in canonical form;
   * cancelled and outcome unknown by the code of the error and by nothing else,
   * or by a worker that never ran; failed otherwise. The error shown is the
   * text's own if it has a code.
   */
  lemma SettlesByText(operation: Operation, ran: bool, raw: string)
    ensures var settled := Settle(operation, ran, raw);
            && IsSettledBy(operation, ran, raw, settled.status, settled.result, settled.error)
            && PhaseLeft(ran, raw, None, settled.phase)
  {
    hide Parse, FieldFits, NormalizeFrom, ResultShown;
    SucceedsExactly(operation, ran, raw);
    FitsByKey(operation, if Parse(raw).Some? then At(Parse(raw).value, "result") else Null);
    if ran && ReportsSuccess(operation, raw) {
      ShowsEveryMember(operation, raw);
    }
    OwnErrorCode("cancelled", CANCELLED_EARLY);
    OwnErrorCode("internal_error", UNREADABLE);
    OwnErrorCode("internal_error", UNVERIFIED);
    OwnErrorCode("internal_error", NO_CODE);
    if Parse(raw).Some? && !SaysOk(raw) {
      var code := At(At(Parse(raw).value, "error"), "code");
      assert code.String? ==> SaysCode(raw, code.text);
    }
  }

  lemma OwnErrorCode(code: string, message: string)
    ensures At(ErrorObject(code, message), "code") == String(code)
  {
    UniqueAt(ErrorObject(code, message).members, 0);
  }

  /**
   * No message decides anything: an error envelope built from any code and any
   * message, whatever bytes either holds, reads back as a failure with exactly
   * that code, and settles by the code alone.
   */
  lemma MessagesDecideNothing(operation: Operation, code: string, message: string)
    ensures SaysCode(ErrorEnvelope(code, message), code) && !SaysOk(ErrorEnvelope(code, message))
    ensures var settled := Settle(operation, true, ErrorEnvelope(code, message));
            && settled.status == (if code == "cancelled" then Cancelled
                                  else if code == "outcome_unknown" then OutcomeUnknown else Failed)
            && settled.error == Some(ErrorObject(code, message))
  {
    hide Parse, Dump;
    var error := ErrorObject(code, message);
    var envelope := Object([Member("ok", Bool(false)), Member("error", error)]);
    ErrorHeights(code, message);
    ParseDump(envelope);
    UniqueAt(envelope.members, 0);
    UniqueAt(envelope.members, 1);
    UniqueAt(error.members, 0);
    assert At(envelope, "ok") == Bool(false) && At(envelope, "error") == error;
    assert At(error, "code") == String(code);
    assert At(error, "phase") == Null by {
      assert IndexOf(error.members, "phase", 0) == 3;
    }
  }

  lemma ErrorHeights(code: string, message: string)
    ensures var error := ErrorObject(code, message);
            var envelope := Object([Member("ok", Bool(false)), Member("error", error)]);
            WellFormed(envelope) && Height(envelope) <= MAX_DEPTH
  {
    var error := ErrorObject(code, message);
    assert WellFormed(error);
    assert MembersHeight(error, 3) == 0 && MembersHeight(error, 2) == 1;
    assert MembersHeight(error, 1) == 1 && MembersHeight(error, 0) == 1;
    var envelope := Object([Member("ok", Bool(false)), Member("error", error)]);
    assert MembersHeight(envelope, 2) == 0 && MembersHeight(envelope, 1) == 2;
  }

  /**
   * The verdict on a printed envelope is the verdict on its structure: no text
   * inside any string of it, at any depth, is ever read as structure.
   */
  lemma VerdictSurvivesPrinting(envelope: Json)
    requires WellFormed(envelope) && Height(envelope) <= MAX_DEPTH
    ensures Parse(Dump(envelope)).Some?
    ensures EnvelopeSucceeded(Parse(Dump(envelope)).value) <==> At(envelope, "ok") == Bool(true)
  {
    hide Parse, Dump;
    ParseDump(envelope);
  }
}
