# A verified model of the LEZ faucet

The faucet promises one prize per press against a chain it can only observe
through separate reads that may fail. These Dafny modules model the code that
keeps the promise and prove what it keeps, for every input, every interleaving
and every failure named below.

## What is modelled

- **Legacy testnet, proof of work.** `PinataChain` is the chain as the log of
  what was applied to its state; `PinataClaims` says what a client's readings of
  it prove; `PinataDrops` is the client's drop, with its retry and its
  reconciliation loop, against a sequencer that may do anything lawful between
  two of its calls. `PinataRuns` is the same drop as a function of the answers it
  hears, which the code of `PinataDrops` is proved to follow. `Reconciliation` is
  the decision rule and `Polling` the arithmetic of the loops.
- **Sessions.** `Sessions` and `SessionClient` are concurrent callers of
  `request_drop`: idempotency ledger, permit, unreconciled recipients.
  `PinataSessions` puts all the presses of a session on one chain.
  `PhaseChannels` is the lock-free phase report beside them, and `PhaseSessions`
  derives the turns its writers take from the permit.
- **Claim service.** `ClaimLedger` is the durable table, `Payouts` the service as
  a state machine with crashes and failed statements at any step,
  `PayoutWorker` the worker's loops, `ClaimLimits` and `ClaimHandler` the
  concurrent handlers and their rate limits.
- **Client and service together.** `ClaimDrops` joins the client's claim-service
  path to the payout machine; `ClaimDropClient` is the code of that path, and
  `ClaimDropGaps` shows why the end-to-end theorem needs its assumptions.
- **Core module.** `JobRegistry` and `JobModule` are the job table, tombstones,
  drop slot and worker threads, and `JobReplies` what their answers mean;
  `JobHandles` and `JobHandleModule` are the life of the foreign client handle,
  and `JobLinks` ties its workers to the registry's. `JsonValues`, `JsonGrammar`,
  `JsonParsing`, `JsonRoundTrip`, `JsonSound`, `JsonNumbers` and `Envelopes` are
  the JSON codec and the verdict on an envelope; `ExactU128` the exact decimals.
- **View.** `FlowDecimals` and `FlowAmounts` are the decimal-string arithmetic
  that decides whether a receipt is shown. `Digits` relates digit strings to
  numbers, `FiniteSets` and `Wrappers` are shared helpers.

Code that updates state in place is a class whose methods are proved against
functions of the old state. Concurrent code is a deterministic step function
over named steps, in which a step that is not enabled changes nothing;
properties are invariants over all step sequences, and the class methods let
every other thread act between any two of their own steps.

## Assumptions, and what fails without them

- On the legacy testnet: the chain only grows, a paid claim is replaced by a
  fresh challenge, the recipient does not spend, no solution fits two challenges,
  and no claim lands between a round's balance reading and its challenge reading.
  Anybody may hand in the client's own claim. `SpendingPaysTwice`,
  `ZeroDifficultyPaysTwice` and `GapPaysTwice` are runs in which one of the last
  three fails and a drop is paid twice; `CreditsOfOneDrop` counts exactly what
  the gap costs. Over a whole session a running drop must not be abandoned for
  one claim at a time to be outstanding: `AbandonedDropLeavesTwo`.
- On the claim service: the contract of the chain backend
  (claimd/src/chain.rs:9-22), fresh transaction hashes, and statements that
  either take effect or fail. The end-to-end theorem assumes no crash or failed
  write between a send and its mark. An outcome that says nothing was sent is
  true unless another POST of the same key and recipient gets in, or, when it
  says that nothing was recorded, the own POST is handled after the client
  stopped waiting for it. `CrashIsReportedAsRejected`, `DuplicateIsPaid` and
  `LateRequestIsPaid` are the runs these conditions exclude.
- In the core module a foreign call is assumed to return eventually; joining a
  worker waits for that.

## Where the code and its comments differ

- lez-faucet-ffi/src/client.rs:1013-1016 says that no path may report a
  cancellation after a submission. The solver's own cancellation check ignores
  the `submitted` flag, so a retry can end cancelled:
  `CancelledAfterSendingHappens`, and exactly when, `CancelledAfterSending`. Every
  claim sent by then was proved lost, so nothing is credited
  (`PressPaysWhatItSays`).
- lez-faucet-ffi/src/client.rs:250-254 says a read never attributes a phase to a
  different operation. It can; `ReadIsForeignExactlyWhenOvertaken` says exactly
  when.
- lez-faucet-ffi/src/client.rs:1104-1105 says nothing has been sent when the
  baseline moved. It holds if and only if the submitted latch is down
  (`SentWhenBaselineMoved`); on a retry earlier claims were sent, and proved lost
  (`BaselineMovesAfterSending`).
- faucet-module/src/lez_faucet_module.cpp:498-535 accepts more than section 6 of
  RFC 8259, by leading zeros and nothing else: `LooserOnlyByLeadingZeros`.
- lez-faucet-ffi/src/client.rs:1398-1500 takes a transfer to another recipient for
  its own when the key was used for that recipient before and the refusal of the
  POST is lost: `ForeignTransferIsReported`, and exactly when,
  `PaidIsOursExactlyWhenServed`.

## Model

| member | source | states |
|---|---|---|
| FlowDecimals.NormalizedIsCanonical | faucet-ui/src/qml/FaucetFlow.js:31-37 | the normalised text is empty exactly for non-digits, and otherwise the one canonical decimal of the same number |
| FlowDecimals.NormalizingTwiceIsOnce | faucet-ui/src/qml/FaucetFlow.js:31-37 | normalising is idempotent |
| FlowDecimals.CompareIsNumericOrder | faucet-ui/src/qml/FaucetFlow.js:47-56 | undefined exactly when a side is not a decimal; otherwise the sign of the numeric difference, leading zeros or not |
| FlowDecimals.U128TestIsNumeric | faucet-ui/src/qml/FaucetFlow.js:39-45 | the length-and-text test accepts exactly the digit strings of value at most 2^128-1, zero only if allowed |
| FlowDecimals.AddDecimals | faucet-ui/src/qml/FaucetFlow.js:64-81 | empty exactly when a side is not a decimal; otherwise the canonical decimal of the exact sum |
| FlowDecimals.AddColumns | faucet-ui/src/qml/FaucetFlow.js:69-80 | the column loop leaves the canonical digits of the sum of any two canonical decimals, of any lengths |
| FlowDecimals.ColumnsAdd | faucet-ui/src/qml/FaucetFlow.js:73-79 | every state of the loop: digits written, carry and the columns to come are worth the sum |
| FlowDecimals.SumIsCanonical | faucet-ui/src/qml/FaucetFlow.js:73-80 | the sum never starts with a superfluous zero |
| FlowDecimals.ReceiptView | faucet-ui/src/qml/FaucetFlow.js:671-706 | a receipt is shown exactly when the address is there, the trimmed hash has 1 to 128 characters and no white space, after = before + amount as numbers, and the amount is the prize; it shows those figures in canonical form |
| FlowDecimals.TextsDecide | faucet-ui/src/qml/FaucetFlow.js:675-695 | two decimal texts are equal once normalised if and only if they have the same value, so comparing the texts of a receipt compares its figures |
| FlowDecimals.TrimIsExact | faucet-ui/src/qml/FaucetFlow.js:682 | trimming takes away the white space at both ends and nothing else |
| FlowAmounts.GroupDigits | faucet-ui/src/qml/FaucetFlow.js:92-105 | the right-to-left loop puts a comma before every third digit from the right and leaves other text untouched |
| FlowAmounts.UngroupingRestores | faucet-ui/src/qml/FaucetFlow.js:92-105 | removing the commas gives back the text |
| FlowAmounts.GroupsOfThree | faucet-ui/src/qml/FaucetFlow.js:92-105 | commas stand behind the third, sixth, ninth digit from the right and nowhere else, and the digits between them are the text's in order |
| FlowAmounts.DecimalPlaces | faucet-ui/src/qml/FaucetFlow.js:110-120 | the number k of places, 0 to 38, exactly when the value or text names k (as that number, or as a digit string of one or two places worth k), and -1 when it names none |
| FlowAmounts.FormatAmount | faucet-ui/src/qml/FaucetFlow.js:129-141 | empty for a non-decimal or unusable places, otherwise the formatted amount of the normalised text |
| FlowAmounts.PlacePoint | faucet-ui/src/qml/FaucetFlow.js:134-140 | padding, slicing and dropping zeros compute the formatted amount |
| FlowAmounts.FormatIsExact | faucet-ui/src/qml/FaucetFlow.js:122-141 | reading the output back, commas removed and scaled by 10^places, is the input's value, for every text and 0 to 38 places |
| FlowAmounts.FormatIsInjective | faucet-ui/src/qml/FaucetFlow.js:122-141 | two amounts shown alike are equal |
| FlowAmounts.FormatIsMinimal | faucet-ui/src/qml/FaucetFlow.js:122-141 | the fraction never ends in 0 and the whole part has no superfluous zero |
| ExactU128.ParseU128 | faucet-module/src/lez_faucet_module.cpp:553-572 | accepts exactly the non-empty digit strings of value at most 2^128-1 and returns that value, with no intermediate overflow of the 128-bit accumulator |
| ExactU128.U128String | faucet-module/src/lez_faucet_module.cpp:574-586 | renders the canonical decimal of the value |
| ExactU128.RenderInvertsParse | faucet-module/src/lez_faucet_module.cpp:553-586 | parse and render are inverse on canonical strings |
| ExactU128.NormalizeField | faucet-module/src/lez_faucet_module.cpp:593-608 | a text is normalised to the canonical decimal of its value, or refused, exactly by the 128-bit range |
| ExactU128.NormalizingIsIdempotent | faucet-module/src/lez_faucet_module.cpp:593-608 | normalising a normalised field changes nothing |
| JsonValues.SetThenAt | faucet-module/src/lez_faucet_module.cpp:111-137 | after a set the key reads the new value, every other key what it read, and keys stay unique |
| JsonRoundTrip.ParseDump | faucet-module/src/lez_faucet_module.cpp:141-230 | for every well-formed value, parse(dump(v)) is v if and only if its height is at most 32; a higher one is refused |
| JsonRoundTrip.ParseSpread | faucet-module/src/lez_faucet_module.cpp:237-385 | a value written with any white space before, between and behind its tokens, keys repeated or not, is read as the merged value, if and only if it nests at most 32 deep |
| JsonRoundTrip.LastKeyWins | faucet-module/src/lez_faucet_module.cpp:310-353 | of equal keys the last gives the value |
| JsonRoundTrip.FirstKeyPlaces | faucet-module/src/lez_faucet_module.cpp:128-137 | every key is there once, in the place where it came first |
| JsonRoundTrip.OnlyPadIsSkipped | faucet-module/src/lez_faucet_module.cpp:259-268 | nothing but space, tab, line feed and carriage return is ever skipped, and skipping stops at nothing else than their absence |
| JsonRoundTrip.StringBack | faucet-module/src/lez_faucet_module.cpp:160-184 | every byte string is read back from its escaped form, wherever it stands |
| JsonRoundTrip.NumberBack | faucet-module/src/lez_faucet_module.cpp:498-535 | an accepted number lexeme is read back whole when a delimiter follows |
| JsonSound.ReprintIsStable | faucet-module/src/lez_faucet_module.cpp:237-544 | whatever a text parses to is well formed and within the nesting bound, so printing and parsing it again changes nothing |
| JsonSound.LexemeIsNumber | faucet-module/src/lez_faucet_module.cpp:498-535 | the slice a number is kept as is an accepted number by itself |
| JsonSound.Utf8IsExact | faucet-module/src/lez_faucet_module.cpp:474-496 | the encoder writes the one-to-four byte form of section 3 of RFC 3629: decoding it gives the code point |
| JsonSound.SurrogatePairDecodes | faucet-module/src/lez_faucet_module.cpp:424-440 | an escaped surrogate pair is read as the code point it stands for, section 7 of RFC 8259 |
| JsonSound.ShortEscapesDecode | faucet-module/src/lez_faucet_module.cpp:395-421 | the eight short escapes of section 7 of RFC 8259 decode to their characters, and no other letter but u follows a backslash |
| JsonParsing.JsonParser.Parse | faucet-module/src/lez_faucet_module.cpp:244-257 | the recursive-descent parser returns what the grammar says of the whole document |
| JsonParsing.JsonParser.ParseValue | faucet-module/src/lez_faucet_module.cpp:284-308 | one value at the cursor: the grammar's value and end, or a refusal exactly when the grammar has none |
| JsonParsing.JsonParser.ParseObject | faucet-module/src/lez_faucet_module.cpp:310-353 | the members loop computes the grammar's object, the last of equal keys winning in the first one's place |
| JsonParsing.JsonParser.ParseArray | faucet-module/src/lez_faucet_module.cpp:355-385 | the elements loop computes the grammar's array |
| JsonParsing.JsonParser.ParseString | faucet-module/src/lez_faucet_module.cpp:392-448 | the escape loop computes the grammar's string |
| JsonParsing.JsonParser.ParseHex4 | faucet-module/src/lez_faucet_module.cpp:450-472 | four hex digits, either case, or a refusal |
| JsonParsing.JsonParser.ParseNumber | faucet-module/src/lez_faucet_module.cpp:498-535 | keeps the lexeme the grammar accepts; leading zeros are accepted |
| JsonNumbers.LooserOnlyByLeadingZeros | faucet-module/src/lez_faucet_module.cpp:498-535 | a text is a number of section 6 of RFC 8259 if and only if the parser accepts it whole and its integer part has no superfluous leading zero |
| JsonNumbers.AcceptedHasParts | faucet-module/src/lez_faucet_module.cpp:498-535 | an accepted number splits into sign, digits, fraction and exponent |
| JsonNumbers.PartsAreAccepted | faucet-module/src/lez_faucet_module.cpp:498-535 | every text with those parts is accepted, whatever zeros its integer part starts with |
| JsonNumbers.LeadingZeroIsAccepted | faucet-module/src/lez_faucet_module.cpp:507-513 | 01 is accepted, and is no number of that section |
| Envelopes.SucceedsExactly | faucet-module/src/lez_faucet_module.cpp:1219-1250 | a job settles as succeeded exactly when its worker ran and the text has a structural top-level ok with every money field in range |
| Envelopes.SettlesByText | faucet-module/src/lez_faucet_module.cpp:1219-1276 | for every text: succeeded iff the worker ran and the text is a structural ok whose money fields all fit, and then the shown result is the text's with those fields canonical; outcome_unknown iff the worker ran and the error's code is outcome_unknown; cancelled iff it did not run or the code is cancelled; failed otherwise; the error shown is the text's own if it has a code, and the phase is the error's if it names one |
| Envelopes.MessagesDecideNothing | faucet-module/src/lez_faucet_module.cpp:612-638 | an error envelope with any code and any message bytes reads back with that code and is never a success; it settles as cancelled or outcome_unknown for those two codes and as failed for any other |
| Envelopes.VerdictSurvivesPrinting | faucet-module/src/lez_faucet_module.cpp:634-638 | no text inside any string of an envelope, at any depth, changes the verdict on it |
| Envelopes.ResultNormalizes | faucet-module/src/lez_faucet_module.cpp:757-776 | normalising succeeds exactly when the result is an object whose money fields all fit |
| Envelopes.NormalizeFromMeans | faucet-module/src/lez_faucet_module.cpp:593-608 | the money fields come out canonical and of the same value; every other field is untouched |
| Reconciliation.UnknownNeverDecides | lez-faucet-ffi/src/client.rs:421-460 | a read that failed never decides anything a successful read would not have decided |
| Reconciliation.DecidesByReadings | lez-faucet-ffi/src/client.rs:413-460 | credited iff the claim was included and the balance is the baseline plus the prize; lost iff it was not, the balance is the baseline and the challenge rotated; unattributable iff the balance is neither, or is the baseline with the claim included, or the claim is included with a balance that is not the sum; otherwise another round |
| PinataRuns.DecidesAsShown | lez-faucet-ffi/src/client.rs:1225-1260 | a round leads to the receipt, the next attempt, the unknown outcome or another round exactly as its three readings show, without the decision rule's own terms |
| Polling.BoundSuffices | lez-faucet-ffi/src/client.rs:1198-1258 | after one round less than the bound the doubling sleeps have used up the deadline |
| Polling.DoublingsIsLogarithm | lez-faucet-ffi/src/client.rs:1198-1258 | the doublings counted are the logarithm of 30 s over the base interval, rounded up |
| Polling.FixedIntervalSuffices | claimd/src/worker.rs:212-263 | so many fixed sleeps use up the window |
| PinataChain.WonChallengeIsGone | lez-faucet-ffi/src/client.rs:383-399 | once a claim is paid its challenge never comes back |
| PinataChain.RotatedChallengeIsGone | lez-faucet-ffi/src/client.rs:451-457 | a challenge that was replaced never comes back |
| PinataChain.PaidAtMostOnce | lez-faucet-ffi/src/client.rs:383-399 | a claim whose solution fits one challenge only is paid at most once, ever |
| PinataChain.PrizesAreGained | lez-faucet-ffi/src/client.rs:401-411 | the balance shows every prize by the time it is paid |
| PinataChain.SamePast | lez-faucet-ffi/src/client.rs:413-418 | a chain that only grows never changes what was read of it |
| PinataChain.AdmissibleKeepsLawful | lez-faucet-ffi/src/client.rs:383-399 | the assumptions on the chain are kept by every admissible event |
| PinataClaims.LostRaceIsExact | lez-faucet-ffi/src/client.rs:451-457 | a claim judged lost is paid, on any later chain, if and only if it landed between that round's balance reading and challenge reading |
| PinataClaims.CreditIsExact | lez-faucet-ffi/src/client.rs:438-449 | a claim judged credited was paid exactly once, and nothing else moved the balance between baseline and proof |
| PinataClaims.ClaimsDiffer | lez-faucet-ffi/src/client.rs:1051-1171 | two attempts of one drop never submit the same claim |
| PinataClaims.CreditsOfOneDrop | lez-faucet-ffi/src/client.rs:1051-1171 | conservation over any number of retries: the credits are one for each lost race that landed in its gap, plus the last attempt's |
| PinataClaims.AtMostOneCredit | lez-faucet-ffi/src/client.rs:1051-1171 | with no claim in a gap one drop causes at most one credit, and exactly one if its last claim was judged credited |
| PinataClaims.QuietGapsNeverLand | lez-faucet-ffi/src/client.rs:1213-1223 | if nobody's claim is applied between a round's balance and challenge readings, none of the drop's claims lands there |
| PinataClaims.TraceSurvivesGrowth | lez-faucet-ffi/src/client.rs:1184-1260 | what was proved from readings holds of every later chain |
| PinataClaims.GapPaysTwice | lez-faucet-ffi/src/client.rs:1213-1223 | the gap assumption is needed: a run in which everything else holds and the drop is paid twice |
| PinataClaims.SpendingPaysTwice | lez-faucet-ffi/src/client.rs:451-457 | the recipient must not spend: a paid prize that is spent again looks like a lost race, and the retry is paid too |
| PinataClaims.LiveClaimIsUnpaid | lez-faucet-ffi/src/client.rs:1080-1092 | a claim that fits the challenge just read has not been paid before, whoever handed it in |
| PinataClaims.ZeroDifficultyPaysTwice | lez-faucet-ffi/src/solver.rs:61-72 | the one-challenge assumption is needed: at difficulty zero, with every other assumption in place, a rightly lost claim is paid later, and so is the retry |
| PinataDrops.Client.RunPinataDrop | lez-faucet-ffi/src/client.rs:994-1180 | the answers heard drive the machine of PinataRuns to exactly this outcome; the trace of a press holds exactly the transactions sent; all but the last were proved lost; the outcome says how the last stands; it ends unknown only if the last round's readings showed neither the credit nor the loss, and showed a balance the claim cannot explain or came with the deadline passed; an unproved claim, and nothing else, adds the recipient to the unreconciled; it ends cancelled after a submission if and only if the solver of a later attempt saw the flag; every other failure reports a reason that was read, and giving up on stale challenges takes all the retries |
| PinataRuns.CancelledAfterSending | lez-faucet-ffi/src/client.rs:1013-1025 | a drop reports a cancellation although something was sent if and only if the solver, in an attempt after one judged lost, saw the flag; the drop's own checks never do it |
| PinataRuns.CancelledAfterSendingHappens | lez-faucet-ffi/src/solver.rs:150-156 | such a run: a claim loses to a rival on a lawful chain, and the next solve is cancelled |
| PinataRuns.SentWhenBaselineMoved | lez-faucet-ffi/src/client.rs:1102-1112 | when the baseline moves nothing has been sent yet if and only if the submitted latch is down; otherwise every claim sent was judged lost; the next attempt measures from the new balance |
| PinataRuns.BaselineMovesAfterSending | lez-faucet-ffi/src/client.rs:1104-1105 | such a run: a claim loses, a deposit arrives, and the baseline moves after a submission |
| PinataRuns.RunIsCoherent | lez-faucet-ffi/src/client.rs:1011-1171 | on every run: between attempts the latch is up exactly when something was sent and everything sent was judged lost; in flight, refused, unknown or paid there is exactly one claim that was not; never more claims than attempts |
| PinataDrops.PressPaysWhatItSays | lez-faucet-ffi/src/client.rs:994-1180 | on any later chain: a receipt means exactly one credit, a refused or unknown claim at most one, any other failure, cancellation included, none |
| PinataDrops.Client.Prepare | lez-faucet-ffi/src/client.rs:1051-1115 | a claim is ready only after pool and challenge, a solution, programs, pool and challenge again, eligibility and an unmoved baseline were read, in exactly that order; a retry or a stop has its reason in the last answer, and a moved baseline is the balance of that moment; nothing is sent |
| PinataDrops.Client.FetchAndSolve | lez-faucet-ffi/src/client.rs:1052-1078 | no solve starts on an unsupported challenge or a depleted pool, and a solution fits the challenge read |
| PinataDrops.Client.Reestablish | lez-faucet-ffi/src/client.rs:1080-1115 | after the solve the same challenge, a pool that can pay, eligibility and the same baseline are read again, or the claim is not sent |
| PinataDrops.Client.OpenDrop | lez-faucet-ffi/src/client.rs:1027-1049 | programs, eligibility and headroom for the prize are checked before the first attempt, and nothing is sent |
| PinataDrops.Client.Observe | lez-faucet-ffi/src/client.rs:1202-1223 | one round asks inclusion, then balance, then challenge, and its answers hold of the chain at those moments |
| PinataDrops.Client.Reconcile | lez-faucet-ffi/src/client.rs:1184-1260 | credited if and only if the last round's readings are: included, and the baseline plus the prize; lost if and only if: in no block, the baseline, and the challenge replaced; left open only by a balance the claim cannot explain or a passed deadline; the readings are true and were taken after the submission; at most ceil(log2(30 s/p)) + ceil(D/30 s) + 1 rounds; nothing is sent |
| PinataDrops.Client.SubmitAndJudge | lez-faucet-ffi/src/client.rs:1117-1170 | one transaction is sent and its fate recorded; only an outright rejection skips reconciliation |
| PinataDrops.Client.RunAttempt | lez-faucet-ffi/src/client.rs:1051-1171 | one attempt ends the drop or leaves it between attempts: everything sent proved lost, the latch up exactly if something was sent, and the next baseline read from the chain |
| PinataDrops.Client.MustStop | lez-faucet-ffi/src/client.rs:1016-1025 | the drop's own stop check fires exactly when a cancellation is asked for and nothing was submitted |
| PinataDrops.Client.BuildClaim | lez-faucet-ffi/src/client.rs:1571-1584 | the claim names the recipient and the solution, or encoding failed and nothing is sent |
| PinataDrops.Client.Solve | lez-faucet-ffi/src/solver.rs:139-166 | a solution fits its challenge; the cancel flag is asked for before each batch and ends the solve whether or not anything was submitted |
| Sessions.ApplyKeeps | lez-faucet-ffi/src/client.rs:866-992 | the session invariant is kept by every step of every caller |
| Sessions.AtMostOneLiveRun | lez-faucet-ffi/src/client.rs:883-911 | at most one drop runs at any moment |
| Sessions.OneRunPerKey | lez-faucet-ffi/src/client.rs:899-911 | there are exactly as many runs as ledger records, no two under one key, never more than 4096 |
| Sessions.PermitIsHeld | lez-faucet-ffi/src/client.rs:1538-1553 | the permit is out exactly while some caller is to give it back, abandoned runs included |
| Sessions.RunsAnswerAsRecorded | lez-faucet-ffi/src/client.rs:901-912 | once a caller whose drop ran is answered, the ledger keeps exactly that answer under its key and account |
| Sessions.LedgerNeverForgets | lez-faucet-ffi/src/client.rs:962-992 | no record, outcome or unreconciled recipient is ever dropped or changed |
| Sessions.OutcomeIsReplayedForever | lez-faucet-ffi/src/client.rs:915-939 | a caller that arrives after the key's record and names another account never gets past its first look and is answered with a conflict; one that names the same account is answered the stored outcome, or that the drop is in progress while there is none |
| Sessions.AnswersHaveCauses | lez-faucet-ffi/src/client.rs:866-980 | whatever a caller was told without a run of its own has its cause in the ledger: a conflict means the key stands for another account, a receipt or other outcome is the stored one of its own key and account, unreconciled means its recipient is, the limit that 4096 records are there; a drop in progress needs none |
| Sessions.UnknownOutcomeFences | lez-faucet-ffi/src/client.rs:941-960 | after an unknown outcome no run for that recipient starts again, under any key |
| PinataSessions.OneClaimPerKey | lez-faucet-ffi/src/client.rs:862-865 | over all presses of a session, at most one claim on chain for a request key, whatever its callers do |
| PinataSessions.SessionPays | lez-faucet-ffi/src/client.rs:866-913 | any selection of a session's presses is paid once for each receipt and at most once for each rejected, unknown or unfinished press; every other failure was paid nothing |
| PinataSessions.OneOutstandingUnlessAbandoned | lez-faucet-ffi/src/client.rs:866-913 | over all keys at most one claim of a recipient is outstanding, unless a running drop was abandoned |
| PinataSessions.OneUnknownPerRecipient | lez-faucet-ffi/src/client.rs:941-960 | an unknown outcome is the last run of its recipient |
| PinataSessions.AbandonedDropLeavesTwo | lez-faucet-ffi/src/client.rs:1549-1553 | the exception is real: an abandoned drop and the next press both have a claim in flight, and both are paid |
| SessionClient.Client.RequestDrop | lez-faucet-ffi/src/client.rs:866-913 | with others acting between any two of its locks: a key on record for another account is answered with a conflict, for the same account with exactly the stored outcome, or while there is none with the one that came meanwhile or that the drop is in progress; a call that ran its drop is answered what the ledger now keeps, one that did not has a cause for its answer, and is told of a drop in progress only if it found the permit out or its key on record |
| SessionClient.Client.Replay | lez-faucet-ffi/src/client.rs:915-939 | one look at the ledger: none for a new key, a conflict for another account, in progress without an outcome, and otherwise that outcome |
| SessionClient.Client.EnsureReconciled | lez-faucet-ffi/src/client.rs:941-954 | refuses exactly the unreconciled recipients |
| SessionClient.Client.AcquirePermit | lez-faucet-ffi/src/client.rs:1541-1547 | succeeds exactly when the permit is free, and takes it |
| SessionClient.Client.Reserve | lez-faucet-ffi/src/client.rs:962-980 | inserts an open record unless 4096 are there |
| SessionClient.Client.RecordOutcome | lez-faucet-ffi/src/client.rs:982-992 | closes the record with the outcome |
| SessionClient.Client.ReleasePermit | lez-faucet-ffi/src/client.rs:1549-1553 | gives the permit back and nothing else |
| SessionClient.Client.RunDrop | lez-faucet-ffi/src/client.rs:956-960 | a run that ends unknown has marked its recipient |
| PhaseChannels.PhaseCode | lez-faucet-ffi/src/client.rs:218-243 | every phase survives its wire code, and none has code 0 |
| PhaseChannels.ReadIsForeignExactlyWhenOvertaken | lez-faucet-ffi/src/client.rs:245-291 | a read is misattributed if and only if a clear and a later operation's phase store both fall between its two loads |
| PhaseChannels.UndisturbedReadIsOwn | lez-faucet-ffi/src/client.rs:245-291 | with no clear between the loads a read returns a phase published under its token |
| PhaseChannels.FinishedTokenReadsNone | lez-faucet-ffi/src/client.rs:276-291 | a cleared token that is not used again reads as no phase |
| PhaseChannels.OvertakenReadIsForeign | lez-faucet-ffi/src/client.rs:250-254 | the comment's unconditional claim fails: a read of one operation returns another's phase |
| PhaseChannels.WithoutThePermitReadsMix | lez-faucet-ffi/src/client.rs:247-254 | without exclusivity a foreign phase is read with no clear at all |
| PhaseChannels.LiveTokenIsCurrent | lez-faucet-ffi/src/client.rs:265-273 | while a token is there, the phase there is its operation's |
| PhaseSessions.WritersTakeTurns | lez-faucet-ffi/src/client.rs:294-303 | with the permit and the guard of the drop, the writers of the channel take turns on every run of a session |
| PhaseSessions.SessionReadIsForeignExactlyWhenOvertaken | lez-faucet-ffi/src/client.rs:245-291 | so on every session a read is misattributed exactly when it is overtaken |
| PhaseChannels.PhaseChannel.Publish | lez-faucet-ffi/src/client.rs:265-273 | phase, then token; token 0 writes nothing |
| PhaseChannels.PhaseChannel.ClearToken | lez-faucet-ffi/src/client.rs:276-281 | a clear for another token leaves the live one alone |
| PhaseChannels.PhaseChannel.Current | lez-faucet-ffi/src/client.rs:285-291 | the two loads, with writers between them, return what the history says at those two positions |
| ClaimLedger.Ledger.InsertQueued | claimd/src/db.rs:171-188 | inserts a fresh queued row and reads it back: an answer is that row; an error leaves the table as it was or the row in it; a second row for an id is refused |
| ClaimLedger.Ledger.SetBalanceBefore | claimd/src/db.rs:265-278 | changes one field of one row, or nothing |
| ClaimLedger.Ledger.MarkSubmitted | claimd/src/db.rs:280-294 | only a queued row gets a hash and becomes submitted |
| ClaimLedger.Ledger.MarkIncluded | claimd/src/db.rs:296-305 | the row becomes included with its balance and without an error |
| ClaimLedger.Ledger.MarkFailed | claimd/src/db.rs:307-323 | the row becomes failed; a balance that was not read does not erase a stored one |
| ClaimLedger.Ledger.NextPending | claimd/src/db.rs:240-253 | the pending row that is oldest, then least by id; none only if none is pending |
| Payouts.ApplyKeeps | claimd/src/worker.rs:65-263 | the ledger and send invariant is kept by every step, crash and failed statement |
| Payouts.LedgerIsConsistent | claimd/src/db.rs:171-323 | on every reachable state: queued rows have no hash, submitted ones do, an included row is on chain with balance_after = min(before + prize, 2^128-1), a stored hash is the row's own transaction |
| Payouts.InconsistentRowIsUnreachable | claimd/src/worker.rs:84-104 | the branch for rows in an inconsistent state is never reached |
| Payouts.PossibleSendsAreBounded | claimd/src/worker.rs:151-203 | possibly accepted sends of a row number at most 1 plus the faults between a send and the write after it, and no more than those faults while the ledger knows of none |
| Payouts.PaymentsAreBounded | claimd/src/worker.rs:151-203 | accepted transactions of a row number at most 1 plus those faults |
| Payouts.CleanFailureMovedNothing | claimd/src/worker.rs:166-203 | a row that failed before reaching the chain, without such a fault, has no accepted transaction |
| Payouts.RunPreserves | claimd/src/db.rs:280-323 | for good: recipient and hash are write-once, terminal rows never change, and the worker is never again at a send for a row that has a hash or is terminal |
| Payouts.CrashPaysTwice | claimd/src/worker.rs:169-173 | the bound is met: one crash between send and mark, and the row is paid twice |
| PayoutWorker.Worker.Process | claimd/src/worker.rs:65-108 | unless a ledger statement fails the picked row is closed, and by its cause, read off the log of calls: internal error only after six failed reads of a balance or six RPC errors, hot balance low only if the balance read is below prize plus reserve or the send said so, rejected or unknown as the send said, paid iff the inclusion was seen and the balance read is the baseline plus the prize capped at 2^128-1, unknown after a hash otherwise and, with no inclusion seen, only once the window is over; nothing else of a fresh claim's course is left out: the reads, the sends and the polls are made; no other row is touched, no fault occurs, at most one send may be accepted, none if the row had a hash |
| PayoutWorker.Worker.ProcessFresh | claimd/src/worker.rs:73-107 | a claim without a hash is admitted, sent and awaited, or closed by the first of these that fails |
| PayoutWorker.Worker.SendClaim | claimd/src/worker.rs:151-203 | sends until an answer other than an RPC error, at most six times, all of them in the log; a hash is marked, any other answer closes the row with its own code |
| PayoutWorker.Worker.Submit | claimd/src/worker.rs:112-203 | the admission and then at most six sends, in the log in that order; at most one possibly accepted; a hash is returned exactly when the last reply was one and it is marked, and otherwise the row is closed by what was read or replied |
| PayoutWorker.Worker.Admit | claimd/src/worker.rs:114-149 | a send is reached exactly when the hot balance read covers prize plus reserve, saturating, the recipient's balance was read and stored; otherwise the row closes for the read that failed or the balance that was too low |
| PayoutWorker.Worker.AwaitInclusion | claimd/src/worker.rs:205-263 | the row is closed in at most ceil(P/I) + 1 polls unless a statement fails, every poll in the log: by its balance if the last poll saw it in a block, as unknown only once the window is over |
| PayoutWorker.Worker.CloseIncluded | claimd/src/worker.rs:215-251 | an included row closes as paid if and only if the balance read is the stored baseline plus the prize, capped at 2^128-1, else as unknown |
| PayoutWorker.Worker.ReadBalance | claimd/src/worker.rs:266-281 | up to six reads at least five seconds apart, all in the log; gives up only after six that failed |
| PayoutWorker.Worker.Fail | claimd/src/worker.rs:283-286 | the failure is written or the row is left as it was; only an unwritten unknown send counts as a fault |
| PayoutWorker.Worker.DrainQueue | claimd/src/worker.rs:41-62 | each round finds nothing pending, hits a failed statement, or closes an open row; with no failed statement and no insert, as many rounds as there are open rows close every row |
| PayoutWorker.Chain.Submit | claimd/src/chain.rs:9-22 | only a returned hash or an unknown outcome leaves a transaction that may be accepted |
| ClaimLimits.EverySpanIsLimited | claimd/src/http.rs:452-488 | any closed span of a window's length, wherever it lies, holds at most limit + crowd - 1 counted rows, whatever the clock does |
| ClaimLimits.EachLimitHolds | claimd/src/http.rs:452-488 | limit by limit, for every day and every hour: a recipient's, an address's and everybody's claims that did not fail without a hash exceed the limit by less than the crowd |
| ClaimLimits.GatesSeeTheirLimits | claimd/src/http.rs:452-488 | each gate is full exactly when the claims of its own recipient, address or of everybody in the last 86400 or 3600 seconds have reached its own limit |
| ClaimLimits.SerialHandlersKeepTheLimit | claimd/src/http.rs:452-488 | with one handler at a time every such span holds at most the limit |
| ClaimLimits.CrowdOvershoots | claimd/src/http.rs:384-431 | the excess is real: n handlers past their gates leave n rows where the limit is one |
| ClaimLimits.PassedGateHadRoom | claimd/src/db.rs:191-210 | a handler let through a gate leaves room in every span that holds its time |
| ClaimLimits.WorkerOnlySettles | claimd/src/db.rs:88-89 | the worker never makes an uncounted row count, nor moves it in time or scope |
| ClaimLimits.AnswersAlwaysStand | claimd/src/http.rs:358-428 | however handlers race, an answered row is the row of its id for its recipient, and a conflict is another recipient's |
| ClaimLimits.OneRowPerId | claimd/src/http.rs:409-428 | two handlers of one id answered with rows saw the same row |
| ClaimHandler.ClaimService.Claim | claimd/src/http.rs:340-431 | one POST under interference: an id that has a row is answered at the first look, whatever the limits and the pause file say; any other is checked in the one order, ten checks in all, and refused by the first check that goes against it with that check's own reason and by nothing else; only then is a row inserted, and the answer is the row of the id for this recipient, or a conflict with another's |
| ClaimHandler.ClaimService.PassGates | claimd/src/http.rs:452-488 | four counting queries at one time, in order; the first that is full or fails refuses, and a claim all let through has passed all four |
| ClaimHandler.ClaimService.FundAndInsert | claimd/src/http.rs:384-428 | after the gates the hot balance read must cover the prize once for this claim and once for every pending one, and the reserve, capped at 2^128-1; only that, an unreachable sequencer or a failed statement keeps the row from being answered |
| ClaimHandler.ClaimService.PassGate | claimd/src/http.rs:452-488 | refuses exactly when the last day or hour holds the limit of this recipient, this address or everybody, unless a statement fails |
| ClaimHandler.ClaimService.Insert | claimd/src/db.rs:171-186 | the insert alone: a fresh row for a new id, and nothing otherwise |
| ClaimHandler.ClaimService.ReadBack | claimd/src/http.rs:409-431 | the row that is there is read back: that row for its own recipient, a conflict for another |
| ClaimHandler.ClaimService.InsertAndRead | claimd/src/http.rs:409-428 | insert, then read, with others acting between and either statement failing: an error may leave the row behind, an answer is the row of the id |
| ClaimHandler.ClaimService.LookUp | claimd/src/http.rs:358-369 | an id with a row is answered at once: that row for its own recipient, a conflict for another; no row, no answer |
| ClaimHandler.ClaimService.CountPending | claimd/src/db.rs:255-263 | the claims queued or submitted are counted, unless the statement fails |
| ClaimDrops.OutcomesAreTrue | lez-faucet-ffi/src/client.rs:1323-1519 | end to end, with no fault between a send and its mark: at most one accepted transaction for the key; paid means exactly the named one, in a block, and the exact balance; rejected means none; refused means none for this recipient unless another POST of the same key and recipient got in, and not recorded the same unless that or a late POST happened |
| ClaimDrops.PaidIsOursExactlyWhenServed | lez-faucet-ffi/src/client.rs:1381-1500 | the transfer a receipt names pays the recipient of the key's row, and that is this request's if and only if a POST for this key and recipient inserted it; every record the client holds names that recipient; an answered POST means it did |
| ClaimDrops.ReceiptsAreAlwaysReal | lez-faucet-ffi/src/client.rs:1469-1500 | with any faults and late POSTs a receipt still names an accepted, landed transaction of the key |
| ClaimDrops.ApplyKeeps | lez-faucet-ffi/src/client.rs:1381-1519 | the joint invariant of client and service is kept by every step of either |
| ClaimDrops.ServiceIsReachable | claimd/src/worker.rs:41-263 | the service inside a joint run is a run of the payout machine |
| ClaimDropGaps.LateRequestIsPaid | lez-faucet-ffi/src/client.rs:1399-1416 | without the POST assumption: reported as not recorded, then recorded and paid |
| ClaimDropGaps.CrashIsReportedAsRejected | claimd/src/worker.rs:166-173 | without the fault assumption: accepted, and reported as rejected |
| ClaimDropGaps.DuplicateIsPaid | claimd/src/http.rs:358-428 | without the duplicate assumption: one POST is turned away and reported as refused, its duplicate is recorded and paid |
| ClaimDropGaps.ForeignTransferIsReported | lez-faucet-ffi/src/client.rs:1398-1500 | a key used before for another recipient, a lost refusal, and the client reports that recipient's transfer as its own |
| ClaimDropClient.ClaimDrop.RunClaimApiDrop | lez-faucet-ffi/src/client.rs:1318-1374 | one POST, then nothing if it was refused and otherwise the reconciliation, by the log of calls: the service is asked in every round but one that has a first answer at hand, the inclusion whenever a hash is held, the balance in every round that does not end the drop by itself; paid, rejected, not recorded and unknown each only if the last round's answers show it, unknown also once the deadline is over; and under every interleaving the outcome is that of the joint machine's client |
| ClaimDropClient.ClaimDrop.Reconcile | lez-faucet-ffi/src/client.rs:1381-1519 | rounds that settle nothing and a last one that settles the drop or comes when the deadline is over, at most ceil(log2(30 s/p)) + ceil(D/30 s) + 1 of them, every call of each in the log; the outcome is what the last round shows, and unknown is never said of a round that shows the credit |
| ClaimDropClient.ClaimDrop.RunRound | lez-faucet-ffi/src/client.rs:1398-1500 | one round: the answer or the row at hand, the first valid hash held, the reads of the chain unless the answer ends the drop; it ends the drop exactly as its answers show, or when the time is up, and otherwise settles nothing |
| ClaimDropClient.ClaimDrop.Learn | lez-faucet-ffi/src/client.rs:1398-1458 | one answer taken in: the first valid hash is kept, unknown answers are counted, and exactly a failed row without a hash or a third unknown answer without one ends the drop here |
| ClaimDropClient.ClaimDrop.Claim | lez-faucet-ffi/src/client.rs:1320-1341 | a recorded row, a refusal, or no usable answer; a failing service counts as the last |
| ClaimDropClient.ClaimDrop.Status | lez-faucet-ffi/src/client.rs:1398-1421 | not recorded only on the third unknown answer in a row with no hash seen |
| JobRegistry.ApplyKeeps | faucet-module/src/lez_faucet_module.cpp:938-1421 | the registry invariant is kept by every step of every thread |
| JobRegistry.OneForeignCallPerKey | faucet-module/src/lez_faucet_module.cpp:938-1027 | the foreign drop call is made at most once per request key over every interleaving |
| JobRegistry.OneForeignCallAtATime | faucet-module/src/lez_faucet_module.cpp:1423-1437 | at most one foreign drop call is in flight |
| JobRegistry.OneJobPerKey | faucet-module/src/lez_faucet_module.cpp:956-1027 | two drop jobs never share a key |
| JobRegistry.SlotIsAccountedFor | faucet-module/src/lez_faucet_module.cpp:1423-1437 | the drop slot is out exactly while one caller or one worker is to give it back |
| JobRegistry.RetainedAreBounded | faucet-module/src/lez_faucet_module.cpp:1166-1186 | at most 128 jobs are retained, and tokens are positive and strictly increasing |
| JobRegistry.RunPreserves | faucet-module/src/lez_faucet_module.cpp:1029-1102 | a published job id is never erased or changed; a finished job keeps status, phase, result and error whatever follows; what a job was asked for, and by whom, never changes |
| JobRegistry.SucceededJobsReportedSuccess | faucet-module/src/lez_faucet_module.cpp:1233-1250 | a job shown as succeeded comes from a text with a structural ok and in-range money fields |
| JobRegistry.FinishedJobsShowTheirText | faucet-module/src/lez_faucet_module.cpp:1219-1276 | every finished job shows what the text its worker came back with says, in status, result and error, or that its worker never ran |
| JobRegistry.EarlyCancelNeverCalls | faucet-module/src/lez_faucet_module.cpp:1198-1215 | a job cancelled before its worker's last look never enters the foreign call, on any run from there, and can only end cancelled |
| JobReplies.AnswersMeanWhatTheySay | faucet-module/src/lez_faucet_module.cpp:956-1027 | on every run: an accepted drop's key stands, under the caller's account, for the job of the answer, which has that key; a started job is the only one its caller made; a caller replayed or refused has made none |
| JobReplies.JobIsReplayedForever | faucet-module/src/lez_faucet_module.cpp:959-979 | once a key stands for a job, whoever asks with it later, on any run, is told of that job, or refused for a conflict if the account differs, unless the module is stopping or not configured |
| JobReplies.ApplyKeepsReplies | faucet-module/src/lez_faucet_module.cpp:938-1217 | what answers mean is kept by every step of every thread |
| JobModule.LezFaucetModule.Request | faucet-module/src/lez_faucet_module.cpp:938-1027 | under interference: started means the key now stands, for this account, for a job this call made; replayed, for a job it did not make; refused, that it made none; and if the key stood for a job before the call, the answer is that job, a conflict for another account, or that the module is stopping or not configured; nothing published or finished is taken back |
| JobModule.LezFaucetModule.StartJob | faucet-module/src/lez_faucet_module.cpp:1155-1217 | either the worker exists, with a job that this call made under its own key, and the key is to be published, or the slot is to be given back |
| JobModule.LezFaucetModule.RunWorker | faucet-module/src/lez_faucet_module.cpp:1198-1215 | under interference the thread is a worker of the registry and ends finished |
| JobModule.LezFaucetModule.SettleJob | faucet-module/src/lez_faucet_module.cpp:1219-1276 | outcome_unknown iff the worker ran and the text's error code says so, cancelled iff it did not run or the code says that, succeeded iff the text is a structural ok whose money fits, and the result is then the text's with its money canonical; the error is the text's own if it has a code; the phase is the error's or stays; nothing else of the job, and no other job, changes |
| JobModule.LezFaucetModule.ClaimKey | faucet-module/src/lez_faucet_module.cpp:959-979 | one look under the lock: claim a new key; for one that is taken a conflict for another account, in progress without a job id, and otherwise that job |
| JobModule.LezFaucetModule.AbandonReservation | faucet-module/src/lez_faucet_module.cpp:997-1006 | erases only a reservation without a job |
| JobModule.LezFaucetModule.ReserveDropSlot | faucet-module/src/lez_faucet_module.cpp:1423-1431 | succeeds exactly when the slot is free |
| JobModule.LezFaucetModule.InsertJob | faucet-module/src/lez_faucet_module.cpp:1166-1186 | a job is retained exactly when fewer than 128 are |
| JobModule.LezFaucetModule.RememberRequestKey | faucet-module/src/lez_faucet_module.cpp:1446-1456 | publishes the job id and nothing else |
| JobModule.LezFaucetModule.Cancel | faucet-module/src/lez_faucet_module.cpp:1029-1054 | a job that has not finished is marked as cancelling, its worker asked to stop and its own token handed out; nothing else changes, and a finished or unknown job yields no token |
| JobModule.LezFaucetModule.BeginWork | faucet-module/src/lez_faucet_module.cpp:1198-1213 | the job is started unless it was cancelled or the module is stopping |
| JobModule.LezFaucetModule.RefreshJobPhase | faucet-module/src/lez_faucet_module.cpp:1381-1421 | a phase that arrives late changes nothing that has finished |
| JobModule.LezFaucetModule.JobResultAck | faucet-module/src/lez_faucet_module.cpp:1067-1102 | exactly a finished job that is retained leaves the table, alone, and its tombstone stays |
| JobHandles.NoCallOnDestroyedHandle | faucet-module/src/lez_faucet_module.cpp:819-837 | a worker inside a foreign call holds the installed handle, which is not destroyed |
| JobHandles.HandlesAreConserved | faucet-module/src/lez_faucet_module.cpp:880-905 | every handle made is installed, in the hands of the call in progress, or destroyed, and none is destroyed twice |
| JobHandles.ShutdownReopens | faucet-module/src/lez_faucet_module.cpp:1104-1151 | a completed shutdown leaves no client, no running worker, and a module that configures again |
| JobHandles.NeverLeftStopping | faucet-module/src/lez_faucet_module.cpp:1117-1142 | between calls the module is never left stopping |
| JobHandles.ApplyKeeps | faucet-module/src/lez_faucet_module.cpp:1301-1350 | the handle invariant is kept by every step of the API thread and the workers |
| JobHandleModule.HandleModule.Configure | faucet-module/src/lez_faucet_module.cpp:853-905 | refused while a job is live; otherwise the new handle is installed and the old destroyed, or nothing is installed and a handle that came with a failure is destroyed |
| JobHandleModule.HandleModule.Shutdown | faucet-module/src/lez_faucet_module.cpp:1104-1151 | from any idle state, whatever the workers are at, it completes: the handle, if any, is destroyed after every worker has left, and the module can be configured again |
| JobHandleModule.HandleModule.JoinAllWorkers | faucet-module/src/lez_faucet_module.cpp:1301-1350 | marks stopping and ends with every retained worker gone and the client still in place |
| JobHandleModule.HandleModule.JobResultAck | faucet-module/src/lez_faucet_module.cpp:1067-1102 | only a settled job leaves the table, and its thread has ended by then |
| JobLinks.WorkerStepIsHandleSteps | faucet-module/src/lez_faucet_module.cpp:1155-1290 | each step of a registry worker is none, one or two steps of the handles' worker and changes nothing else there |
| JobLinks.ReturnIsHandleReturn | faucet-module/src/lez_faucet_module.cpp:1352-1361 | so is the return of its foreign call |
| JobLinks.RegistryCallsAreOnLiveHandles | faucet-module/src/lez_faucet_module.cpp:1352-1361 | so a registry worker inside a foreign call holds the installed handle, which is not destroyed |

## Left out

- Orphaned blocks: the chain model only grows, as the comment at
  lez-faucet-ffi/src/client.rs:413-440 scopes its two facts.
- SHA-256, base58 and transaction hashing: the solver finds a fitting solution in
  some batch of candidates or fails; hashes are names.
- PinataDrops.Client.Reconcile: requires a positive poll interval; with zero the
  code spins without sleeping and only the clock ends it.
- PinataDrops.Client.RunPinataDrop: the phase reports it makes are not repeated
  there; `PhaseChannels` and `PhaseSessions` model the channel.
- ClaimDropClient.ClaimDrop.RunClaimApiDrop: starts at the POST; the checks
  before it have the shape of `OpenDrop` and send nothing.
- A success status whose body the client cannot parse: the client reports a
  refusal, and the service modelled here never sends one.
- Sessions.OutcomeIsReplayedForever: a run that is abandoned records no outcome,
  so its key stays in progress for the rest of the session; panics while a lock
  is held, and so poisoned locks, are not modelled.
- PayoutWorker.Worker.DrainQueue: counts closed rows for a number of rounds; that
  the process keeps being scheduled is not modelled.
- Claim solvency across the queue: the hot balance is cached, other handlers
  insert between the check and the insert, and one reserve is counted, so the
  code makes no such guarantee. The reserve and the cached balance are inputs of
  ClaimHandler, and the query for the oldest row that only shapes the message of
  a refused claim counts as part of its gate.
- ClaimLedger.Ledger.MarkFailed: error messages and the updated_at column are not
  modelled, nor is SQLite itself.
- The mapping of wallet errors onto the backend's four classes, and the wallet
  thread.
- JobHandles.NoCallOnDestroyedHandle: holds for API calls one at a time; the code
  does not exclude `configure` or `shutdown` overlapping another call.
- JobModule.LezFaucetModule.Request: key and address checks before the gate
  only refuse and are not repeated.
- HTTP and JSON-RPC transport, configuration, salts and IP hashing, QML layout,
  wording, phase sentences, network tables, packaging and the Qt bridge.
