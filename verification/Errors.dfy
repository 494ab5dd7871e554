/** The exceptions the bridge distinguishes. */
module Errors {
  import opened Prelude
  import Serializer

  /** The flags of a librdkafka error. */
  datatype KafkaError = KafkaError(fatal: bool, retriable: bool, requiresAbort: bool)

  /** Why a producer method refuses to go on. */
  datatype Refusal =
    | ProducerClosed
    | ProducerFatal
    | NotTransactional
    | NotInitialized
    | AlreadyInitialized
    | AlreadyOpen
    | NotOpen
    | NotStarted

  /** Why a listener raises `CDCError`: its own state, or the native binding. */
  datatype Trouble =
    | Unserialized
    | Unacknowledged
    | NothingToAcknowledge
    | InvalidCursor
    | Native

  datatype Exc =
    | KafkaException(error: Option<KafkaError>)
    | BufferError
    | TimeoutError
    | RuntimeError(refusal: Refusal)
    | CdcRetryable
    | CdcTerminal
    | CdcClosed
    | CdcError(trouble: Trouble)
    | FdbError
    | SerializationError(input: Serializer.InputError)
    | ParseError
    | FileError
    | ValueError

  type Outcome<+T> = Result<T, Exc>

  /** `is_fatal_kafka_error`. */
  predicate IsFatalKafka(e: Exc) {
    e.KafkaException? && e.error.Some? && e.error.value.fatal
  }

  /** A commit that fails this way may still be retried; any other failure ends the transaction. */
  predicate IsRetriableCommit(e: Exc) {
    && e.KafkaException? && e.error.Some?
    && !e.error.value.fatal && e.error.value.retriable && !e.error.value.requiresAbort
  }

  /** The one error of a commit that may still be landing: not fatal, retriable, and calling for no abort. */
  const RETRY_ONLY: Exc := KafkaException(Some(KafkaError(fatal := false, retriable := true, requiresAbort := false)))

  /** The errors raised between two readings of a list of errors. */
  function Raised(before: seq<Exc>, after: seq<Exc>): seq<Exc>
    requires before <= after
  {
    after[|before|..]
  }

  predicate AllAre(errors: seq<Exc>, e: Exc) {
    forall k :: 0 <= k < |errors| ==> errors[k] == e
  }

  predicate EndsWith(errors: seq<Exc>, e: Exc) {
    errors != [] && errors[|errors| - 1] == e
  }

  predicate EndsOtherwise(errors: seq<Exc>, e: Exc) {
    errors != [] && errors[|errors| - 1] != e
  }

  /** The errors of a call that is tried again only after `e`, and `budget` times at most. */
  predicate Tried(errors: seq<Exc>, e: Exc, budget: nat) {
    |errors| <= budget && (errors != [] ==> AllAre(errors[..|errors| - 1], e))
  }

  /** One more error, whatever it is, after some that were all `e`. */
  lemma TriedAgain(before: seq<Exc>, after: seq<Exc>, e: Exc, more: Exc, budget: nat)
    requires before <= after && AllAre(Raised(before, after), e) && |Raised(before, after)| < budget
    ensures before <= after + [more]
    ensures |Raised(before, after + [more])| == |Raised(before, after)| + 1
    ensures Tried(Raised(before, after + [more]), e, budget)
    ensures more == e ==> AllAre(Raised(before, after + [more]), e) && EndsWith(Raised(before, after + [more]), e)
    ensures var errors := Raised(before, after + [more]);
            more != e ==> EndsOtherwise(errors, e) && !EndsWith(errors, e)
  {
    var errors := Raised(before, after);
    assert Raised(before, after + [more]) == errors + [more];
    assert (errors + [more])[..|errors|] == errors;
  }

  lemma EndsAt(before: seq<Exc>, after: seq<Exc>, e: Exc)
    requires before <= after
    ensures before <= after + [e] && EndsWith(Raised(before, after + [e]), e)
  {
  }

  lemma TriedNone(before: seq<Exc>, e: Exc, budget: nat)
    ensures before <= before && Raised(before, before) == []
    ensures AllAre(Raised(before, before), e) && Tried(Raised(before, before), e, budget)
    ensures !EndsWith(Raised(before, before), e) && !EndsOtherwise(Raised(before, before), e)
  {
  }

  lemma AllAreTried(errors: seq<Exc>, e: Exc, budget: nat)
    requires AllAre(errors, e) && |errors| <= budget
    ensures Tried(errors, e, budget) && !EndsOtherwise(errors, e)
  {
  }

  /** What a call into FoundationDB raises. */
  predicate FromFdb(e: Exc) {
    e.CdcRetryable? || e.CdcTerminal? || e.FdbError? || e == CdcError(Native)
  }

  /** The refusals that only a rebuild clears: raised by a closed, failed or stuck component. */
  predicate IsSticky(e: Exc) {
    || e.RuntimeError?
    || e.CdcClosed?
    || (e.CdcError? && (e.trouble.Unserialized? || e.trouble.Unacknowledged? || e.trouble.NothingToAcknowledge?))
  }
}
