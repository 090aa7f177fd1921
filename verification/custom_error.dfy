/** The `CustomError` record of the `errorHandling` package: an immutable error descriptor
    with a stable code, a human-readable message, an HTTP status, a context map meant for
    the response, a logged-context map meant only for logs, and an optional cause.
    Every update returns a new record; the receiver is a value and never changes. */
module CustomErrors {
  import opened Wrappers
  import opened Throwables

  /** `Status.BAD_REQUEST.statusCode` and `Status.INTERNAL_SERVER_ERROR.statusCode`. */
  const BadRequest: int := 400
  const InternalServerError: int := 500

  const AdditionalInformationKey: string := "Additional information"
  const ExceptionMessageKey: string := "exceptionMessage"
  const ExceptionClassKey: string := "exceptionClass"
  const ExceptionCauseMessageKey: string := "exceptionCauseMessage"
  const ExceptionCauseClassKey: string := "exceptionCauseClass"

  /** Logged in place of a captured throwable's message when that message is null. */
  const FallbackMessage: string := "Something went wrong fetching the logged context for the thrown error."

  datatype CustomError = CustomError(
    code: string,
    errorMsg: string,
    status: int,
    context: map<string, string>,
    loggedContext: map<string, string>,
    cause: Option<Throwable>)

  /** `m'` is `m` with `k` bound to `v`: every other key keeps its binding or its absence. */
  ghost predicate UpdatedAt(m: map<string, string>, m': map<string, string>, k: string, v: string)
  {
    && k in m' && m'[k] == v
    && m'.Keys == m.Keys + {k}
    && forall j :: j in m && j != k ==> m'[j] == m[j]
  }

  /** A fresh template: status 400, both maps empty, and a placeholder `Throwable()` as cause. */
  function CreateError(code: string, errorMsg: string): (r: CustomError)
    ensures r.code == code && r.errorMsg == errorMsg
    ensures r.status == BadRequest
    ensures r.context == map[] && r.loggedContext == map[]
    ensures r.cause == Some(PlaceholderCause)
  {
    CustomError(code, errorMsg, BadRequest, map[], map[], Some(PlaceholderCause))
  }

  /** Replaces the status; when it is already `status` the receiver itself comes back. */
  function WithStatus(e: CustomError, status: int): (r: CustomError)
    ensures r.status == status
    ensures r.code == e.code && r.errorMsg == e.errorMsg
    ensures r.context == e.context && r.loggedContext == e.loggedContext && r.cause == e.cause
  {
    if e.status == status then e
    else CustomError(e.code, e.errorMsg, status, e.context, e.loggedContext, e.cause)
  }

  /** Binds `key` to `value` in a copy of the context; the previous binding of `key`, if any, is
      overwritten. */
  function WithContext(e: CustomError, key: string, value: string): (r: CustomError)
    ensures UpdatedAt(e.context, r.context, key, value)
    ensures r.code == e.code && r.errorMsg == e.errorMsg && r.status == e.status
    ensures r.loggedContext == e.loggedContext && r.cause == e.cause
  {
    CustomError(e.code, e.errorMsg, e.status, e.context[key := value], e.loggedContext, e.cause)
  }

  /** Context under the fixed key "Additional information". */
  function WithAdditionalInfo(e: CustomError, value: string): (r: CustomError)
    ensures r == WithContext(e, AdditionalInformationKey, value)
    ensures r.context[AdditionalInformationKey] == value
  {
    WithContext(e, AdditionalInformationKey, value)
  }

  /** Binds `key` to `value` in a copy of the logged context; the response context is not touched. */
  function WithLoggedContext(e: CustomError, key: string, value: string): (r: CustomError)
    ensures UpdatedAt(e.loggedContext, r.loggedContext, key, value)
    ensures r.code == e.code && r.errorMsg == e.errorMsg && r.status == e.status
    ensures r.context == e.context && r.cause == e.cause
  {
    CustomError(e.code, e.errorMsg, e.status, e.context, e.loggedContext[key := value], e.cause)
  }

  /** Replaces the cause (private in the source; only `ForException` uses it). */
  function WithCause(e: CustomError, cause: Throwable): (r: CustomError)
    ensures r.cause == Some(cause)
    ensures r.code == e.code && r.errorMsg == e.errorMsg && r.status == e.status
    ensures r.context == e.context && r.loggedContext == e.loggedContext
  {
    CustomError(e.code, e.errorMsg, e.status, e.context, e.loggedContext, Some(cause))
  }

  /** The logged-context keys `ForException(_, t)` writes: two for `t`, and two more for `t`'s
      own cause when it has one. Nothing deeper in the chain is summarised. */
  function SummaryKeys(t: Throwable): (keys: set<string>)
  {
    {ExceptionMessageKey, ExceptionClassKey}
    + if t.cause.Some? then {ExceptionCauseMessageKey, ExceptionCauseClassKey} else {}
  }

  /** Captures a caught throwable: records it as the cause and summarises the first two links of
      its cause chain in the logged context, with `FallbackMessage` for a null message. */
  function ForException(e: CustomError, t: Throwable): (r: CustomError)
    ensures r.cause == Some(t)
    ensures r.code == e.code && r.errorMsg == e.errorMsg && r.status == e.status
    ensures r.context == e.context
    ensures r.loggedContext.Keys == e.loggedContext.Keys + SummaryKeys(t)
    ensures r.loggedContext[ExceptionMessageKey] == t.message.GetOr(FallbackMessage)
    ensures r.loggedContext[ExceptionClassKey] == t.className
    ensures t.cause.Some? ==>
              && r.loggedContext[ExceptionCauseMessageKey] == t.cause.value.message.GetOr(FallbackMessage)
              && r.loggedContext[ExceptionCauseClassKey] == t.cause.value.className
    ensures forall k :: k in e.loggedContext && k !in SummaryKeys(t) ==> r.loggedContext[k] == e.loggedContext[k]
  {
    var captured :=
      WithLoggedContext(
        WithLoggedContext(WithCause(e, t), ExceptionMessageKey, t.message.GetOr(FallbackMessage)),
        ExceptionClassKey, t.className);
    if t.cause.Some? then
      WithLoggedContext(
        WithLoggedContext(captured, ExceptionCauseMessageKey, t.cause.value.message.GetOr(FallbackMessage)),
        ExceptionCauseClassKey, t.cause.value.className)
    else captured
  }

  // ---------------------------------------------------------------------------------------
  // The catalog of named templates, as standalone constants.

  const GeneralCustomError: CustomError := CreateError("ERROR", "Unknown error")
  const ValueNotHigherThanFive: CustomError :=
    CreateError("INVALID_INPUT_001", "Value added can't be higher than five")
  const ColourMoodMismatch: CustomError :=
    CreateError("INVALID_STATE", "You can not have blue as favourite color and be sad")
  const CannotBeProcessed: CustomError :=
    WithStatus(CreateError("INTERNAL_ERROR_001", "Object cannot be processed"), InternalServerError)

  /** The four templates have distinct codes, carry no context yet, and only the internal one
      reports 500 from construction on. */
  lemma CatalogTemplates()
    ensures GeneralCustomError.status == BadRequest
    ensures ValueNotHigherThanFive.status == BadRequest
    ensures ColourMoodMismatch.status == BadRequest
    ensures CannotBeProcessed.status == InternalServerError
    ensures CannotBeProcessed.code == "INTERNAL_ERROR_001"
    ensures CannotBeProcessed.errorMsg == "Object cannot be processed"
    ensures CannotBeProcessed.context == map[] && CannotBeProcessed.loggedContext == map[]
    ensures GeneralCustomError.code != ValueNotHigherThanFive.code
    ensures GeneralCustomError.code != ColourMoodMismatch.code
    ensures GeneralCustomError.code != CannotBeProcessed.code
    ensures ValueNotHigherThanFive.code != ColourMoodMismatch.code
    ensures ValueNotHigherThanFive.code != CannotBeProcessed.code
    ensures ColourMoodMismatch.code != CannotBeProcessed.code
  {
  }

  // ---------------------------------------------------------------------------------------
  // The catalog as the source declares it: instance properties of the record itself.

  datatype Construction = Constructed(value: CustomError) | StackOverflow

  /** The primary constructor as declared. Before it returns, the initialiser of the first
      catalog property calls `createError`, which runs this constructor again; `frames` is how
      many nested constructor calls the JVM stack still has room for. The remaining three
      initialisers would recurse the same way and are never reached. */
  function ConstructAsWritten(fields: CustomError, frames: nat): (r: Construction)
    ensures r.Constructed? ==> r.value == fields
    decreases frames
  {
    if frames == 0 then StackOverflow
    else
      match ConstructAsWritten(CreateError("ERROR", "Unknown error"), frames - 1)
      case StackOverflow => StackOverflow
      case Constructed(_) => Constructed(fields)
  }

  /** However deep the stack, constructing any record as declared overflows it. */
  lemma {:induction false} ConstructionNeverTerminates(fields: CustomError, frames: nat)
    ensures ConstructAsWritten(fields, frames) == StackOverflow
    decreases frames
  {
    if frames > 0 {
      ConstructionNeverTerminates(CreateError("ERROR", "Unknown error"), frames - 1);
    }
  }

  // ---------------------------------------------------------------------------------------
  // Properties relating several updates.

  /** Setting the status it already has gives back an equal record. */
  lemma WithStatusIdempotent(e: CustomError)
    ensures WithStatus(e, e.status) == e
  {
  }

  /** Of two status updates only the later one is visible. */
  lemma WithStatusLastWins(e: CustomError, s1: int, s2: int)
    ensures WithStatus(WithStatus(e, s1), s2) == WithStatus(e, s2)
  {
  }

  /** Of two cause updates only the later one is visible. */
  lemma WithCauseLastWins(e: CustomError, c1: Throwable, c2: Throwable)
    ensures WithCause(WithCause(e, c1), c2) == WithCause(e, c2)
  {
  }

  /** Writing a key twice keeps the second value, and every other key keeps the value it had. */
  lemma WithContextOverwrite(e: CustomError, key: string, v1: string, v2: string)
    ensures WithContext(WithContext(e, key, v1), key, v2) == WithContext(e, key, v2)
    ensures WithContext(WithContext(e, key, v1), key, v2).context[key] == v2
    ensures forall j :: j in e.context && j != key ==> WithContext(WithContext(e, key, v1), key, v2).context[j] == e.context[j]
  {
  }

  /** Context updates under distinct keys may be applied in either order. */
  lemma WithContextCommutes(e: CustomError, k1: string, v1: string, k2: string, v2: string)
    requires k1 != k2
    ensures WithContext(WithContext(e, k1, v1), k2, v2) == WithContext(WithContext(e, k2, v2), k1, v1)
  {
  }

  /** The response context and the logged context are separate: an update of one never shows
      in the other, so the two kinds of update commute even under the same key. */
  lemma ContextsAreSeparate(e: CustomError, k1: string, v1: string, k2: string, v2: string)
    ensures WithLoggedContext(e, k2, v2).context == e.context
    ensures WithContext(e, k1, v1).loggedContext == e.loggedContext
    ensures WithLoggedContext(WithContext(e, k1, v1), k2, v2) == WithContext(WithLoggedContext(e, k2, v2), k1, v1)
  {
  }

  /** Capturing the same throwable twice changes nothing the first capture did not. */
  lemma ForExceptionIdempotent(e: CustomError, t: Throwable)
    ensures ForException(ForException(e, t), t) == ForException(e, t)
  {
  }

  /** Only the first two links of the cause chain matter: throwables that agree on them give the
      same captured record, however their chains continue. */
  lemma ForExceptionIgnoresDeeperCauses(e: CustomError, t1: Throwable, t2: Throwable)
    requires t1.message == t2.message && t1.className == t2.className
    requires t1.cause.Some? <==> t2.cause.Some?
    requires t1.cause.Some? ==>
               t1.cause.value.message == t2.cause.value.message
               && t1.cause.value.className == t2.cause.value.className
    ensures ForException(e, t1).loggedContext == ForException(e, t2).loggedContext
  {
  }
}
