# CustomError and CustomException, modelled in Dafny

The Kotlin package `errorHandling` defines two things:

- `CustomError` is an immutable error descriptor. It has a stable `code`, a human-readable `errorMsg`, an HTTP `status`, a `context` map for the response, a `loggedContext` map for logs only, and an optional `cause`.
- `CustomException` is the runtime exception that carries a descriptor up the call stack.

This project models both as Dafny values:

- `CustomError` is a datatype with two `map<string, string>` fields.
- A caught JVM `Throwable` is a small recursive datatype: a message that may be absent, a class name, and a cause that may be absent.
- `CustomException` is a datatype holding a message and an optional cause.

Every copy-on-write update of the record is a pure function. Its contract is a frame condition: the one field that changes, how it changes, and that nothing else changes.

Modules:

- `Wrappers`: `Option`, which stands for Kotlin's nullable types, and `Result`, which stands for "returns or throws".
- `Throwables`: the `Throwable` datatype. It also holds the two throwables the source creates itself: the placeholder `Throwable()` and the `NullPointerException` that `!!` throws.
- `CustomErrors`: the record, its updates, `forException`, and the catalog of templates.
- `CustomExceptions`: the two exception constructors and the record's `toException` and `throwException` members. It also holds `Split`, a reader for the rendered message. The source has no such reader. It is the inverse of `Render`, used to prove that the message format loses no information when the code contains no colon.

Three facts about the code shape the model:

- `CustomException` keeps no reference to the record. It passes only the rendered message and the cause to `RuntimeException` (CustomException.kt:4-5), so the model's exception holds only those two things. One consequence is proved: `toException(cause)` gives the same exception value as `throwException(cause)`, and the logged context that `forException` adds does not reach the exception.
- The four catalog entries are instance properties of the record (CustomError.kt:19-39). Each one is initialised by building another record, so constructing any record recurses without end (see Findings). The model gives the catalog as standalone constants.
- `throwException()` never chains to the record's cause (CustomError.kt:134-136). `toException()` does chain to it (CustomError.kt:142-144). Both behaviours are modelled as written.

## Model

| member | source | states |
|---|---|---|
| CustomErrors.CreateError | src/main/kotlin/errorHandling/CustomError.kt:41-53 | a template has the given code and text, status 400, both maps empty, and the placeholder `Throwable()` as cause |
| CustomErrors.WithStatus | src/main/kotlin/errorHandling/CustomError.kt:59-68 | the result has the requested status; code, text, both maps and cause are those of the receiver |
| CustomErrors.WithStatusIdempotent | src/main/kotlin/errorHandling/CustomError.kt:60 | setting the status the record already has gives back an equal record |
| CustomErrors.WithStatusLastWins | src/main/kotlin/errorHandling/CustomError.kt:59-68 | of two successive status updates only the second is visible |
| CustomErrors.WithContext | src/main/kotlin/errorHandling/CustomError.kt:74-88 | the context gains or overwrites the key with the value; every other key keeps its binding or its absence; the key set grows by that key only; all other fields are unchanged |
| CustomErrors.WithContextOverwrite | src/main/kotlin/errorHandling/CustomError.kt:78-79 | writing a key twice equals writing it once with the second value; every earlier key other than it is still present with its value |
| CustomErrors.WithContextCommutes | src/main/kotlin/errorHandling/CustomError.kt:74-88 | context updates under distinct keys give the same record in either order |
| CustomErrors.WithAdditionalInfo | src/main/kotlin/errorHandling/CustomError.kt:70-72 | is exactly a context update under the key "Additional information", which then holds the value |
| CustomErrors.WithLoggedContext | src/main/kotlin/errorHandling/CustomError.kt:90-104 | the logged context gains or overwrites the key; every other logged key is kept; the response context and all other fields are unchanged |
| CustomErrors.ContextsAreSeparate | src/main/kotlin/errorHandling/CustomError.kt:74-104 | an update of either map never shows in the other, so a context update and a logged-context update commute even under the same key |
| CustomErrors.WithCause | src/main/kotlin/errorHandling/CustomError.kt:106-115 | the cause becomes the given throwable; every other field is unchanged |
| CustomErrors.WithCauseLastWins | src/main/kotlin/errorHandling/CustomError.kt:106-115 | of two successive cause updates only the second is visible |
| CustomErrors.ForException | src/main/kotlin/errorHandling/CustomError.kt:117-132 | the cause becomes the throwable. The logged context gains exactly the summary keys: the message (or the fallback text when it is null) and the class name; the cause's message (or fallback) and class name are added only when a cause is present. Every other logged key is kept. Code, text, status and context are unchanged |
| CustomErrors.ForExceptionIdempotent | src/main/kotlin/errorHandling/CustomError.kt:117-132 | capturing the same throwable a second time changes nothing |
| CustomErrors.ForExceptionIgnoresDeeperCauses | src/main/kotlin/errorHandling/CustomError.kt:124-131 | two throwables that agree on the first two links of their cause chains give the same logged context; deeper links are not looked at |
| CustomErrors.CatalogTemplates | src/main/kotlin/errorHandling/CustomError.kt:19-39 | the four templates have pairwise distinct codes; three report 400; "INTERNAL_ERROR_001" reports 500 from construction, with empty maps |
| CustomErrors.ConstructionNeverTerminates | src/main/kotlin/errorHandling/CustomError.kt:19-22 | with the catalog declared as instance properties, building any record overflows the stack, however deep the stack is |
| CustomErrors.ConstructAsWritten | src/main/kotlin/errorHandling/CustomError.kt:10-22 | the primary constructor together with its first property initialiser, which calls `createError` (CustomError.kt:41-53) and so re-enters the constructor; whenever a construction completes, it yields exactly the fields it was given |
| CustomExceptions.New | src/main/kotlin/errorHandling/CustomException.kt:4 | the message is the code, " : " and the text; no cause is recorded |
| CustomExceptions.NewWithCause | src/main/kotlin/errorHandling/CustomException.kt:5 | the message is the same as for the one-argument constructor; the given throwable is recorded as the cause |
| CustomExceptions.AsThrowable | src/main/kotlin/errorHandling/CustomException.kt:3-5 | a `CustomException` seen as a caught `Throwable` has its rendered message as message, "CustomException" as class name, and the cause it was constructed with |
| CustomExceptions.ToException | src/main/kotlin/errorHandling/CustomError.kt:142-144 | the exception carries the rendered message and chains to the record's cause exactly when the record has one |
| CustomExceptions.ToExceptionWithCause | src/main/kotlin/errorHandling/CustomError.kt:146-148 | it fails with a NullPointerException exactly when the cause is null; otherwise it returns the rendered message chained to that cause |
| CustomExceptions.ToExceptionWithCauseIsThrowWithCause | src/main/kotlin/errorHandling/CustomError.kt:138-148 | `toException(c)` equals capturing `c` and then converting, and it equals the exception `throwException(c)` throws |
| CustomExceptions.ThrowException | src/main/kotlin/errorHandling/CustomError.kt:134-136 | the thrown exception has the rendered message and no cause |
| CustomExceptions.ThrowExceptionWithCause | src/main/kotlin/errorHandling/CustomError.kt:138-140 | the thrown exception has the rendered message and the given cause |
| CustomExceptions.ThrowExceptionChainsOnlyWithoutCause | src/main/kotlin/errorHandling/CustomError.kt:134-144 | `throwException()` and `toException()` give the same exception exactly when the record has no cause |
| CustomExceptions.TemplatesChainToPlaceholder | src/main/kotlin/errorHandling/CustomError.kt:41-53 | for every code and text, `toException()` on a fresh template chains to the placeholder `Throwable()`, a cause with no message, and so differs from what `throwException()` throws, which has no cause |
| CustomExceptions.MessageIgnoresOtherFields | src/main/kotlin/errorHandling/CustomException.kt:4-5 | two records with the same code and text give the same exception; status, both maps and the record's cause do not affect the message |
| CustomExceptions.MessageDeterminesCodeAndText | src/main/kotlin/errorHandling/CustomException.kt:4 | when the code has no colon, splitting the message at its first " : " gives back the code and the text |
| CustomExceptions.MessageNotInjective | src/main/kotlin/errorHandling/CustomException.kt:4 | when the code may contain " : ", two records with different codes can render the same message |
| CustomExceptions.CaptureOfCustomException | src/main/kotlin/errorHandling/CustomError.kt:117-132 | capturing a converted record into another record logs the rendered message and the class name "CustomException"; the cause summary appears exactly when the first record had a cause, or the second record already held that key |
| CustomExceptions.AdditionalInfoScenario | src/main/kotlin/errorHandling/CustomError.kt:24-28 | the "INVALID_INPUT_001" template with additional info "value=7" keeps that info in its context; converting it gives the message "INVALID_INPUT_001 : Value added can't be higher than five", chained to the placeholder cause |

## Left out

- `withStatus(Status)` (CustomError.kt:55-57) is not modelled. It only reads the status code out of the `javax.ws.rs` enum, a foreign type. Status is an `int`, and only 400 and 500 are named.
- The `mu.KotlinLogging` logger (CustomError.kt:6-8) is never used.
- `withContext` and `withLoggedContext` accept any value and store `value.toString()`. The model takes the string directly, because `toString` dispatch belongs to the caller's types.
- `HashMap` iteration order is not modelled. The maps are unordered Dafny `map`s.
- Reference identity is not modelled. `withStatus` returns `this` itself when the status is unchanged, and the model gives an equal value. Kotlin's `equals` on the `cause` field compares `Throwable`s by identity; the model compares them by value.
- `javaClass.simpleName` is not computed. It is the `className` field of the throwable.
- Stack traces, suppressed exceptions and the `throw` control transfer are not modelled. `throwException` is modelled as the exception value it would throw.
- The exception that `!!` throws on null is named `NullPointerException`. Kotlin before 1.4 threw `KotlinNullPointerException` instead. Only the class name differs, and nothing in the model depends on it.
- `toException(cause)` is declared to return `CustomException?`. It never returns null, so the model's success value is not optional.
- CustomErrors.ConstructAsWritten models only the first catalog initialiser. The other three never run, because the first one already recurses.

## Findings

| source | as written | input that shows it | evidently intended | confidence | as-written member | corrected member |
|---|---|---|---|---|---|---|
| src/main/kotlin/errorHandling/CustomError.kt:19-39 | the catalog entries are instance properties, and each initialiser builds another `CustomError` through `createError`, so every construction runs the constructor again without end | any construction, e.g. `CustomError("ERROR", "Unknown error", 400, mapOf(), mapOf(), Throwable())` | the catalog as shared constant templates (a companion object), built once | high; not executed | CustomErrors.ConstructionNeverTerminates | CustomErrors.CatalogTemplates |
