/** `CustomException`, the runtime exception that carries a `CustomError` up the call stack,
    together with the members of `CustomError` that build one (`toException`,
    `throwException`). Those members sit here rather than next to the record because they
    construct the exception, and the record module cannot import this one back.

    The exception keeps only a rendered message and a cause: the record it was built from is
    not stored in it. */
module CustomExceptions {
  import opened Wrappers
  import opened Throwables
  import opened CustomErrors

  /** What separates the code from the text in a rendered message. */
  const Separator: string := " : "

  /** `javaClass.simpleName` of every `CustomException`. */
  const ClassName: string := "CustomException"

  datatype CustomException = CustomException(message: string, cause: Option<Throwable>)

  /** The message every `CustomException` built from a record with this code and text carries. */
  function Render(code: string, errorMsg: string): (message: string)
  {
    code + Separator + errorMsg
  }

  /** `CustomException(error)`: the rendered message and no cause. */
  function New(error: CustomError): (x: CustomException)
    ensures x.message == Render(error.code, error.errorMsg)
    ensures x.cause == None
  {
    CustomException(error.code + Separator + error.errorMsg, None)
  }

  /** `CustomException(error, cause)`: the rendered message, chained to `cause`. */
  function NewWithCause(error: CustomError, cause: Throwable): (x: CustomException)
    ensures x.message == Render(error.code, error.errorMsg)
    ensures x.cause == Some(cause)
  {
    CustomException(error.code + Separator + error.errorMsg, Some(cause))
  }

  /** The exception as a caught `Throwable`, which is how `ForException` sees it. */
  function AsThrowable(x: CustomException): (t: Throwable)
    ensures t.message == Some(x.message) && t.className == ClassName && t.cause == x.cause
  {
    Throwable(Some(x.message), ClassName, x.cause)
  }

  /** `toException()`: chains to the record's cause exactly when it has one. */
  function ToException(error: CustomError): (x: CustomException)
    ensures x.message == Render(error.code, error.errorMsg)
    ensures x.cause == error.cause
  {
    if error.cause.Some? then NewWithCause(error, error.cause.value) else New(error)
  }

  /** `toException(cause)`: capture `cause` into the record, then convert. A null `cause` makes
      the `!!` in the source throw a `NullPointerException` instead. */
  function ToExceptionWithCause(error: CustomError, cause: Option<Throwable>): (r: Result<CustomException, Throwable>)
    ensures r.Success? <==> cause.Some?
    ensures r.Failure? ==> r.error == NullPointerException
    ensures r.Success? ==> r.value.message == Render(error.code, error.errorMsg) && r.value.cause == cause
  {
    match cause
    case None => Failure(NullPointerException)
    case Some(c) => Success(ToException(ForException(error, c)))
  }

  /** The exception `throwException()` throws: never chained, whatever the record's cause. */
  function ThrowException(error: CustomError): (x: CustomException)
    ensures x.message == Render(error.code, error.errorMsg)
    ensures x.cause == None
  {
    New(error)
  }

  /** The exception `throwException(cause)` throws: chained to `cause`. */
  function ThrowExceptionWithCause(error: CustomError, cause: Throwable): (x: CustomException)
    ensures x.message == Render(error.code, error.errorMsg)
    ensures x.cause == Some(cause)
  {
    NewWithCause(error, cause)
  }

  // ---------------------------------------------------------------------------------------
  // Reading a rendered message back.

  /** A separator starts at position `i` of `s`. */
  predicate SeparatorAt(s: string, i: nat)
  {
    i + 3 <= |s| && s[i] == ' ' && s[i + 1] == ':' && s[i + 2] == ' '
  }

  /** Dropping the first character moves every separator one position to the left. */
  lemma SeparatorShift(s: string)
    requires |s| > 0
    ensures forall i: nat :: 0 < i ==> (SeparatorAt(s, i) <==> SeparatorAt(s[1..], i - 1))
  {
  }

  /** Splits `s` at its first separator into what comes before and what comes after it. */
  function Split(s: string): (r: Option<(string, string)>)
    ensures r.Some? ==> s == r.value.0 + Separator + r.value.1
    ensures r.Some? ==> forall i: nat :: i < |r.value.0| ==> !SeparatorAt(s, i)
    ensures r.None? ==> forall i: nat :: !SeparatorAt(s, i)
    decreases |s|
  {
    if |s| < 3 then None
    else if SeparatorAt(s, 0) then Some(([], s[3..]))
    else
      SeparatorShift(s);
      match Split(s[1..])
      case None => None
      case Some((before, after)) => Some(([s[0]] + before, after))
  }

  /** A code without a colon can be read back from the message: the first separator in the
      message is the one `Render` put there. */
  lemma MessageDeterminesCodeAndText(code: string, errorMsg: string)
    requires ':' !in code
    ensures Split(Render(code, errorMsg)) == Some((code, errorMsg))
  {
    var s := Render(code, errorMsg);
    assert SeparatorAt(s, |code|);
    forall i: nat | i < |code|
      ensures !SeparatorAt(s, i)
    {
      if i + 1 < |code| {
        assert s[i + 1] == code[i + 1];
      } else {
        assert s[i + 1] == ' ';
      }
    }
    var r := Split(s);
    assert r.Some?;
    var (before, after) := r.value;
    assert |before| <= |code| by {
      assert SeparatorAt(s, |code|);
    }
    assert |before| >= |code| by {
      assert SeparatorAt(s, |before|);
    }
    assert before == s[..|code|] == code;
    assert after == s[|code| + 3..] == errorMsg;
  }

  /** With a colon allowed in the code the message no longer identifies the record: these two
      differ in code and in text yet render the same message. */
  lemma MessageNotInjective()
    ensures New(CreateError("A : B", "C")).message == New(CreateError("A", "B : C")).message
    ensures CreateError("A : B", "C").code != CreateError("A", "B : C").code
  {
    assert Render("A : B", "C") == "A : B : C" == Render("A", "B : C");
  }

  // ---------------------------------------------------------------------------------------
  // Properties relating the conversions.

  /** The exception depends only on the record's code and text (and on the cause handed over):
      status, both context maps and the record's own cause leave no trace in the message. */
  lemma MessageIgnoresOtherFields(a: CustomError, b: CustomError, cause: Throwable)
    requires a.code == b.code && a.errorMsg == b.errorMsg
    ensures New(a) == New(b)
    ensures NewWithCause(a, cause) == NewWithCause(b, cause)
    ensures ToException(a).message == ToException(b).message
    ensures ThrowException(a) == ThrowException(b)
  {
  }

  /** `toException()` and `throwException()` agree exactly when the record has no cause. */
  lemma ThrowExceptionChainsOnlyWithoutCause(error: CustomError)
    ensures ThrowException(error) == ToException(error) <==> error.cause.None?
  {
  }

  /** Every template starts with the placeholder `Throwable()` as its cause, so `toException()`
      on a fresh template always chains to a cause that has no message, while
      `throwException()` on the same template never chains at all. */
  lemma TemplatesChainToPlaceholder(code: string, errorMsg: string)
    ensures ToException(CreateError(code, errorMsg)) == NewWithCause(CreateError(code, errorMsg), PlaceholderCause)
    ensures ToException(CreateError(code, errorMsg)).cause.value.message == None
    ensures ThrowException(CreateError(code, errorMsg)) != ToException(CreateError(code, errorMsg))
  {
  }

  /** Because the exception keeps no record, the logged context `toException(cause)` adds is
      lost: it yields the very exception `throwException(cause)` throws. */
  lemma ToExceptionWithCauseIsThrowWithCause(error: CustomError, cause: Throwable)
    ensures ToExceptionWithCause(error, Some(cause)) == Success(ThrowExceptionWithCause(error, cause))
    ensures ToExceptionWithCause(error, Some(cause)) == Success(ToException(ForException(error, cause)))
  {
  }

  /** Capturing a `CustomException` into another record logs its rendered message and class
      name, and the summary reaches its cause exactly when the first record had one. */
  lemma CaptureOfCustomException(outer: CustomError, inner: CustomError)
    ensures var r := ForException(outer, AsThrowable(ToException(inner)));
            && r.loggedContext[ExceptionMessageKey] == Render(inner.code, inner.errorMsg)
            && r.loggedContext[ExceptionClassKey] == ClassName
            && (ExceptionCauseClassKey in r.loggedContext <==>
                  inner.cause.Some? || ExceptionCauseClassKey in outer.loggedContext)
  {
    var t := AsThrowable(ToException(inner));
    if inner.cause.None? {
      assert ExceptionCauseClassKey !in SummaryKeys(t);
    }
  }

  /** A catalog template specialised with additional information and converted: the message is
      the template's, the context holds the information, and the exception chains to the
      template's placeholder cause. */
  lemma AdditionalInfoScenario()
    ensures var specialised := WithAdditionalInfo(ValueNotHigherThanFive, "value=7");
            && specialised.context["Additional information"] == "value=7"
            && ToException(specialised).message == "INVALID_INPUT_001 : Value added can't be higher than five"
            && ToException(specialised).cause == Some(PlaceholderCause)
  {
  }
}
