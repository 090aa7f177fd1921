/** The part of a JVM `Throwable` that the error-handling package looks at: its message
    (which may be null), the simple name of its class, and its cause (which may be null).
    Stack traces and suppressed exceptions are not modelled. */
module Throwables {
  import opened Wrappers

  datatype Throwable = Throwable(message: Option<string>, className: string, cause: Option<Throwable>)

  /** `Throwable()`: no message and no cause. */
  const PlaceholderCause: Throwable := Throwable(None, "Throwable", None)

  /** What Kotlin's `!!` throws when its operand is null. */
  const NullPointerException: Throwable := Throwable(None, "NullPointerException", None)
}
