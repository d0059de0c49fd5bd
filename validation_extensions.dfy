/**
 * The guard helpers every other component calls: each returns normally or
 * throws one argument exception, and none of them reads or writes any state.
 */
module ValidationExtensions {
  import opened Primitives
  import opened Exceptions

  /** `char.IsWhiteSpace`: the Unicode space, line and paragraph separators plus U+0009..U+000D and U+0085. */
  predicate IsWhiteSpace(c: char) {
    var n := c as int;
    || 0x09 <= n <= 0x0D
    || n == 0x20 || n == 0x85 || n == 0xA0 || n == 0x1680
    || 0x2000 <= n <= 0x200A
    || n == 0x2028 || n == 0x2029 || n == 0x202F || n == 0x205F || n == 0x3000
  }

  /** The character scan of `string.IsNullOrWhiteSpace`, once the null case is out of the way. */
  function AllWhiteSpace(s: string): (r: bool)
    ensures r <==> forall i | 0 <= i < |s| :: IsWhiteSpace(s[i])
  {
    if s == [] then true else IsWhiteSpace(s[0]) && AllWhiteSpace(s[1..])
  }

  /** `string.IsNullOrWhiteSpace`. */
  predicate IsNullOrWhiteSpace(value: Nullable<string>): (r: bool)
    ensures r <==> value.Null? || forall i | 0 <= i < |value.value| :: IsWhiteSpace(value.value[i])
    ensures value == Value("") ==> r
  {
    value.Null? || AllWhiteSpace(value.value)
  }

  /** The caller's message when one is given, the default otherwise. */
  function MessageOr(message: Nullable<string>, default: Message): Message {
    if message.Value? then Text(message.value) else default
  }

  /** Throws `ArgumentNullException` when the string is null, empty or only white space. */
  function ThrowIfNullOrWhiteSpace(value: Nullable<string>, paramName: string, message: Nullable<string> := Null): (r: Outcome)
    ensures r.Fail? <==> value.Null? || forall i | 0 <= i < |value.value| :: IsWhiteSpace(value.value[i])
    ensures r.Fail? ==> r.error == ArgumentNull(paramName, MessageOr(message, MustNotBeNullOrEmpty(paramName)))
  {
    if IsNullOrWhiteSpace(value) then Fail(ArgumentNull(paramName, MessageOr(message, MustNotBeNullOrEmpty(paramName))))
    else Pass
  }

  /**
   * Both `ThrowIfNull` overloads: for a reference (`value == null`) and for a
   * nullable struct (`!value.HasValue`) the test and the exception are the same.
   */
  function ThrowIfNull<T>(value: Nullable<T>, paramName: string, message: Nullable<string> := Null): (r: Outcome)
    ensures r.Fail? <==> !value.HasValue()
    ensures r.Fail? ==> r.error == ArgumentNull(paramName, MessageOr(message, MustNotBeNull(paramName)))
  {
    match value
    case Null => Fail(ArgumentNull(paramName, MessageOr(message, MustNotBeNull(paramName))))
    case Value(_) => Pass
  }

  /** Throws `ArgumentOutOfRangeException` unless the value is at least 1. */
  function ThrowIfZeroOrNegative(value: int32, paramName: string, message: Nullable<string> := Null): (r: Outcome)
    ensures r.Pass? <==> 1 <= value
    ensures r.Fail? ==> r.error == ArgumentOutOfRange(paramName, MessageOr(message, MustBeGreaterThanZero(paramName)))
  {
    if value <= 0 then Fail(ArgumentOutOfRange(paramName, MessageOr(message, MustBeGreaterThanZero(paramName))))
    else Pass
  }

  /**
   * Despite its name, throws when the year is NOT valid: it passes exactly the
   * years from 1900 to the current UTC year, both ends included. The clock is
   * the `currentYear` parameter.
   */
  function ThrowIfValidYear(value: int32, currentYear: int, paramName: string, message: Nullable<string> := Null): (r: Outcome)
    ensures r.Pass? <==> 1900 <= value as int <= currentYear
    ensures r.Fail? ==> r.error == ArgumentOutOfRange(paramName, MessageOr(message, MustBeYearBetween(paramName, 1900, currentYear)))
  {
    if value < 1900 || value as int > currentYear then
      Fail(ArgumentOutOfRange(paramName, MessageOr(message, MustBeYearBetween(paramName, 1900, currentYear))))
    else Pass
  }

  /** Throws `ArgumentOutOfRangeException` when the decimal is below zero; zero passes. */
  function ThrowIfNegative(value: real, paramName: string, message: Nullable<string> := Null): (r: Outcome)
    ensures r.Pass? <==> 0.0 <= value
    ensures r.Fail? ==> r.error == ArgumentOutOfRange(paramName, MessageOr(message, MustNotBeNegative(paramName)))
  {
    if value < 0.0 then Fail(ArgumentOutOfRange(paramName, MessageOr(message, MustNotBeNegative(paramName))))
    else Pass
  }

  /** A string with one character that is not white space passes the blank check. */
  lemma {:induction false} NotBlankWhenSomeCharIsNot(s: string, k: nat)
    requires k < |s| && !IsWhiteSpace(s[k])
    ensures !IsNullOrWhiteSpace(Value(s))
  {
    assert !AllWhiteSpace(s);
  }

  /** The boundaries of the numeric guards: the smallest accepted values and the first rejected ones. */
  lemma GuardBoundaries(currentYear: int, p: string)
    requires 1900 <= currentYear < 0x8000_0000
    ensures ThrowIfZeroOrNegative(1, p).Pass? && ThrowIfZeroOrNegative(0, p).Fail?
    ensures ThrowIfValidYear(1900, currentYear, p).Pass? && ThrowIfValidYear(1899, currentYear, p).Fail?
    ensures ThrowIfValidYear(currentYear as int32, currentYear, p).Pass?
    ensures currentYear + 1 < 0x8000_0000 ==> ThrowIfValidYear((currentYear + 1) as int32, currentYear, p).Fail?
    ensures ThrowIfNegative(0.0, p).Pass? && ThrowIfNegative(-1.0, p).Fail?
  {
  }
}
