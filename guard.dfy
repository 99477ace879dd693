/**
 * The argument guards (validation/Guard.java) and the error kinds every
 * component of the rules layer raises.
 */
module Guard {
  import opened Wrappers

  /**
   * The three exception kinds of the rules layer, each with its message:
   * `Absent` is a NullPointerException, `Invalid` an IllegalArgumentException
   * and `Conflict` an IllegalStateException.
   */
  datatype Error =
    | Absent(message: string)
    | Invalid(message: string)
    | Conflict(message: string)

  /** A value, or the exception that was thrown instead. */
  datatype Result<+T> = Ok(value: T) | Err(error: Error) {
    predicate IsFailure() { Err? }

    function PropagateFailure<U>(): Result<U>
      requires Err?
    {
      Err(error)
    }

    function Extract(): T
      requires Ok?
    {
      value
    }
  }

  /**
   * Java's `Character.isWhitespace`: the ASCII controls TAB to CR, the
   * separators FS to US, and the Unicode space, line and paragraph
   * separators except the three no-break spaces (U+00A0, U+2007, U+202F).
   */
  predicate IsWhitespace(c: char) {
    || ('\U{0009}' <= c <= '\U{000D}')
    || ('\U{001C}' <= c <= '\U{0020}')
    || c == '\U{1680}'
    || ('\U{2000}' <= c <= '\U{2006}')
    || ('\U{2008}' <= c <= '\U{200A}')
    || c == '\U{2028}' || c == '\U{2029}' || c == '\U{205F}' || c == '\U{3000}'
  }

  /** Java's `String.isBlank`: empty, or white space only. */
  predicate Blank(s: string) {
    forall i | 0 <= i < |s| :: IsWhitespace(s[i])
  }

  /** True when a string is present and holds some character that is not white space. */
  predicate HasText(s: Option<string>) {
    s.Some? && exists i | 0 <= i < |s.value| :: !IsWhitespace(s.value[i])
  }

  /** The message of the NullPointerException the guards throw. */
  function NullMessage(field: string): string {
    field + " must not be null"
  }

  /** The message of the IllegalArgumentException the guards throw. */
  function BlankMessage(field: string): string {
    field + " must not be blank"
  }

  /**
   * `requireNonBlank`: null is refused as absent, before the blank check, so
   * a null value never yields the blank kind; a blank value is refused as
   * invalid; any other value is returned unchanged.
   */
  function RequireNonBlank(value: Option<string>, field: string): (r: Result<string>)
    ensures r.Ok? <==> HasText(value)
    ensures r.Ok? ==> Some(r.value) == value
    ensures r.Err? && r.error.Absent? <==> value.None?
    ensures value.None? ==> r.error == Absent(field + " must not be null")
    ensures value.Some? && r.Err? ==> r.error == Invalid(field + " must not be blank")
  {
    match value
    case None => Err(Absent(NullMessage(field)))
    case Some(s) => if Blank(s) then Err(Invalid(BlankMessage(field))) else Ok(s)
  }

  /** `requireNonNull`: null is refused as absent; anything else is returned unchanged. */
  function RequireNonNull<T>(value: Option<T>, field: string): (r: Result<T>)
    ensures r.Ok? <==> value.Some?
    ensures r.Ok? ==> Some(r.value) == value
    ensures r.Err? ==> r.error == Absent(field + " must not be null")
  {
    match value
    case None => Err(Absent(NullMessage(field)))
    case Some(v) => Ok(v)
  }

  /** A nullable string with blank values turned into null: itself when it has text, null otherwise. */
  function Kept(id: Option<string>): (k: Option<string>)
    ensures k.Some? <==> HasText(id)
    ensures k.Some? ==> k == id
  {
    if id.None? || Blank(id.value) then None else id
  }

  /** A present string is either blank or has text, never both. */
  lemma BlankOrText(s: string)
    ensures Blank(s) <==> !HasText(Some(s))
  {
  }
}
