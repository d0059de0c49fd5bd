/**
 * The Email value object: an address validated at construction, stored
 * verbatim (no trimming, no case change) and never changed afterwards.
 */
module ValueObject {
  import opened Primitives
  import opened Exceptions
  import opened ValidationExtensions

  /** The address text; `Create` is the only way the domain builds one. */
  datatype Email = Email(address: string)

  /**
   * The mail-address parser is a foreign library: `parse(s)` is `Null` when it
   * rejects `s` and otherwise the canonical address it reads out of `s`.
   */
  type MailAddressParser = string -> Nullable<string>

  /** Valid when the parser accepts the text and gives it back unchanged. */
  predicate IsValidEmail(parse: MailAddressParser, email: string): (r: bool)
    ensures r ==> parse(email) == Value(email)
    ensures parse(email).Null? ==> !r
  {
    match parse(email)
    case Null => false
    case Value(canonical) => canonical == email
  }

  /** The check fails when the parser throws and when it rewrites the text in any way. */
  lemma IsValidEmailMeansParsedUnchanged(parse: MailAddressParser, email: string)
    ensures IsValidEmail(parse, email) <==> parse(email) == Value(email)
    ensures parse(email).Null? ==> !IsValidEmail(parse, email)
    ensures parse(email).Value? && parse(email).value != email ==> !IsValidEmail(parse, email)
  {
  }

  /** The constructor: blank input, then invalid input, are rejected; otherwise the text is kept as given. */
  function Create(parse: MailAddressParser, address: Nullable<string>): (r: Result<Email>)
    ensures IsNullOrWhiteSpace(address) ==> r == Failure(ArgumentNull("address", MustNotBeNullOrEmpty("address")))
    ensures !IsNullOrWhiteSpace(address) && !IsValidEmail(parse, address.value) ==>
              r == Failure(Argument("address", Text("Invalid email format.")))
    ensures r.Success? <==> !IsNullOrWhiteSpace(address) && IsValidEmail(parse, address.value)
    ensures r.Success? ==> r.value.address == address.value
  {
    var guard := ThrowIfNullOrWhiteSpace(address, "address");
    if guard.Fail? then Failure(guard.error)
    else if !IsValidEmail(parse, address.value) then Failure(Argument("address", Text("Invalid email format.")))
    else Success(Email(address.value))
  }

  /** What `Equals(object)` may be handed: null, an Email, or an object of another type. */
  datatype Operand = NullReference | AnEmail(email: Email) | OfAnotherType

  predicate Equals(e: Email, obj: Operand): (r: bool)
    ensures r <==> obj == AnEmail(e)
  {
    obj.AnEmail? && e.address == obj.email.address
  }

  /** `string.GetHashCode` is seeded per process, so it is a parameter. */
  function GetHashCode(e: Email, stringHash: string -> int32): int32 {
    stringHash(e.address)
  }

  function ToString(e: Email): (s: string)
    ensures Email(s) == e
  {
    e.address
  }

  /** Equality is exactly equality of the address text; null and other types are never equal. */
  lemma EqualsIsAddressEquality(a: Email, b: Email)
    ensures Equals(a, AnEmail(b)) <==> a.address == b.address
    ensures Equals(a, AnEmail(b)) <==> a == b
    ensures !Equals(a, NullReference) && !Equals(a, OfAnotherType)
  {
  }

  /** Equal emails hash alike, under every per-process string hash. */
  lemma EqualEmailsHashAlike(a: Email, b: Email, stringHash: string -> int32)
    requires Equals(a, AnEmail(b))
    ensures GetHashCode(a, stringHash) == GetHashCode(b, stringHash)
  {
  }

  /**
   * Rendering round-trips: building an Email again from the text of one that
   * was built gives an equal Email, so construction is idempotent.
   */
  lemma ToStringRoundTrip(parse: MailAddressParser, raw: Nullable<string>)
    requires Create(parse, raw).Success?
    ensures ToString(Create(parse, raw).value) == raw.value
    ensures Create(parse, Value(ToString(Create(parse, raw).value))) == Create(parse, raw)
  {
  }

  /** Validation does not normalise: two inputs that differ only in case or spacing give different Emails. */
  lemma NoNormalisation(parse: MailAddressParser, a: string, b: string)
    requires Create(parse, Value(a)).Success? && Create(parse, Value(b)).Success?
    requires a != b
    ensures !Equals(Create(parse, Value(a)).value, AnEmail(Create(parse, Value(b)).value))
  {
  }
}
