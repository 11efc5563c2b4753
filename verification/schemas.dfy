/**
  The request and response shapes of app/schemas/part.py and the field
  checks they declare: a name of 1 to 100 characters, a part number of the
  form `ABC-123`, and a quantity greater than 0 that defaults to 1.
  Characters are code points; letters and digits are the ASCII ones.
 */
module Schemas {
  import opened Wrappers

  const MinNameLength := 1
  const MaxNameLength := 100
  const DefaultQuantity := 1

  /** A create body after validation: the three checked fields. */
  datatype PartCreate = PartCreate(name: string, partNumber: string, quantity: int)

  /** The response shape: the same three fields plus the assigned id. */
  datatype PartResponse = PartResponse(id: int, name: string, partNumber: string, quantity: int)

  /** A create body as it arrives: any field may be absent. */
  datatype CreateBody = CreateBody(name: Option<string>, partNumber: Option<string>, quantity: Option<int>)

  datatype FieldName = NameField | PartNumberField | QuantityField

  /** Why a field was refused. */
  datatype Violation = Missing | TooShort | TooLong | PatternMismatch | NotGreaterThanZero

  datatype FieldError = FieldError(field: FieldName, violation: Violation)

  predicate IsAsciiUpper(c: char) {
    'A' <= c <= 'Z'
  }

  predicate IsAsciiDigit(c: char) {
    '0' <= c <= '9'
  }

  predicate ValidName(name: string) {
    MinNameLength <= |name| <= MaxNameLength
  }

  /** The part-number format, position by position. */
  predicate ValidPartNumber(s: string) {
    && |s| == 7
    && (forall i | 0 <= i < 3 :: IsAsciiUpper(s[i]))
    && s[3] == '-'
    && (forall i | 4 <= i < 7 :: IsAsciiDigit(s[i]))
  }

  predicate ValidQuantity(q: int) {
    q > 0
  }

  /** All three field checks of the shared base schema. */
  predicate ValidFields(name: string, partNumber: string, quantity: int) {
    ValidName(name) && ValidPartNumber(partNumber) && ValidQuantity(quantity)
  }

  /** An output record satisfies the response schema. */
  predicate ValidResponse(r: PartResponse) {
    ValidFields(r.name, r.partNumber, r.quantity)
  }

  /** One position of an anchored pattern: `[A-Z]`, `\d`, or a literal character. */
  datatype CharClass = Upper | Digit | Literal(c: char)

  predicate ClassMatches(cc: CharClass, c: char) {
    match cc
    case Upper => IsAsciiUpper(c)
    case Digit => IsAsciiDigit(c)
    case Literal(l) => c == l
  }

  /** `cc{n}`: the class repeated `n` times. */
  function Repeat(cc: CharClass, n: nat): (p: seq<CharClass>)
    ensures |p| == n
    ensures forall i | 0 <= i < n :: p[i] == cc
  {
    if n == 0 then [] else [cc] + Repeat(cc, n - 1)
  }

  /** The pattern `^[A-Z]{3}-\d{3}$` as a sequence of positions. */
  function PartNumberPattern(): seq<CharClass> {
    Repeat(Upper, 3) + [Literal('-')] + Repeat(Digit, 3)
  }

  /** Whether the whole of `s` matches `pat`, consuming one character per position. */
  predicate FullMatch(pat: seq<CharClass>, s: string)
    decreases |pat|
  {
    if |pat| == 0 then |s| == 0
    else |s| > 0 && ClassMatches(pat[0], s[0]) && FullMatch(pat[1..], s[1..])
  }

  /** A full match is a match of equal length, position by position. */
  lemma {:induction false} FullMatchPointwise(pat: seq<CharClass>, s: string)
    ensures FullMatch(pat, s) <==>
      |s| == |pat| && forall i | 0 <= i < |pat| :: ClassMatches(pat[i], s[i])
    decreases |pat|
  {
    if |pat| > 0 && |s| > 0 {
      FullMatchPointwise(pat[1..], s[1..]);
      if |s| == |pat| && forall i | 0 <= i < |pat| :: ClassMatches(pat[i], s[i]) {
        forall i | 0 <= i < |pat| - 1
          ensures ClassMatches(pat[1..][i], s[1..][i])
        {
          assert pat[1..][i] == pat[i + 1];
        }
      }
      if FullMatch(pat, s) {
        forall i | 0 <= i < |pat|
          ensures ClassMatches(pat[i], s[i])
        {
          if i > 0 {
            assert pat[i] == pat[1..][i - 1];
          }
        }
      }
    }
  }

  /** The regular expression accepts exactly the strings of the part-number format. */
  lemma PatternMatchesFormat(s: string)
    ensures FullMatch(PartNumberPattern(), s) <==> ValidPartNumber(s)
  {
  }

  function NameErrors(name: Option<string>): (errs: seq<FieldError>)
    ensures |errs| <= 1
    ensures errs == [] <==> name.Some? && ValidName(name.value)
    ensures forall e | e in errs :: e.field == NameField
  {
    match name
    case None => [FieldError(NameField, Missing)]
    case Some(n) =>
      if |n| < MinNameLength then [FieldError(NameField, TooShort)]
      else if |n| > MaxNameLength then [FieldError(NameField, TooLong)]
      else []
  }

  function PartNumberErrors(partNumber: Option<string>): (errs: seq<FieldError>)
    ensures |errs| <= 1
    ensures errs == [] <==> partNumber.Some? && ValidPartNumber(partNumber.value)
    ensures forall e | e in errs :: e.field == PartNumberField
  {
    match partNumber
    case None => [FieldError(PartNumberField, Missing)]
    case Some(pn) =>
      PatternMatchesFormat(pn);
      if FullMatch(PartNumberPattern(), pn) then [] else [FieldError(PartNumberField, PatternMismatch)]
  }

  function QuantityErrors(quantity: Option<int>): (errs: seq<FieldError>)
    ensures |errs| <= 1
    ensures errs == [] <==> ValidQuantity(quantity.GetOr(DefaultQuantity))
    ensures forall e | e in errs :: e.field == QuantityField
  {
    if quantity.GetOr(DefaultQuantity) > 0 then [] else [FieldError(QuantityField, NotGreaterThanZero)]
  }

  /**
    Validation of a create body: every failing field is reported, in the
    order the schema declares them; an absent quantity takes the default.
   */
  function Validate(body: CreateBody): (r: Result<PartCreate, seq<FieldError>>)
    ensures r.Success? <==>
      && body.name.Some? && body.partNumber.Some?
      && ValidFields(body.name.value, body.partNumber.value, body.quantity.GetOr(DefaultQuantity))
    ensures r.Success? ==>
      && r.value.name == body.name.value
      && r.value.partNumber == body.partNumber.value
      && r.value.quantity == body.quantity.GetOr(DefaultQuantity)
      && ValidFields(r.value.name, r.value.partNumber, r.value.quantity)
    ensures r.Failure? ==> |r.error| > 0
    ensures r.Failure? ==>
      && ((exists e | e in r.error :: e.field == NameField) <==> !(body.name.Some? && ValidName(body.name.value)))
      && ((exists e | e in r.error :: e.field == PartNumberField) <==>
            !(body.partNumber.Some? && ValidPartNumber(body.partNumber.value)))
      && ((exists e | e in r.error :: e.field == QuantityField) <==>
            !ValidQuantity(body.quantity.GetOr(DefaultQuantity)))
  {
    var errs := NameErrors(body.name) + PartNumberErrors(body.partNumber) + QuantityErrors(body.quantity);
    if errs == [] then
      Success(PartCreate(body.name.value, body.partNumber.value, body.quantity.GetOr(DefaultQuantity)))
    else
      Failure(errs)
  }

  /** An empty name is refused, and only the name is reported. */
  lemma EmptyNameRejected()
    ensures Validate(CreateBody(Some(""), Some("ABC-123"), Some(5)))
      == Failure([FieldError(NameField, TooShort)])
  {
    assert ValidPartNumber("ABC-123");
    assert PartNumberErrors(Some("ABC-123")) == [];
    assert [FieldError(NameField, TooShort)] + [] + [] == [FieldError(NameField, TooShort)];
  }

  /** Digits before letters do not match the part-number pattern. */
  lemma ReversedPartNumberRejected()
    ensures !ValidPartNumber("123-ABC") && ValidPartNumber("ABC-123")
    ensures Validate(CreateBody(Some("Фильтр"), Some("123-ABC"), Some(5)))
      == Failure([FieldError(PartNumberField, PatternMismatch)])
  {
    assert !IsAsciiUpper("123-ABC"[0]);
    assert PartNumberErrors(Some("123-ABC")) == [FieldError(PartNumberField, PatternMismatch)];
    assert [] + [FieldError(PartNumberField, PatternMismatch)] + []
      == [FieldError(PartNumberField, PatternMismatch)];
  }

  /** A quantity of 0 is refused. */
  lemma ZeroQuantityRejected()
    ensures Validate(CreateBody(Some("Фильтр"), Some("ABC-123"), Some(0)))
      == Failure([FieldError(QuantityField, NotGreaterThanZero)])
  {
    assert ValidPartNumber("ABC-123");
    assert PartNumberErrors(Some("ABC-123")) == [];
    assert [] + [] + [FieldError(QuantityField, NotGreaterThanZero)]
      == [FieldError(QuantityField, NotGreaterThanZero)];
  }

  /** The two well-formed creates of the API test script are accepted unchanged. */
  lemma WellFormedCreatesAccepted()
    ensures Validate(CreateBody(Some("Тормозные колодки"), Some("BRK-001"), Some(4)))
      == Success(PartCreate("Тормозные колодки", "BRK-001", 4))
    ensures Validate(CreateBody(Some("Масляный фильтр"), Some("OIL-001"), Some(10)))
      == Success(PartCreate("Масляный фильтр", "OIL-001", 10))
  {
    assert ValidPartNumber("BRK-001");
    assert ValidPartNumber("OIL-001");
  }

  /**
    The default quantity passes its own check, so a body with a valid name
    and part number and no quantity is accepted with quantity 1.
   */
  lemma DefaultQuantityAccepted(name: string, partNumber: string)
    requires ValidName(name) && ValidPartNumber(partNumber)
    ensures ValidQuantity(DefaultQuantity)
    ensures Validate(CreateBody(Some(name), Some(partNumber), None)) == Success(PartCreate(name, partNumber, 1))
    ensures Validate(CreateBody(Some("Фильтр"), Some("ABC-123"), None)) == Success(PartCreate("Фильтр", "ABC-123", 1))
  {
    assert ValidPartNumber("ABC-123");
  }
}
