/**
 * The validation rules the announcement form registers for each field, evaluated
 * the way the form library does on submit: `required` first (empty text, or no
 * file chosen), then the numeric bounds, then the length bounds, then the pattern.
 * At most one message is reported per field.
 */
module CreationForm {
  import opened Wrappers
  import opened Entities

  /** The values the form hands to the submit handler. `price` is `None` for an empty number
    * input; `image` is the file input's file list, `None` when the input holds no list at all. */
  datatype FormValues = FormValues(
    title: string,
    category: Id,
    price: Option<int>,
    description: string,
    location: string,
    email: string,
    phoneNumber: string,
    image: Option<seq<File>>)

  datatype Field = Title | Category | Price | Image | Description | Location | Email | PhoneNumber

  datatype FieldError = FieldError(field: Field, message: string)

  const MaxPrice: int := 999_999

  function TitleError(title: string): (e: Option<string>)
    ensures e.None? <==> 3 <= |title| <= 50
    ensures e == Some("Please provide title") <==> title == ""
    ensures e == Some("Min length: 3") <==> 0 < |title| < 3
    ensures e == Some("Max length: 50") <==> |title| > 50
  {
    if title == "" then Some("Please provide title")
    else if |title| < 3 then Some("Min length: 3")
    else if |title| > 50 then Some("Max length: 50")
    else None
  }

  function PriceError(price: Option<int>): (e: Option<string>)
    ensures e.None? <==> price.Some? && 1 <= price.value <= MaxPrice
    ensures e == Some("Please provide price") <==> price.None?
    ensures e == Some("Min: 1") <==> price.Some? && price.value < 1
    ensures e == Some("Max: 999 999") <==> price.Some? && price.value > MaxPrice
  {
    match price
    case None => Some("Please provide price")
    case Some(n) =>
      if n < 1 then Some("Min: 1")
      else if n > MaxPrice then Some("Max: 999 999")
      else None
  }

  /** The image is required everywhere except on paths beginning with "/update". */
  predicate ImageRequired(pathname: string) {
    !("/update" <= pathname)
  }

  /** A file was chosen: the list exists and is not empty. */
  predicate HasFile(image: Option<seq<File>>) {
    image.Some? && |image.value| > 0
  }

  function ImageError(image: Option<seq<File>>, pathname: string): (e: Option<string>)
    ensures e.None? <==> HasFile(image) || !ImageRequired(pathname)
    ensures e.Some? ==> e.value == "Please provide image"
  {
    if ImageRequired(pathname) && !HasFile(image) then Some("Please provide image") else None
  }

  function DescriptionError(description: string): (e: Option<string>)
    ensures e.None? <==> 1 <= |description| <= 600
    ensures e == Some("Please provide description") <==> description == ""
    ensures e == Some("Max length: 600") <==> |description| > 600
  {
    if description == "" then Some("Please provide description")
    else if |description| > 600 then Some("Max length: 600")
    else None
  }

  function LocationError(location: string): (e: Option<string>)
    ensures e.None? <==> 2 <= |location| <= 60
    ensures e == Some("Please provide location") <==> location == ""
    ensures e == Some("Min length: 2") <==> |location| == 1
    ensures e == Some("Max length: 60") <==> |location| > 60
  {
    if location == "" then Some("Please provide location")
    else if |location| < 2 then Some("Min length: 2")
    else if |location| > 60 then Some("Max length: 60")
    else None
  }

  /** `emailPattern` stands for the address regular expression, which is not modelled. */
  function EmailError(email: string, emailPattern: string -> bool): (e: Option<string>)
    ensures e.None? <==> email != "" && emailPattern(email)
    ensures e == Some("Please provide email") <==> email == ""
    ensures e == Some("Please provide a valid email") <==> email != "" && !emailPattern(email)
  {
    if email == "" then Some("Please provide email")
    else if !emailPattern(email) then Some("Please provide a valid email")
    else None
  }

  function PhoneError(phoneNumber: string): (e: Option<string>)
    ensures e.None? <==> 10 <= |phoneNumber| <= 13
    ensures e == Some("Please provide phone number") <==> phoneNumber == ""
    ensures e == Some("Min length: 10") <==> 0 < |phoneNumber| < 10
    ensures e == Some("Max length: 13") <==> |phoneNumber| > 13
  {
    if phoneNumber == "" then Some("Please provide phone number")
    else if |phoneNumber| < 10 then Some("Min length: 10")
    else if |phoneNumber| > 13 then Some("Max length: 13")
    else None
  }

  /** Reference statement of each field's rule, written directly on the values. */
  predicate FieldOk(f: Field, v: FormValues, pathname: string, emailPattern: string -> bool) {
    match f
    case Title => 3 <= |v.title| <= 50
    case Category => true
    case Price => v.price.Some? && 1 <= v.price.value <= MaxPrice
    case Image => !ImageRequired(pathname) || HasFile(v.image)
    case Description => 1 <= |v.description| <= 600
    case Location => 2 <= |v.location| <= 60
    case Email => v.email != "" && emailPattern(v.email)
    case PhoneNumber => 10 <= |v.phoneNumber| <= 13
  }

  /** Every field satisfies its rule. */
  predicate Valid(v: FormValues, pathname: string, emailPattern: string -> bool) {
    && FieldOk(Title, v, pathname, emailPattern)
    && FieldOk(Price, v, pathname, emailPattern)
    && FieldOk(Image, v, pathname, emailPattern)
    && FieldOk(Description, v, pathname, emailPattern)
    && FieldOk(Location, v, pathname, emailPattern)
    && FieldOk(Email, v, pathname, emailPattern)
    && FieldOk(PhoneNumber, v, pathname, emailPattern)
  }

  /** The message the form shows under one field, if any. The category select has no rule. */
  function FieldMessage(f: Field, v: FormValues, pathname: string, emailPattern: string -> bool): (e: Option<string>)
    ensures e.None? <==> FieldOk(f, v, pathname, emailPattern)
  {
    match f
    case Title => TitleError(v.title)
    case Category => None
    case Price => PriceError(v.price)
    case Image => ImageError(v.image, pathname)
    case Description => DescriptionError(v.description)
    case Location => LocationError(v.location)
    case Email => EmailError(v.email, emailPattern)
    case PhoneNumber => PhoneError(v.phoneNumber)
  }

  /** The fields with a rule, in the order they appear on the form. */
  const FormOrder: seq<Field> := [Title, Price, Image, Description, Location, Email, PhoneNumber]

  /** Some error in `errors` is about field `f`. */
  predicate Flags(errors: seq<FieldError>, f: Field) {
    exists i :: 0 <= i < |errors| && errors[i].field == f
  }

  /** No field is listed twice. */
  predicate Distinct(fs: seq<Field>) {
    forall i, j :: 0 <= i < j < |fs| ==> fs[i] != fs[j]
  }

  /** The messages for the fields `fs`, in that order, at most one per field. */
  function ErrorsFor(fs: seq<Field>, v: FormValues, pathname: string, emailPattern: string -> bool): (errors: seq<FieldError>)
    requires Distinct(fs)
    ensures forall i :: 0 <= i < |errors| ==>
      errors[i].field in fs && FieldMessage(errors[i].field, v, pathname, emailPattern) == Some(errors[i].message)
    ensures forall f :: f in fs && !FieldOk(f, v, pathname, emailPattern) ==> Flags(errors, f)
    ensures forall i, j :: 0 <= i < j < |errors| ==> errors[i].field != errors[j].field
    decreases |fs|
  {
    if fs == [] then []
    else
      var head := match FieldMessage(fs[0], v, pathname, emailPattern)
        case None => []
        case Some(m) => [FieldError(fs[0], m)];
      var rest := ErrorsFor(fs[1..], v, pathname, emailPattern);
      FlagsAppend(head, rest);
      assert forall f :: f in fs ==> f == fs[0] || f in fs[1..];
      assert fs[0] !in fs[1..];
      assert forall i :: 0 <= i < |rest| ==> rest[i].field != fs[0];
      assert head != [] ==> head[0].field == fs[0] && Flags(head, fs[0]);
      head + rest
  }

  /**
   * All messages of a submit attempt, in form order: exactly the fields whose rule
   * fails, each once, with the message that field's rule gives.
   */
  function Validate(v: FormValues, pathname: string, emailPattern: string -> bool): (errors: seq<FieldError>)
    ensures forall f :: Flags(errors, f) <==> !FieldOk(f, v, pathname, emailPattern)
    ensures errors == [] <==> Valid(v, pathname, emailPattern)
    ensures forall i :: 0 <= i < |errors| ==>
      FieldMessage(errors[i].field, v, pathname, emailPattern) == Some(errors[i].message)
    ensures forall i, j :: 0 <= i < j < |errors| ==> errors[i].field != errors[j].field
  {
    var errors := ErrorsFor(FormOrder, v, pathname, emailPattern);
    ValidateSpec(v, pathname, emailPattern, errors);
    errors
  }

  lemma ValidateSpec(v: FormValues, pathname: string, emailPattern: string -> bool, errors: seq<FieldError>)
    requires forall i :: 0 <= i < |errors| ==>
      errors[i].field in FormOrder && FieldMessage(errors[i].field, v, pathname, emailPattern) == Some(errors[i].message)
    requires forall f :: f in FormOrder && !FieldOk(f, v, pathname, emailPattern) ==> Flags(errors, f)
    ensures forall f :: Flags(errors, f) <==> !FieldOk(f, v, pathname, emailPattern)
    ensures errors == [] <==> Valid(v, pathname, emailPattern)
  {
    forall f
      ensures Flags(errors, f) <==> !FieldOk(f, v, pathname, emailPattern)
    {
      if Flags(errors, f) {
        var i :| 0 <= i < |errors| && errors[i].field == f;
        assert FieldMessage(f, v, pathname, emailPattern).Some?;
      } else if f != Field.Category {
        assert f in FormOrder by { match f { case _ => } }
      }
    }
    if errors != [] {
      assert Flags(errors, errors[0].field);
    }
  }

  /** An error list split in two flags what either half flags. */
  lemma FlagsAppend(head: seq<FieldError>, rest: seq<FieldError>)
    ensures forall f :: Flags(head + rest, f) <==> Flags(head, f) || Flags(rest, f)
  {
    var all := head + rest;
    forall f
      ensures Flags(all, f) <==> Flags(head, f) || Flags(rest, f)
    {
      if Flags(head, f) {
        var i :| 0 <= i < |head| && head[i].field == f;
        assert all[i] == head[i];
      }
      if Flags(rest, f) {
        var i :| 0 <= i < |rest| && rest[i].field == f;
        assert all[|head| + i] == rest[i];
      }
      if Flags(all, f) {
        var i :| 0 <= i < |all| && all[i].field == f;
        if i >= |head| {
          assert rest[i - |head|] == all[i];
        }
      }
    }
  }
}
