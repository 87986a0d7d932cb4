/** The request schemas for contacts: ObjectId strings, the bounds of the
    base contact fields, and the create / update / share payloads built from
    them. Each schema is a predicate plus the list of fields it rejects. */
module ContactValidation {
  import opened Common

  predicate IsHexChar(c: char) {
    '0' <= c <= '9' || 'a' <= c <= 'f' || 'A' <= c <= 'F'
  }

  /** The ObjectId pattern: exactly 24 hexadecimal characters, either case. */
  predicate IsObjectId(s: string) {
    |s| == 24 && forall i :: 0 <= i < |s| ==> IsHexChar(s[i])
  }

  /** The characters of the `\s` class of JavaScript regular expressions. */
  predicate IsJsWhitespace(c: char) {
    c == ' ' || c == '\t' || c == '\n' || c == '\r' || c == '\U{B}' || c == '\U{C}'
    || c == '\U{A0}' || c == '\U{1680}' || '\U{2000}' <= c <= '\U{200A}'
    || c == '\U{2028}' || c == '\U{2029}' || c == '\U{202F}' || c == '\U{205F}'
    || c == '\U{3000}' || c == '\U{FEFF}'
  }

  /** One character of the phone pattern `[+\d().\-\s]`. */
  predicate IsPhoneChar(c: char) {
    c == '+' || '0' <= c <= '9' || c == '(' || c == ')' || c == '.' || c == '-' || IsJsWhitespace(c)
  }

  /** `z.string().min(1).max(100)`: the bounds count UTF-16 code units. */
  predicate NameOk(s: string) {
    1 <= JsLength(s) <= 100
  }

  predicate PhoneOk(s: string) {
    3 <= JsLength(s) <= 32 && forall i :: 0 <= i < |s| ==> IsPhoneChar(s[i])
  }

  predicate AddressOk(s: string) {
    JsLength(s) <= 255
  }

  /** A contact payload; `None` is an absent (undefined) field. The e-mail
      format check belongs to the schema library and is passed in as
      `isEmail`. */
  datatype ContactInput = ContactInput(
    firstName: Option<string>,
    lastName: Option<string>,
    phoneNumber: Option<string>,
    email: Option<string>,
    address: Option<string>,
    isActive: Option<bool>,
    owner: Option<string>,
    sharedWith: Option<seq<string>>)

  predicate OwnerOk(o: Option<string>) {
    o.Some? && IsObjectId(o.value)
  }

  predicate SharedWithOk(o: Option<seq<string>>) {
    o.None? || forall i :: 0 <= i < |o.value| ==> IsObjectId(o.value[i])
  }

  /** The base schema's optional fields. */
  predicate OptionalFieldsOk(c: ContactInput, isEmail: string -> bool) {
    && (c.phoneNumber.None? || PhoneOk(c.phoneNumber.value))
    && (c.email.None? || isEmail(c.email.value))
    && (c.address.None? || AddressOk(c.address.value))
  }

  /** The create schema: both names required, owner a required ObjectId,
      sharedWith an optional list of ObjectIds. */
  predicate CreateValid(c: ContactInput, isEmail: string -> bool) {
    && c.firstName.Some? && NameOk(c.firstName.value)
    && c.lastName.Some? && NameOk(c.lastName.value)
    && OptionalFieldsOk(c, isEmail)
    && OwnerOk(c.owner)
    && SharedWithOk(c.sharedWith)
  }

  /** The update schema: the base schema made partial, owner optional. */
  predicate UpdateValid(c: ContactInput, isEmail: string -> bool) {
    && (c.firstName.None? || NameOk(c.firstName.value))
    && (c.lastName.None? || NameOk(c.lastName.value))
    && OptionalFieldsOk(c, isEmail)
    && (c.owner.None? || IsObjectId(c.owner.value))
    && SharedWithOk(c.sharedWith)
  }

  /** The keys of the contact schemas, as issue paths. */
  datatype Path = FirstName | LastName | PhoneNumber | Email | Address | Owner | SharedWith

  function Flag(bad: bool, field: Path): (r: seq<Path>)
    ensures r == [] <==> !bad
  {
    if bad then [field] else []
  }

  /** The issues of the base schema's optional fields. */
  function OptionalIssues(c: ContactInput, isEmail: string -> bool): (r: seq<Path>)
    ensures r == [] <==> OptionalFieldsOk(c, isEmail)
    ensures forall p :: p in r ==> p in {PhoneNumber, Email, Address}
  {
    Flag(c.phoneNumber.Some? && !PhoneOk(c.phoneNumber.value), PhoneNumber)
    + Flag(c.email.Some? && !isEmail(c.email.value), Email)
    + Flag(c.address.Some? && !AddressOk(c.address.value), Address)
  }

  /** The fields the create schema reports, in schema order. */
  function CreateIssues(c: ContactInput, isEmail: string -> bool): (r: seq<Path>)
    ensures r == [] <==> CreateValid(c, isEmail)
    ensures Owner in r <==> !OwnerOk(c.owner)
    ensures FirstName in r <==> !(c.firstName.Some? && NameOk(c.firstName.value))
    ensures SharedWith in r <==> !SharedWithOk(c.sharedWith)
  {
    var first := Flag(!(c.firstName.Some? && NameOk(c.firstName.value)), FirstName);
    var last := Flag(!(c.lastName.Some? && NameOk(c.lastName.value)), LastName);
    var optional := OptionalIssues(c, isEmail);
    var owner := Flag(!OwnerOk(c.owner), Owner);
    var shared := Flag(!SharedWithOk(c.sharedWith), SharedWith);
    first + last + optional + owner + shared
  }

  /** The fields the update schema reports: only present fields can fail. */
  function UpdateIssues(c: ContactInput, isEmail: string -> bool): (r: seq<Path>)
    ensures r == [] <==> UpdateValid(c, isEmail)
    ensures Owner in r <==> c.owner.Some? && !IsObjectId(c.owner.value)
    ensures FirstName in r <==> c.firstName.Some? && !NameOk(c.firstName.value)
  {
    var first := Flag(c.firstName.Some? && !NameOk(c.firstName.value), FirstName);
    var last := Flag(c.lastName.Some? && !NameOk(c.lastName.value), LastName);
    var optional := OptionalIssues(c, isEmail);
    var owner := Flag(c.owner.Some? && !IsObjectId(c.owner.value), Owner);
    var shared := Flag(!SharedWithOk(c.sharedWith), SharedWith);
    first + last + optional + owner + shared
  }

  /** Every payload the create schema accepts is accepted by the update
      schema; the converse fails for the empty payload. */
  lemma CreateAcceptedByUpdate(c: ContactInput, isEmail: string -> bool)
    ensures CreateValid(c, isEmail) ==> UpdateValid(c, isEmail)
    ensures UpdateValid(ContactInput(None, None, None, None, None, None, None, None), isEmail)
    ensures !CreateValid(ContactInput(None, None, None, None, None, None, None, None), isEmail)
  {
  }

  /** The name bound counts code units: for characters of the Basic
      Multilingual Plane it is the character count, and a name of sixty
      emoji (120 code units) is refused though it has only sixty
      characters. */
  lemma {:induction false} NameBoundCountsCodeUnits(s: string)
    ensures (forall i :: 0 <= i < |s| ==> s[i] as int < 0x1_0000) ==> (NameOk(s) <==> 1 <= |s| <= 100)
    ensures NameOk(s) ==> 1 <= |s| <= 100
    ensures |s| == 60 && (forall i :: 0 <= i < |s| ==> s[i] == '\U{1F600}') ==> !NameOk(s)
  {
    JsLengthCountsPairs(s);
    if forall i :: 0 <= i < |s| ==> s[i] == '\U{1F600}' {
      JsLengthAllPairs(s);
    }
  }

  /** The share schema: both ends are ObjectIds. */
  predicate ShareValid(contact: string, user: string) {
    IsObjectId(contact) && IsObjectId(user)
  }
}
