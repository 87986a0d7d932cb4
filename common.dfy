/** Values shared by every part of the model: optional values, the error
    kinds the backend raises, the five CRUD actions, and the flat JSON-like
    values that documents are made of. */
module Common {

  datatype Option<T> = None | Some(value: T) {
    function GetOr(default: T): T {
      if Some? then value else default
    }
  }

  /** The HttpError subclasses of the backend, plus the two store failures
      that surface as server errors: a string that is not an ObjectId where
      Mongoose casts one, and an insert refused by a unique index. */
  datatype Failure =
    | BadRequest
    | Unauthorized
    | Forbidden
    | NotFound
    | Conflict
    | CastError
    | DuplicateKey

  datatype Result<T> = Ok(value: T) | Err(failure: Failure)

  /** The actions an `allow` policy is asked about. */
  datatype Action = List | Read | Create | Update | Delete

  /** A field value of a stored document: `Oid` is a BSON ObjectId, kept as
      its canonical (lower-case) hexadecimal text. */
  datatype Value = Null | Bool(b: bool) | Num(n: int) | Str(s: string) | Oid(hex: string)

  /** A document as a plain object: field name to value. */
  type Doc = map<string, Value>

  /** JavaScript truthiness of a present value. */
  predicate Truthy(v: Value) {
    match v
    case Null => false
    case Bool(b) => b
    case Num(n) => n != 0
    case Str(s) => s != ""
    case Oid(_) => true
  }

  /** `d[k]`, where an absent key reads as undefined. */
  function Get(d: Doc, k: string): Option<Value> {
    if k in d then Some(d[k]) else None
  }

  /** Truthiness of `d[k]` (undefined is falsy). */
  predicate Has(d: Doc, k: string) {
    k in d && Truthy(d[k])
  }

  /** `d[k] ?? fallback`: null and undefined fall through. */
  function Coalesce(a: Option<Value>, b: Option<Value>): Option<Value> {
    if a.Some? && a.value != Null then a else b
  }

  /** The UTF-16 code units one character takes: two (a surrogate pair)
      outside the Basic Multilingual Plane, one inside it. */
  function CodeUnits(c: char): nat {
    if c as int >= 0x1_0000 then 2 else 1
  }

  /** JavaScript's `s.length`, which is what string `.min` and `.max`
      bounds of the schema library compare: UTF-16 code units, not
      characters. */
  function JsLength(s: string): (n: nat)
    ensures |s| <= n <= 2 * |s|
  {
    if s == [] then 0 else CodeUnits(s[0]) + JsLength(s[1..])
  }

  /** The length of a concatenation is the sum of the lengths. */
  lemma {:induction false} JsLengthAppend(s: string, t: string)
    ensures JsLength(s + t) == JsLength(s) + JsLength(t)
  {
    if s != [] {
      assert (s + t)[0] == s[0] && (s + t)[1..] == s[1..] + t;
      JsLengthAppend(s[1..], t);
    } else {
      assert s + t == t;
    }
  }

  /** A string of Basic Multilingual Plane characters has one code unit per
      character; one with a character outside it has more. */
  lemma {:induction false} JsLengthCountsPairs(s: string)
    ensures JsLength(s) == |s| <==> forall i :: 0 <= i < |s| ==> s[i] as int < 0x1_0000
  {
    if s != [] {
      JsLengthCountsPairs(s[1..]);
      assert forall i :: 1 <= i < |s| ==> s[1..][i - 1] == s[i];
      if forall i :: 0 <= i < |s| ==> s[i] as int < 0x1_0000 {
        assert forall i :: 0 <= i < |s[1..]| ==> s[1..][i] as int < 0x1_0000;
      } else if forall i :: 0 <= i < |s[1..]| ==> s[1..][i] as int < 0x1_0000 {
        assert s[0] as int >= 0x1_0000;
      } else {
        var i :| 0 <= i < |s[1..]| && s[1..][i] as int >= 0x1_0000;
        assert s[i + 1] as int >= 0x1_0000;
      }
    }
  }

  /** A string made only of characters outside the Basic Multilingual
      Plane has two code units per character. */
  lemma {:induction false} JsLengthAllPairs(s: string)
    requires forall i :: 0 <= i < |s| ==> s[i] as int >= 0x1_0000
    ensures JsLength(s) == 2 * |s|
  {
    if s != [] {
      assert forall i :: 0 <= i < |s[1..]| ==> s[1..][i] == s[i + 1];
      JsLengthAllPairs(s[1..]);
    }
  }

  function DigitChar(d: nat): char
    requires d < 10
  {
    "0123456789"[d]
  }

  /** Decimal text of a natural number, most significant digit first. */
  function NatDecimal(n: nat): (s: string)
    ensures |s| >= 1
    ensures forall i :: 0 <= i < |s| ==> '0' <= s[i] <= '9'
  {
    if n < 10 then [DigitChar(n)] else NatDecimal(n / 10) + [DigitChar(n % 10)]
  }

  /** `String(n)` for an integer. */
  function Decimal(n: int): string {
    if n < 0 then "-" + NatDecimal(-n) else NatDecimal(n)
  }

  /** `String(v)` / `v.toString()` of a field value. */
  function ToText(v: Value): string {
    match v
    case Null => "null"
    case Bool(b) => if b then "true" else "false"
    case Num(n) => Decimal(n)
    case Str(s) => s
    case Oid(h) => h
  }

  /** Every element occurs once. */
  predicate NoDup<T(==)>(s: seq<T>) {
    forall i, j :: 0 <= i < j < |s| ==> s[i] != s[j]
  }
}

/** BSON ObjectIds as Mongoose casts them from strings. */
module ObjectIds {
  import ContactValidation
  import opened Common

  function LowerHexChar(c: char): (r: char)
    ensures ContactValidation.IsHexChar(c) ==> ContactValidation.IsHexChar(r) && !('A' <= r <= 'F')
  {
    if 'A' <= c <= 'F' then (c as int + 32) as char else c
  }

  /** Hexadecimal text in the form `ObjectId.toString()` prints it. */
  function Lower(s: string): (r: string)
    ensures |r| == |s|
    ensures forall i :: 0 <= i < |s| ==> r[i] == LowerHexChar(s[i])
  {
    if s == [] then [] else [LowerHexChar(s[0])] + Lower(s[1..])
  }

  /** Canonical form: 24 lower-case hexadecimal characters. */
  predicate IsCanonical(h: string) {
    ContactValidation.IsObjectId(h) && forall i :: 0 <= i < |h| ==> !('A' <= h[i] <= 'F')
  }

  /** `new Types.ObjectId(s).toString()`: the constructor throws on a string
      that is not an ObjectId, and the text it prints is lower case. */
  function Cast(s: string): (r: Option<string>)
    ensures r.Some? <==> ContactValidation.IsObjectId(s)
    ensures r.Some? ==> IsCanonical(r.value)
  {
    if ContactValidation.IsObjectId(s) then Some(Lower(s)) else None
  }

  /** Casting a canonical id gives it back. */
  lemma {:induction false} CastCanonical(h: string)
    requires IsCanonical(h)
    ensures Cast(h) == Some(h)
  {
    assert Lower(h) == h;
  }
}
