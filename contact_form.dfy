/** The logic of the contact form dialog: the state updaters for the list
    of phone entries, the clean-up of the submitted payload, the mapping of
    validation issues to field errors, and the rendering of a thrown error
    as a message. Each updater is a function of the previous form values. */
module ContactForm {
  import opened Common
  import ContactSchema

  /** A value held by the form (a string from an input, an absent or null
      value, a number or boolean from the initial values, or a list of
      phone entries). */
  datatype FieldValue =
    | Undef
    | Null
    | Text(s: string)
    | Number(n: int)
    | Flag(b: bool)
    | Entries(items: seq<map<string, FieldValue>>)

  /** One phone entry: `number`, `label`, `_tmpId`, ... */
  type Entry = map<string, FieldValue>

  /** The form values: the object's own keys. */
  type Values = map<string, FieldValue>

  /** JavaScript truthiness of a form value; arrays are truthy. */
  predicate IsTruthy(v: FieldValue) {
    match v
    case Undef => false
    case Null => false
    case Text(s) => s != ""
    case Number(n) => n != 0
    case Flag(b) => b
    case Entries(_) => true
  }

  /** `obj[key]`: `undefined` for a missing key. */
  function Lookup(d: map<string, FieldValue>, k: string): FieldValue {
    if k in d then d[k] else Undef
  }

  /** `x ?? undefined`. */
  function OrUndef(v: FieldValue): FieldValue {
    if v == FieldValue.Null then Undef else v
  }

  /** An optional string argument as a form value. */
  function AsValue(o: Option<string>): FieldValue {
    if o.Some? then Text(o.value) else Undef
  }

  /** `Array.isArray(prev.phones) ? [...prev.phones] : []`. */
  function PhonesOf(v: Values): seq<Entry> {
    if "phones" in v && v["phones"].Entries? then v["phones"].items else []
  }

  /** `{ number: "" }`. */
  const EmptyPhone: Entry := map["number" := Text("")]

  /** `n` blank entries. */
  function Blanks(n: nat): (r: seq<Entry>)
    ensures |r| == n && forall i :: 0 <= i < n ==> r[i] == EmptyPhone
  {
    if n == 0 then [] else Blanks(n - 1) + [EmptyPhone]
  }

  /** The list padded with blank entries until `index` is a position in it. */
  function Pad(p: seq<Entry>, index: nat): (r: seq<Entry>)
    ensures |r| == if |p| > index then |p| else index + 1
    ensures r[..|p|] == p
    ensures forall i :: |p| <= i < |r| ==> r[i] == EmptyPhone
  {
    if |p| > index then p else p + Blanks(index + 1 - |p|)
  }

  /** What `handlePhoneFieldChange(index, field, value)` makes of `prev`:
      the padded list with the field of entry `index` set, or `prev` itself
      when that field already holds the value (absent and null counting as
      the same). */
  function PhoneFieldChanged(prev: Values, index: nat, field: string, value: Option<string>): Values {
    var phones := Pad(PhonesOf(prev), index);
    if OrUndef(Lookup(phones[index], field)) == AsValue(value) then prev
    else prev["phones" := Entries(phones[index := phones[index][field := AsValue(value)]])]
  }

  /** The updater of `handlePhoneFieldChange`: copy, pad in a loop, compare,
      then set. */
  method ChangePhoneField(prev: Values, index: nat, field: string, value: Option<string>) returns (next: Values)
    ensures next == PhoneFieldChanged(prev, index, field, value)
  {
    var p := PhonesOf(prev);
    var phones := p;
    while |phones| <= index
      invariant |p| <= |phones| && phones == p + Blanks(|phones| - |p|)
      invariant |phones| <= index + 1 || phones == p
      decreases index + 1 - |phones|
    {
      assert p + Blanks(|phones| + 1 - |p|) == p + Blanks(|phones| - |p|) + [EmptyPhone];
      phones := phones + [EmptyPhone];
    }
    assert phones == Pad(p, index);
    var current := Lookup(phones[index], field);
    if OrUndef(current) == AsValue(value) {
      return prev;
    }
    phones := phones[index := phones[index][field := AsValue(value)]];
    next := prev["phones" := Entries(phones)];
  }

  /** A change either leaves the values as they were (exactly when the
      field already held the value) or makes the list `max(old length,
      index + 1)` long, with blank entries appended, the field of entry
      `index` set, and every other entry, every other field of that entry
      and every other form value kept. */
  lemma {:induction false} PhoneFieldChangedSpec(prev: Values, index: nat, field: string, value: Option<string>)
    ensures var old_ := PhonesOf(prev);
      var next := PhoneFieldChanged(prev, index, field, value);
      var entry := if index < |old_| then old_[index] else EmptyPhone;
      && (next == prev <==> OrUndef(Lookup(entry, field)) == AsValue(value))
      && (next != prev ==>
            && (forall k :: k != "phones" ==> (k in next <==> k in prev) && (k in prev ==> next[k] == prev[k]))
            && next["phones"].Entries?
            && var items := next["phones"].items;
            && |items| == (if |old_| > index then |old_| else index + 1)
            && Lookup(items[index], field) == AsValue(value)
            && (forall k :: k != field ==> Lookup(items[index], k) == Lookup(entry, k))
            && (forall j :: 0 <= j < |old_| && j != index ==> items[j] == old_[j])
            && (forall j :: |old_| <= j < |items| && j != index ==> items[j] == EmptyPhone))
  {
    var old_ := PhonesOf(prev);
    var phones := Pad(old_, index);
    assert phones[index] == if index < |old_| then old_[index] else EmptyPhone;
    forall j | 0 <= j < |phones|
      ensures phones[j] == if j < |old_| then old_[j] else EmptyPhone
    {
    }
    var next := PhoneFieldChanged(prev, index, field, value);
    if OrUndef(Lookup(phones[index], field)) != AsValue(value) {
      assert "phones" in prev && prev["phones"] == Entries(old_) ==> next != prev by {
        if "phones" in prev && prev["phones"] == Entries(old_) {
          assert Lookup(next["phones"].items[index], field) == AsValue(value);
        }
      }
    }
  }

  /** What `handleAddPhone` makes of `prev`: one more entry with an empty
      number and a fresh temporary id. */
  function PhoneAdded(prev: Values, tmpId: string): (next: Values)
    ensures "phones" in next && next["phones"].Entries?
    ensures var items := next["phones"].items;
      |items| == |PhonesOf(prev)| + 1 && items[..|PhonesOf(prev)|] == PhonesOf(prev)
      && Lookup(items[|items| - 1], "number") == Text("")
    ensures forall k :: k != "phones" ==> (k in next <==> k in prev) && (k in prev ==> next[k] == prev[k])
  {
    var phones := PhonesOf(prev) + [map["number" := Text(""), "_tmpId" := Text(tmpId)]];
    assert phones[..|PhonesOf(prev)|] == PhonesOf(prev);
    prev["phones" := Entries(phones)]
  }

  /** Where `splice(index, 1)` starts on a list of length `len`: a negative
      index counts from the end, and the start is clamped to `[0, len]`. */
  function SpliceStart(len: nat, index: int): (r: nat)
    ensures r <= len
  {
    if index < 0 then (if len + index < 0 then 0 else len + index)
    else if index > len then len else index
  }

  /** What `handleRemovePhone(index)` makes of `prev`: the list with the
      entry at the splice start removed, if there is one there. */
  function PhoneRemoved(prev: Values, index: int): (next: Values)
    ensures "phones" in next && next["phones"].Entries?
    ensures var p := PhonesOf(prev);
      var items := next["phones"].items;
      && (0 <= index < |p| ==> items == p[..index] + p[index + 1..])
      && (index >= |p| ==> items == p)
      && (-|p| <= index < 0 ==> items == p[..|p| + index] + p[|p| + index + 1..])
      && (index < -|p| && |p| > 0 ==> items == p[1..])
    ensures forall k :: k != "phones" ==> (k in next <==> k in prev) && (k in prev ==> next[k] == prev[k])
  {
    var p := PhonesOf(prev);
    var start := SpliceStart(|p|, index);
    var phones := if start < |p| then p[..start] + p[start + 1..] else p;
    assert start == 0 < |p| ==> p[..start] + p[start + 1..] == p[1..];
    prev["phones" := Entries(phones)]
  }

  /** Removing the entry just added, by its index or as the last one,
      restores the previous list. */
  lemma {:induction false} RemoveUndoesAdd(prev: Values, tmpId: string)
    ensures PhoneRemoved(PhoneAdded(prev, tmpId), |PhonesOf(prev)|)["phones"] == Entries(PhonesOf(prev))
    ensures PhoneRemoved(PhoneAdded(prev, tmpId), -1)["phones"] == Entries(PhonesOf(prev))
  {
    var added := PhoneAdded(prev, tmpId);
    var p := PhonesOf(added);
    assert p[..|PhonesOf(prev)|] == PhonesOf(prev);
    assert p[|PhonesOf(prev)| + 1..] == [];
  }

  /** The keys `handleSubmit` drops when blank. */
  const CleanedKeys := ["email", "phone", "address", "note", "deletedAt"]

  /** `""`, `undefined`, `null` or an empty array. */
  predicate Blank(v: FieldValue) {
    v == Text("") || v == Undef || v == FieldValue.Null || v == Entries([])
  }

  /** A single `phone` moved into `phones` when there is no list. */
  function Moved(v: Values): Values {
    if IsTruthy(Lookup(v, "phone")) && !IsTruthy(Lookup(v, "phones"))
    then v["phones" := Entries([map["number" := v["phone"]]])] - {"phone"}
    else v
  }

  /** The values without the given keys where they are blank. */
  function Dropped(v: Values, keys: seq<string>): Values {
    map k | k in v && !(k in keys && Blank(v[k])) :: v[k]
  }

  /** Every phone entry without its `_tmpId`. */
  function Stripped(v: Values): Values {
    if "phones" in v && v["phones"].Entries? then
      var items := v["phones"].items;
      v["phones" := Entries(seq(|items|, i requires 0 <= i < |items| => items[i] - {"_tmpId"}))]
    else v
  }

  /** The payload `handleSubmit` validates and submits. */
  function Cleaned(values: Values): Values {
    Stripped(Dropped(Moved(values), CleanedKeys))
  }

  /** The payload clean-up of `handleSubmit`: move a lone phone into the
      list, delete blank keys one by one, strip the temporary ids. */
  method SubmitPayload(values: Values) returns (payload: Values)
    ensures payload == Cleaned(values)
  {
    payload := values;
    if IsTruthy(Lookup(payload, "phone")) && !IsTruthy(Lookup(payload, "phones")) {
      payload := payload["phones" := Entries([map["number" := payload["phone"]]])];
      payload := payload - {"phone"};
    }
    ghost var moved := payload;
    for i := 0 to |CleanedKeys|
      invariant payload == Dropped(moved, CleanedKeys[..i])
    {
      var key := CleanedKeys[i];
      assert CleanedKeys[..i + 1] == CleanedKeys[..i] + [key];
      if Blank(Lookup(payload, key)) {
        payload := payload - {key};
      }
      assert payload == Dropped(moved, CleanedKeys[..i + 1]);
    }
    assert CleanedKeys[..|CleanedKeys|] == CleanedKeys;
    if "phones" in payload && payload["phones"].Entries? {
      var items := payload["phones"].items;
      payload := payload["phones" := Entries(seq(|items|, i requires 0 <= i < |items| => items[i] - {"_tmpId"}))];
    }
  }

  /** After clean-up, none of email, phone, address, note and deletedAt
      is blank; every other key but `phone` and `phones` is kept with its
      value; and no phone entry has a temporary id. */
  lemma {:induction false} CleanedSpec(values: Values)
    ensures var out := Cleaned(values);
      && (forall k :: k in CleanedKeys && k in out ==> !Blank(out[k]))
      && (forall k :: k !in CleanedKeys && k != "phones" ==> (k in out <==> k in values) && (k in out ==> out[k] == values[k]))
      && ("phones" in out && out["phones"].Entries? ==> forall i :: 0 <= i < |out["phones"].items| ==> "_tmpId" !in out["phones"].items[i])
  {
  }

  /** A truthy `phone` with no phone list becomes a one-entry list holding
      that number, and `phone` itself leaves the payload. */
  lemma {:induction false} LonePhoneMoved(values: Values)
    requires IsTruthy(Lookup(values, "phone")) && !IsTruthy(Lookup(values, "phones"))
    ensures "phone" !in Cleaned(values)
    ensures Cleaned(values)["phones"] == Entries([map["number" := values["phone"]]])
  {
    var moved := Moved(values);
    assert moved["phones"] == Entries([map["number" := values["phone"]]]);
    var dropped := Dropped(moved, CleanedKeys);
    assert dropped["phones"] == moved["phones"];
    var items := dropped["phones"].items;
    assert items[0] - {"_tmpId"} == items[0];
    assert seq(|items|, i requires 0 <= i < |items| => items[i] - {"_tmpId"}) == items;
  }

  /** Cleaning a cleaned payload changes nothing. */
  lemma {:induction false} CleanedIdempotent(values: Values)
    ensures Cleaned(Cleaned(values)) == Cleaned(values)
  {
    var out := Cleaned(values);
    var moved := Moved(values);
    if "phone" in out && IsTruthy(out["phone"]) {
      assert "phone" in moved && moved["phone"] == out["phone"];
      assert IsTruthy(Lookup(moved, "phones"));
    }
    assert Moved(out) == out;
    assert Dropped(out, CleanedKeys) == out;
    if "phones" in out && out["phones"].Entries? {
      var items := out["phones"].items;
      CleanedSpec(values);
      forall i | 0 <= i < |items|
        ensures items[i] - {"_tmpId"} == items[i]
      {
      }
      assert seq(|items|, i requires 0 <= i < |items| => items[i] - {"_tmpId"}) == items;
    }
  }

  /** The field errors and the non-field error `handleSubmit` sets from the
      issues of a failed parse: an issue with a path is the error of that
      field, one without is the error of `name` and the non-field error;
      later issues overwrite earlier ones. */
  function IssueErrors(issues: seq<ContactSchema.Issue>, previous: Option<string>): (map<string, string>, Option<string>)
    decreases |issues|
  {
    if issues == [] then (map[], previous)
    else
      var (fields, nonField) := IssueErrors(issues[..|issues| - 1], previous);
      var issue := issues[|issues| - 1];
      if issue.path.Some? && issue.path.value != "" then (fields[issue.path.value := issue.message], nonField)
      else (fields["name" := issue.message], Some(issue.message))
  }

  /** The loop of `handleSubmit` over the issues. */
  method MapIssues(issues: seq<ContactSchema.Issue>, previous: Option<string>)
    returns (fieldErrors: map<string, string>, nonFieldError: Option<string>)
    ensures (fieldErrors, nonFieldError) == IssueErrors(issues, previous)
  {
    fieldErrors := map[];
    nonFieldError := previous;
    for i := 0 to |issues|
      invariant (fieldErrors, nonFieldError) == IssueErrors(issues[..i], previous)
    {
      assert issues[..i + 1][..i] == issues[..i];
      var path := issues[i].path;
      if path.Some? && path.value != "" {
        fieldErrors := fieldErrors[path.value := issues[i].message];
      } else {
        fieldErrors := fieldErrors["name" := issues[i].message];
        nonFieldError := Some(issues[i].message);
      }
    }
    assert issues[..|issues|] == issues;
  }

  /** Issues that all carry a field path leave the non-field error as it
      was, and each field shows the message of the last issue on it. */
  lemma {:induction false} PathIssuesErrors(issues: seq<ContactSchema.Issue>, previous: Option<string>)
    requires forall i :: 0 <= i < |issues| ==> issues[i].path.Some? && issues[i].path.value != ""
    ensures IssueErrors(issues, previous).1 == previous
    ensures forall i :: 0 <= i < |issues| && (forall j :: i < j < |issues| ==> issues[j].path != issues[i].path) ==>
      issues[i].path.value in IssueErrors(issues, previous).0
      && IssueErrors(issues, previous).0[issues[i].path.value] == issues[i].message
    decreases |issues|
  {
    if issues != [] {
      var init := issues[..|issues| - 1];
      var last := issues[|issues| - 1];
      assert forall i :: 0 <= i < |init| ==> init[i] == issues[i];
      PathIssuesErrors(init, previous);
      var (fields, _) := IssueErrors(init, previous);
      assert IssueErrors(issues, previous).0 == fields[last.path.value := last.message];
      forall i | 0 <= i < |issues| - 1 && (forall j :: i < j < |issues| ==> issues[j].path != issues[i].path)
        ensures issues[i].path.value in IssueErrors(issues, previous).0
          && IssueErrors(issues, previous).0[issues[i].path.value] == issues[i].message
      {
        assert issues[|issues| - 1].path != issues[i].path;
        assert init[i] == issues[i];
      }
    }
  }

  /** A contact with no channel and a name shows the refinement's message
      both under `name` and as the non-field error; with the name missing
      the refinement is skipped, so `name` shows the name's own issue and
      the non-field error is left as it was. */
  lemma {:induction false} NoChannelShownOnName(c: ContactSchema.ContactFields, isEmail: string -> bool,
                                                isE164: string -> bool, libraryMessage: string -> string,
                                                previous: Option<string>)
    requires !ContactSchema.HasChannel(c)
    ensures var (fields, nonField) := IssueErrors(ContactSchema.ContactIssues(c, isEmail, isE164, libraryMessage), previous);
      && "name" in fields
      && (c.name.Some? ==> fields["name"] == ContactSchema.ChannelMessage && nonField == Some(ContactSchema.ChannelMessage))
      && (c.name.None? ==> fields["name"] == libraryMessage("name") && nonField == previous)
  {
    var issues := ContactSchema.ContactIssues(c, isEmail, isE164, libraryMessage);
    ContactSchema.NoChannelRejected(c, isEmail, isE164, libraryMessage);
    if c.name.None? {
      var rejected := ContactSchema.RejectedFields(c, isEmail, isE164);
      assert |issues| == |rejected|;
      assert forall i :: 0 <= i < |issues| ==> issues[i].path == Some(rejected[i]);
      assert rejected[0] == "name";
      forall j | 0 < j < |issues|
        ensures issues[j].path != issues[0].path
      {
        assert rejected[j] != rejected[0];
      }
      PathIssuesErrors(issues, previous);
    }
  }

  /** A thrown or returned value as the form sees it. */
  datatype Json =
    | JUndef
    | JNull
    | JBool(b: bool)
    | JNum(n: int)
    | JStr(s: string)
    | JArr(items: seq<Json>)
    | JObj(fields: map<string, Json>)

  predicate JTruthy(j: Json) {
    match j
    case JUndef => false
    case JNull => false
    case JBool(b) => b
    case JNum(n) => n != 0
    case JStr(s) => s != ""
    case _ => true
  }

  predicate Nullish(j: Json) {
    j == JUndef || j == JNull
  }

  /** `a ?? b`. */
  function OrElse(a: Json, b: Json): Json {
    if Nullish(a) then b else a
  }

  /** `x?.key`. */
  function Prop(j: Json, key: string): Json {
    if j.JObj? && key in j.fields then j.fields[key] else JUndef
  }

  /** `parts.join(sep)`. */
  function Join(parts: seq<string>, sep: string): (r: string)
    ensures |parts| == 1 ==> r == parts[0]
    ensures |parts| > 1 ==> r == Join(parts[..|parts| - 1], sep) + sep + parts[|parts| - 1]
    decreases |parts|
  {
    if parts == [] then ""
    else if |parts| == 1 then parts[0]
    else Join(parts[..|parts| - 1], sep) + sep + parts[|parts| - 1]
  }

  /** `String(j)` for values without a custom `toString`. */
  function JsString(j: Json): string
    decreases j
  {
    match j
    case JUndef => "undefined"
    case JNull => "null"
    case JBool(b) => if b then "true" else "false"
    case JNum(n) => Decimal(n)
    case JStr(s) => s
    case JArr(items) => Join(seq(|items|, i requires 0 <= i < |items| => if Nullish(items[i]) then "" else JsString(items[i])), ",")
    case JObj(_) => "[object Object]"
  }

  /** `d?.message || String(d)`. */
  function ItemText(d: Json): string {
    var m := Prop(d, "message");
    if JTruthy(m) then JsString(m) else JsString(d)
  }

  /** `formatDetails(details)`: nothing for null and undefined, the item
      texts joined by `"; "` for an array, the string itself, or the JSON
      text (`stringify` gives `None` where `JSON.stringify` throws). */
  function FormatDetails(details: Json, stringify: Json -> Option<string>): (r: Option<string>)
    ensures Nullish(details) ==> r.None?
    ensures details.JStr? ==> r == Some(details.s)
  {
    match details
    case JUndef => None
    case JNull => None
    case JArr(items) => Some(Join(seq(|items|, i requires 0 <= i < |items| => ItemText(items[i])), "; "))
    case JStr(s) => Some(s)
    case _ => stringify(details)
  }

  /** An array of issues with non-empty string messages is shown as those
      messages joined by `"; "`. */
  lemma {:induction false} DetailsJoinMessages(items: seq<Json>, messages: seq<string>, stringify: Json -> Option<string>)
    requires |items| == |messages|
    requires forall i :: 0 <= i < |items| ==> Prop(items[i], "message") == JStr(messages[i]) && messages[i] != ""
    ensures FormatDetails(JArr(items), stringify) == Some(Join(messages, "; "))
  {
    assert seq(|items|, i requires 0 <= i < |items| => ItemText(items[i])) == messages;
  }

  /** What a submit can throw: an `ApiError` (its message and details), any
      other `Error`, or any other value. */
  datatype Thrown = ApiError(message: string, details: Json) | PlainError(message: string) | OtherValue(value: Json)

  /** `formatApiError(e)`: `e.body` does not exist on an `ApiError`, so the
      body is the details, or `{}`; its truthy `message` or `error` wins,
      then its `details` (or the error's own) formatted, then the message. */
  function FormatApiError(message: string, details: Json, stringify: Json -> Option<string>): string {
    var body := OrElse(JUndef, OrElse(details, JObj(map[])));
    var msg := if JTruthy(Prop(body, "message")) then Prop(body, "message") else Prop(body, "error");
    if JTruthy(msg) then JsString(msg)
    else
      var formatted := FormatDetails(OrElse(Prop(body, "details"), details), stringify);
      formatted.GetOr(message)
  }

  /** `formatError(e)`. */
  function FormatError(e: Thrown, stringify: Json -> Option<string>): (r: string)
    ensures e == OtherValue(JUndef) || e == OtherValue(JNull) ==> r == "Failed to submit"
    ensures e == OtherValue(JBool(true)) ==> r == "true"
    ensures e == OtherValue(JBool(false)) ==> r == "false"
    ensures e.PlainError? ==> r == e.message
  {
    match e
    case ApiError(message, details) => FormatApiError(message, details, stringify)
    case PlainError(message) => message
    case OtherValue(v) =>
      match v
      case JUndef => "Failed to submit"
      case JNull => "Failed to submit"
      case JStr(s) => s
      case JNum(n) => Decimal(n)
      case JBool(b) => if b then "true" else "false"
      case _ =>
        var json := stringify(v);
        if json.Some? then json.value
        else
          var t := JsString(v);
          if t != "[object Object]" then t else "Failed to submit"
  }

  /** An API error whose details carry a message shows that message; one
      whose details are an array of issues shows their messages joined. */
  lemma {:induction false} ApiErrorMessages(message: string, details: Json, stringify: Json -> Option<string>)
    ensures JTruthy(Prop(details, "message")) && Prop(details, "message").JStr? ==>
      FormatError(ApiError(message, details), stringify) == Prop(details, "message").s
    ensures details.JArr? ==>
      FormatError(ApiError(message, details), stringify) == FormatDetails(details, stringify).value
    ensures Nullish(details) ==> FormatError(ApiError(message, details), stringify) == message
  {
  }
}
