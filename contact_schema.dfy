/** The shared `ContactZ` schema: a base entity (whose fields are all
    optional or defaulted) extended with a required non-empty name, optional
    email, phone, address and note, and a refinement that asks for at least
    one way to reach the contact. */
module ContactSchema {
  import opened Common

  /** The contact fields the schema checks; `None` is an absent field. */
  datatype ContactFields = ContactFields(name: Option<string>, email: Option<string>, phone: Option<string>,
                                         address: Option<string>, note: Option<string>)

  /** One validation issue: the first element of its path, if any, and its
      message. */
  datatype Issue = Issue(path: Option<string>, message: string)

  /** The refinement's message. */
  const ChannelMessage := "At least one of email, phone, address, or note must be provided"

  /** `!!data.field` on an optional string. */
  predicate Filled(o: Option<string>) {
    o.Some? && o.value != ""
  }

  /** The refinement's condition: some channel is truthy. */
  predicate HasChannel(c: ContactFields) {
    Filled(c.email) || Filled(c.phone) || Filled(c.address) || Filled(c.note)
  }

  /** The fields the shape rejects, in shape order: a missing or empty name,
      an email the library's email format refuses, a phone its E.164 format
      refuses. Address and note are any string. */
  function RejectedFields(c: ContactFields, isEmail: string -> bool, isE164: string -> bool): (r: seq<string>)
    ensures NoDup(r)
    ensures "name" in r <==> !Filled(c.name)
    ensures "email" in r <==> c.email.Some? && !isEmail(c.email.value)
    ensures "phone" in r <==> c.phone.Some? && !isE164(c.phone.value)
    ensures forall f :: f in r ==> f in {"name", "email", "phone"}
  {
    (if Filled(c.name) then [] else ["name"])
    + (if c.email.Some? && !isEmail(c.email.value) then ["email"] else [])
    + (if c.phone.Some? && !isE164(c.phone.value) then ["phone"] else [])
  }

  /** Whether the refinement runs: a missing name is a type issue that
      aborts the object, so its refinement is skipped; an empty name, a
      malformed email or a malformed phone is a check issue that lets the
      parse go on. */
  predicate RefinementRuns(c: ContactFields) {
    c.name.Some?
  }

  /** The issues of `ContactZ.safeParse`: one per rejected field, carrying
      that field as its path and the library's message for it, then, when
      the refinement runs and no channel is given, the refinement's issue
      with no path. */
  function ContactIssues(c: ContactFields, isEmail: string -> bool, isE164: string -> bool,
                         libraryMessage: string -> string): seq<Issue>
  {
    var fields := RejectedFields(c, isEmail, isE164);
    seq(|fields|, i requires 0 <= i < |fields| => Issue(Some(fields[i]), libraryMessage(fields[i])))
    + (if HasChannel(c) || !RefinementRuns(c) then [] else [Issue(None, ChannelMessage)])
  }

  /** `ContactZ.safeParse(...).success`. */
  predicate ContactValid(c: ContactFields, isEmail: string -> bool, isE164: string -> bool) {
    RejectedFields(c, isEmail, isE164) == [] && HasChannel(c)
  }

  /** A contact is valid exactly when it has a non-empty name, a well-formed
      email and phone where given, and at least one truthy channel; and
      exactly then the parse reports no issue. */
  lemma {:induction false} ValidIff(c: ContactFields, isEmail: string -> bool, isE164: string -> bool,
                                    libraryMessage: string -> string)
    ensures ContactValid(c, isEmail, isE164) <==>
      Filled(c.name)
      && (c.email.None? || isEmail(c.email.value))
      && (c.phone.None? || isE164(c.phone.value))
      && HasChannel(c)
    ensures ContactValid(c, isEmail, isE164) <==> ContactIssues(c, isEmail, isE164, libraryMessage) == []
  {
    var r := RejectedFields(c, isEmail, isE164);
    if r != [] {
      assert r[0] in r;
    }
    if !Filled(c.name) {
      assert "name" in r;
    }
    if c.email.Some? && !isEmail(c.email.value) {
      assert "email" in r;
    }
    if c.phone.Some? && !isE164(c.phone.value) {
      assert "phone" in r;
    }
  }

  /** A contact whose email, phone, address and note are all absent or
      empty is refused. With a name given, its last issue is the
      refinement's, with no path, and the only one without a path; with the
      name missing, the refinement is skipped, every issue has a path and
      the first is the name's. */
  lemma {:induction false} NoChannelRejected(c: ContactFields, isEmail: string -> bool, isE164: string -> bool,
                                             libraryMessage: string -> string)
    requires !HasChannel(c)
    ensures !ContactValid(c, isEmail, isE164)
    ensures var issues := ContactIssues(c, isEmail, isE164, libraryMessage);
      && |issues| > 0
      && (c.name.Some? ==>
            && issues[|issues| - 1] == Issue(None, ChannelMessage)
            && forall i :: 0 <= i < |issues| - 1 ==> issues[i].path.Some?)
      && (c.name.None? ==>
            && issues[0] == Issue(Some("name"), libraryMessage("name"))
            && forall i :: 0 <= i < |issues| ==> issues[i].path.Some? && issues[i].path.value in {"name", "email", "phone"})
  {
    var fields := RejectedFields(c, isEmail, isE164);
    if c.name.None? {
      assert fields[0] == "name";
      assert forall i :: 0 <= i < |fields| ==> fields[i] in fields;
    }
  }

  /** A contact with a name and only a note passes, whatever the email and
      phone formats are. */
  lemma {:induction false} NameAndNoteValid(name: string, note: string, isEmail: string -> bool, isE164: string -> bool)
    requires name != "" && note != ""
    ensures ContactValid(ContactFields(Some(name), None, None, None, Some(note)), isEmail, isE164)
  {
    var c := ContactFields(Some(name), None, None, None, Some(note));
    assert RejectedFields(c, isEmail, isE164) == [];
  }

  /** An empty name is refused even when every channel is given. */
  lemma {:induction false} EmptyNameRejected(c: ContactFields, isEmail: string -> bool, isE164: string -> bool)
    requires c.name.None? || c.name.value == ""
    ensures !ContactValid(c, isEmail, isE164)
  {
    assert "name" in RejectedFields(c, isEmail, isE164);
  }
}
