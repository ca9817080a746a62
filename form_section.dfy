/** The contact form (`src/components/Sections/FormSection.tsx`): its
    configuration, the values typed into it, and the submission state
    machine that checks the required fields, posts the values as JSON and
    reads back the outcome. The network call is split into `Submit`, which
    yields the request body, and `Settle`, which receives what came back. */
module FormSection {
  import opened JsString
  import opened JsValue
  import opened ContactHandler

  // ---------------------------------------------------------------------
  // formConfig

  datatype InputKind = TextKind | DropdownKind | TextAreaKind

  /** The props an entry of `formConfig` passes to its input; `None` is a
      prop it leaves to the input's default. */
  datatype InputProps = InputProps(
    labelText: string,
    mandatory: bool,
    inputClassName: Option<string>,
    inputType: Option<string>,
    autoComplete: Option<string>,
    options: seq<(string, string)>,
    rows: Option<nat>)

  datatype InputConfig = InputConfig(kind: InputKind, name: Field, props: InputProps)

  datatype SectionConfig = SectionConfig(title: string, inputs: seq<InputConfig>)

  function Props(labelText: string, mandatory: bool): InputProps
  {
    InputProps(labelText, mandatory, None, None, None, [], None)
  }

  const FormTitle := "Contact us"

  const ContactDetails := SectionConfig("Contact Details", [
    InputConfig(TextKind, FullName, Props("Full Name", true)),
    InputConfig(TextKind, Email, Props("Email", true).(inputClassName := Some("w-full md:w-[400px]"),
                                                        inputType := Some("email"), autoComplete := Some("email"))),
    InputConfig(TextKind, PhoneNumber, Props("Phone Number", true).(inputType := Some("tel"), autoComplete := Some("tel")))])

  const CompanyDetails := SectionConfig("Company/Band Details", [
    InputConfig(TextKind, Company, Props("Company/Band Name", false)),
    InputConfig(TextKind, Website, Props("Website or Social Media Link", false).(
                                     inputClassName := Some("w-full md:w-[400px]"), autoComplete := Some("url"))),
    InputConfig(DropdownKind, Reason, Props("Reason for Contact", true).(options := [
      ("booking", "Booking"), ("collaboration", "Collaboration"),
      ("inquiry", "General Inquiry"), ("other", "Other")]))])

  const EventDetails := SectionConfig("Event Details", [
    InputConfig(TextKind, EventName, Props("Event Name", true)),
    InputConfig(TextKind, EventDateTime, Props("Event Date & Time", false).(inputType := Some("datetime-local"))),
    InputConfig(TextKind, EventLocation, Props("Event Location", true)),
    InputConfig(TextKind, AudienceSize, Props("Expected Audience Size", true))])

  const MessageDetails := SectionConfig("Message", [
    InputConfig(TextAreaKind, Message, Props("", false).(rows := Some(8)))])

  /** The sections of `formConfig`, in order. */
  const Sections: seq<SectionConfig> := [ContactDetails, CompanyDetails, EventDetails, MessageDetails]

  /** The inputs of all sections, in the order they render. */
  function AllInputs(sections: seq<SectionConfig>): seq<InputConfig>
  {
    if sections == [] then [] else sections[0].inputs + AllInputs(sections[1..])
  }

  function Names(inputs: seq<InputConfig>): (names: seq<Field>)
    ensures |names| == |inputs|
    ensures forall i :: 0 <= i < |inputs| ==> names[i] == inputs[i].name
  {
    if inputs == [] then [] else [inputs[0].name] + Names(inputs[1..])
  }

  /** The names of the inputs marked mandatory, in order. */
  function MandatoryNames(inputs: seq<InputConfig>): (names: seq<Field>)
    ensures forall f :: f in names <==> exists i :: 0 <= i < |inputs| && inputs[i].props.mandatory && inputs[i].name == f
  {
    if inputs == [] then []
    else
      var rest := MandatoryNames(inputs[1..]);
      assert forall i :: 1 <= i < |inputs| ==> inputs[1..][i - 1] == inputs[i];
      if inputs[0].props.mandatory then [inputs[0].name] + rest else rest
  }

  /** `requiredFields`. */
  const ClientRequiredFields: seq<Field> :=
    [FullName, Email, PhoneNumber, Reason, EventName, EventLocation, AudienceSize]

  lemma {:induction false} NamesAppend(a: seq<InputConfig>, b: seq<InputConfig>)
    ensures Names(a + b) == Names(a) + Names(b)
  {
  }

  lemma {:induction false} MandatoryNamesAppend(a: seq<InputConfig>, b: seq<InputConfig>)
    ensures MandatoryNames(a + b) == MandatoryNames(a) + MandatoryNames(b)
  {
    if a != [] {
      assert (a + b)[1..] == a[1..] + b;
      MandatoryNamesAppend(a[1..], b);
    } else {
      assert a + b == b;
    }
  }

  /** The four sections' inputs, one after the other. */
  lemma AllInputsOfSections()
    ensures AllInputs(Sections) == ContactDetails.inputs + CompanyDetails.inputs + EventDetails.inputs + MessageDetails.inputs
  {
    var t1, t2, t3 := Sections[1..], Sections[2..], Sections[3..];
    assert t3 == [MessageDetails] && t3[1..] == [];
    assert AllInputs(t3) == MessageDetails.inputs;
    assert t2 == [EventDetails, MessageDetails] && t2[1..] == t3;
    assert AllInputs(t2) == EventDetails.inputs + MessageDetails.inputs;
    assert t1 == [CompanyDetails, EventDetails, MessageDetails] && t1[1..] == t2;
    assert AllInputs(t1) == CompanyDetails.inputs + (EventDetails.inputs + MessageDetails.inputs);
  }

  lemma ContactDetailsInputs()
    ensures Names(ContactDetails.inputs) == [FullName, Email, PhoneNumber]
    ensures MandatoryNames(ContactDetails.inputs) == [FullName, Email, PhoneNumber]
  {
    var s := ContactDetails.inputs;
    assert MandatoryNames(s[2..]) == [PhoneNumber];
  }

  lemma CompanyDetailsInputs()
    ensures Names(CompanyDetails.inputs) == [Company, Website, Reason]
    ensures MandatoryNames(CompanyDetails.inputs) == [Reason]
  {
    var s := CompanyDetails.inputs;
    assert MandatoryNames(s[2..]) == [Reason];
    assert MandatoryNames(s[1..]) == [Reason];
  }

  lemma EventDetailsInputs()
    ensures Names(EventDetails.inputs) == [EventName, EventDateTime, EventLocation, AudienceSize]
    ensures MandatoryNames(EventDetails.inputs) == [EventName, EventLocation, AudienceSize]
  {
    var s := EventDetails.inputs;
    assert MandatoryNames(s[3..]) == [AudienceSize];
    assert MandatoryNames(s[2..]) == [EventLocation, AudienceSize];
  }

  lemma MessageDetailsInputs()
    ensures Names(MessageDetails.inputs) == [Message]
    ensures MandatoryNames(MessageDetails.inputs) == []
  {
  }

  /** The form renders one input per field of the payload, in the payload's
      order, so every field can be filled in and none twice. */
  lemma EveryFieldHasOneInput()
    ensures Names(AllInputs(Sections)) == AllFields
  {
    NamesBySection();
    ContactDetailsInputs();
    CompanyDetailsInputs();
    EventDetailsInputs();
    MessageDetailsInputs();
    FieldsBySection();
  }

  lemma NamesBySection()
    ensures Names(AllInputs(Sections)) ==
            Names(ContactDetails.inputs) + Names(CompanyDetails.inputs) +
            Names(EventDetails.inputs) + Names(MessageDetails.inputs)
  {
    AllInputsOfSections();
    NamesOfFour(ContactDetails.inputs, CompanyDetails.inputs, EventDetails.inputs, MessageDetails.inputs);
  }

  lemma FieldsBySection()
    ensures [FullName, Email, PhoneNumber] + [Company, Website, Reason] +
            [EventName, EventDateTime, EventLocation, AudienceSize] + [Message] == AllFields
  {
  }

  lemma NamesOfFour(a: seq<InputConfig>, b: seq<InputConfig>, c: seq<InputConfig>, d: seq<InputConfig>)
    ensures Names(a + b + c + d) == Names(a) + Names(b) + Names(c) + Names(d)
  {
    NamesAppend(a + b + c, d);
    NamesAppend(a + b, c);
    NamesAppend(a, b);
  }

  /** The inputs marked mandatory are exactly the fields the form requires,
      in the same order, and those are exactly the fields the server
      requires. */
  lemma MandatoryInputsAreRequired()
    ensures MandatoryNames(AllInputs(Sections)) == ClientRequiredFields
    ensures ClientRequiredFields == RequiredFields
  {
    AllInputsOfSections();
    var s0, s1, s2, s3 := ContactDetails.inputs, CompanyDetails.inputs, EventDetails.inputs, MessageDetails.inputs;
    MandatoryNamesAppend(s0 + s1 + s2, s3);
    MandatoryNamesAppend(s0 + s1, s2);
    MandatoryNamesAppend(s0, s1);
    ContactDetailsInputs();
    CompanyDetailsInputs();
    EventDetailsInputs();
    MessageDetailsInputs();
  }

  // ---------------------------------------------------------------------
  // The submission state machine

  /** `SubmissionStatus`. */
  datatype Status = Idle | Submitting | Success | Failed

  const IncompleteMessage := "Please fill in all required fields before submitting."
  const FallbackMessage := "Something went wrong. Please try again later."

  /** The first required field that is empty after trimming, as the submit
      handler looks for it. A value trims to nothing exactly when it is all
      whitespace (the contract of `Trim`), so the test is written that way. */
  function ClientMissingField(values: FieldValues): (r: Option<Field>)
    ensures r.Some? ==> r.value in ClientRequiredFields && AllWhitespace(values.Get(r.value))
    ensures r.None? <==> forall f :: f in ClientRequiredFields ==> !AllWhitespace(values.Get(f))
  {
    FirstBlank(values, ClientRequiredFields)
  }

  function FirstBlank(values: FieldValues, fields: seq<Field>): (r: Option<Field>)
    ensures r.Some? ==> r.value in fields && AllWhitespace(values.Get(r.value))
    ensures r.None? <==> forall i :: 0 <= i < |fields| ==> !AllWhitespace(values.Get(fields[i]))
  {
    if fields == [] then None
    else if AllWhitespace(values.Get(fields[0])) then Some(fields[0])
    else FirstBlank(values, fields[1..])
  }

  /** The form values as the JSON object `JSON.stringify(formValues)` writes:
      one string property per field, in the declared order. */
  function ValuesObject(values: FieldValues): (v: Value)
    ensures v.Obj? && |v.props| == |AllFields|
    ensures forall i :: 0 <= i < |AllFields| ==> v.props[i] == (Key(AllFields[i]), Str(values.Get(AllFields[i])))
  {
    Obj(seq(|AllFields|, i requires 0 <= i < |AllFields| => (Key(AllFields[i]), Str(values.Get(AllFields[i])))))
  }

  /** Where each field sits in `AllFields`. */
  function FieldIndex(f: Field): (i: nat)
    ensures i < |AllFields| && AllFields[i] == f
  {
    match f
    case FullName => 0
    case Email => 1
    case PhoneNumber => 2
    case Company => 3
    case Website => 4
    case Reason => 5
    case EventName => 6
    case EventDateTime => 7
    case EventLocation => 8
    case AudienceSize => 9
    case Message => 10
  }

  /** `FieldIndex` numbers the fields in the order of `AllFields`. */
  lemma FieldIndexOf(i: nat)
    requires i < |AllFields|
    ensures FieldIndex(AllFields[i]) == i
  {
  }

  /** Different positions of `AllFields` hold different property names. */
  lemma KeysDistinct(i: nat, j: nat)
    requires i < |AllFields| && j < |AllFields| && i != j
    ensures Key(AllFields[i]) != Key(AllFields[j])
  {
    FieldIndexOf(i);
    FieldIndexOf(j);
    KeyInjective(AllFields[i], AllFields[j]);
  }

  /** The server reads back each field of the posted object trimmed. */
  lemma ServerReadsPostedValues(values: FieldValues, f: Field)
    ensures NormalisedField(ValuesObject(values).props, f) == Trim(values.Get(f))
  {
    var props := ValuesObject(values).props;
    var j := FieldIndex(f);
    PostedKeysUnique(values, j);
    LastValueAt(props, j);
    assert props[j] == (Key(f), Str(values.Get(f)));
    NormalisedFieldOfLast(props, f, values.Get(f));
  }

  lemma NormalisedFieldOfLast(props: seq<(string, Value)>, f: Field, s: string)
    requires LastValue(props, Key(f)) == Some(Str(s))
    ensures NormalisedField(props, f) == Trim(s)
  {
  }

  /** No later property of the posted object repeats the name at `j`. */
  lemma PostedKeysUnique(values: FieldValues, j: nat)
    requires j < |AllFields|
    ensures var props := ValuesObject(values).props;
            forall i :: j < i < |props| ==> props[i].0 != props[j].0
  {
    var props := ValuesObject(values).props;
    forall i | j < i < |props| ensures props[i].0 != props[j].0 {
      KeysDistinct(i, j);
    }
  }

  /** The form's check and the server's check agree: the values the form
      lets through are never refused by the server for a missing field, and
      values the form refuses would be refused by the server too. */
  lemma {:induction false} ClientCheckMatchesServer(values: FieldValues)
    ensures ClientMissingField(values).None? <==>
            MissingField(Normalise(Entries(ValuesObject(values)))).None?
  {
    var server := Normalise(Entries(ValuesObject(values)));
    forall f ensures server.Get(f) == Trim(values.Get(f)) {
      ServerReadsPostedValues(values, f);
    }
    MandatoryInputsAreRequired();
  }

  /** The message the failed-response branch throws: `body.error`, or
      `body.message` when `error` is `null` or absent, turned into a string;
      the fallback text when the body is not JSON, not truthy, or the chosen
      property is falsy. */
  function ErrorText(body: Parsed): (r: string)
    ensures body.ParseError? ==> r == FallbackMessage
    ensures body.Parsed? && !Truthy(body.value) ==> r == FallbackMessage
    ensures body.Parsed? && Property(body.value, "error").Str? && body.value.Obj? ==>
              r == (if Property(body.value, "error").s == "" then FallbackMessage else Property(body.value, "error").s)
    ensures body.Parsed? && body.value.Obj? &&
            (Property(body.value, "error").Undefined? || Property(body.value, "error").Null?) &&
            Property(body.value, "message").Str? && Property(body.value, "message").s != "" ==>
              r == Property(body.value, "message").s
    ensures body.Parsed? && !body.value.Obj? ==> r == FallbackMessage
    ensures body.Parsed? && body.value.Obj? && Truthy(Property(body.value, "error")) ==>
              r == ToStr(Property(body.value, "error"))
    ensures body.Parsed? && body.value.Obj? &&
            (Property(body.value, "error").Undefined? || Property(body.value, "error").Null?) &&
            Truthy(Property(body.value, "message")) ==>
              r == ToStr(Property(body.value, "message"))
    ensures body.Parsed? && body.value.Obj? && !Truthy(Property(body.value, "error")) &&
            !Property(body.value, "error").Undefined? && !Property(body.value, "error").Null? ==>
              r == FallbackMessage
    ensures body.Parsed? && body.value.Obj? &&
            !Truthy(Property(body.value, "error")) && !Truthy(Property(body.value, "message")) ==>
              r == FallbackMessage
  {
    var v := if body.Parsed? then body.value else Null;
    var chosen := if Truthy(v) then Coalesce(Property(v, "error"), Property(v, "message")) else v;
    if Truthy(chosen) then ToStr(chosen) else FallbackMessage
  }

  /** An error response of the contact relay shows its own message in the form. */
  lemma ServerErrorIsShown(message: string)
    requires message != ""
    ensures ErrorText(Parsed(ErrorBody(message))) == message
  {
  }

  /** What the browser's `fetch` gave: a rejection with its error's message,
      or a response with its `ok` flag and the outcome of `response.json()`. */
  datatype FetchOutcome = Rejected(message: string) | Responded(ok: bool, json: Parsed)

  /** The form's state: the values, the submission status and the error shown. */
  class ContactForm {
    var values: FieldValues
    var status: Status
    var errorMessage: Option<string>

    /** The initial state: every field empty, idle, no error. */
    constructor ()
      ensures values == Blank && status == Idle && errorMessage.None?
    {
      values := Blank;
      status := Idle;
      errorMessage := None;
    }

    /** `handleInputChange(field)` for a change to `value`: that field takes
        the value, nothing else changes. */
    method HandleInputChange(field: Field, value: string)
      modifies this
      ensures values == old(values).With(field, value)
      ensures status == old(status) && errorMessage == old(errorMessage)
    {
      values := values.With(field, value);
    }

    /** The synchronous part of `handleSubmit`. While a submission is
        running nothing happens. Otherwise the error is cleared and, when a
        required field is blank, the form fails with the incomplete-form
        message without a request; when all are filled it stays submitting
        and returns the JSON body to post. The values are never changed. */
    method Submit() returns (request: Option<string>)
      modifies this
      ensures values == old(values)
      ensures old(status) == Submitting ==>
                status == Submitting && errorMessage == old(errorMessage) && request.None?
      ensures old(status) != Submitting && ClientMissingField(values).Some? ==>
                status == Failed && errorMessage == Some(IncompleteMessage) && request.None?
      ensures old(status) != Submitting && ClientMissingField(values).None? ==>
                status == Submitting && errorMessage.None? &&
                request == Some(Stringify(ValuesObject(values)))
    {
      if status == Submitting {
        return None;
      }
      var missing := ClientMissingField(values);
      if missing.Some? {
        status, errorMessage, request := Failed, Some(IncompleteMessage), None;
      } else {
        var body := Stringify(ValuesObject(values));
        status, errorMessage, request := Submitting, None, Some(body);
      }
    }

    /** The part of `handleSubmit` after the request: a successful response
        resets the values and reports success; a failed one reports the
        message `ErrorText` reads from its body; a rejected request reports
        the rejection's message. */
    method Settle(outcome: FetchOutcome)
      modifies this
      ensures outcome.Responded? && outcome.ok ==>
                values == Blank && status == Success && errorMessage == old(errorMessage)
      ensures outcome.Responded? && !outcome.ok ==>
                values == old(values) && status == Failed && errorMessage == Some(ErrorText(outcome.json))
      ensures outcome.Rejected? ==>
                values == old(values) && status == Failed && errorMessage == Some(outcome.message)
    {
      match outcome
      case Responded(ok, json) =>
        if ok {
          values := Blank;
          status := Success;
        } else {
          status := Failed;
          errorMessage := Some(ErrorText(json));
        }
      case Rejected(message) =>
        status := Failed;
        errorMessage := Some(message);
    }
  }
}
