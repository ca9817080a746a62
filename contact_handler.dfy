/** The contact relay's request handler (`server/contactHandler.ts`): the
    payload is normalised to the eleven known fields, checked for the seven
    required ones, and then either answered in mock mode, refused for missing
    configuration, or relayed as an e-mail whose HTML escapes every field.
    The environment and the e-mail provider's answer are parameters. */
module ContactHandler {
  import opened JsString
  import opened JsValue

  /** The keys of `ContactPayload` (the same keys as the form's `FormValues`). */
  datatype Field =
    | FullName | Email | PhoneNumber | Company | Website | Reason
    | EventName | EventDateTime | EventLocation | AudienceSize | Message

  /** The property name of each field. */
  function Key(f: Field): (k: string)
    ensures |k| > 0 && !('0' <= k[0] <= '9')
  {
    match f
    case FullName => "fullName"
    case Email => "email"
    case PhoneNumber => "phoneNumber"
    case Company => "company"
    case Website => "website"
    case Reason => "reason"
    case EventName => "eventName"
    case EventDateTime => "eventDateTime"
    case EventLocation => "eventLocation"
    case AudienceSize => "audienceSize"
    case Message => "message"
  }

  /** The field a property name stands for, if any: the test `key in base`
      restricted to the eleven own properties of `base`. */
  function FieldOfKey(key: string): (r: Option<Field>)
    ensures r.Some? ==> Key(r.value) == key
    ensures forall f: Field :: Key(f) == key ==> r == Some(f)
  {
    if key == "fullName" then Some(FullName)
    else if key == "email" then Some(Email)
    else if key == "phoneNumber" then Some(PhoneNumber)
    else if key == "company" then Some(Company)
    else if key == "website" then Some(Website)
    else if key == "reason" then Some(Reason)
    else if key == "eventName" then Some(EventName)
    else if key == "eventDateTime" then Some(EventDateTime)
    else if key == "eventLocation" then Some(EventLocation)
    else if key == "audienceSize" then Some(AudienceSize)
    else if key == "message" then Some(Message)
    else None
  }

  /** The keys of `base`, in the order `normaliseInput` declares them. */
  const AllFields: seq<Field> :=
    [FullName, Email, PhoneNumber, Company, Website, Reason,
     EventName, EventDateTime, EventLocation, AudienceSize, Message]

  /** `REQUIRED_FIELDS`. */
  const RequiredFields: seq<Field> :=
    [FullName, Email, PhoneNumber, Reason, EventName, EventLocation, AudienceSize]

  /** A string for every field: `Record<keyof ContactPayload, string>`. */
  datatype FieldValues = FieldValues(
    fullName: string, email: string, phoneNumber: string, company: string,
    website: string, reason: string, eventName: string, eventDateTime: string,
    eventLocation: string, audienceSize: string, message: string)
  {
    /** `values[f]`. */
    function Get(f: Field): string
    {
      match f
      case FullName => fullName
      case Email => email
      case PhoneNumber => phoneNumber
      case Company => company
      case Website => website
      case Reason => reason
      case EventName => eventName
      case EventDateTime => eventDateTime
      case EventLocation => eventLocation
      case AudienceSize => audienceSize
      case Message => message
    }

    /** `{ ...values, [f]: v }`: field `f` becomes `v`, every other field is kept. */
    function With(f: Field, v: string): (r: FieldValues)
      ensures r.Get(f) == v
      ensures forall g :: g != f ==> r.Get(g) == Get(g)
    {
      match f
      case FullName => this.(fullName := v)
      case Email => this.(email := v)
      case PhoneNumber => this.(phoneNumber := v)
      case Company => this.(company := v)
      case Website => this.(website := v)
      case Reason => this.(reason := v)
      case EventName => this.(eventName := v)
      case EventDateTime => this.(eventDateTime := v)
      case EventLocation => this.(eventLocation := v)
      case AudienceSize => this.(audienceSize := v)
      case Message => this.(message := v)
    }
  }

  /** Two records that agree on every field are equal. */
  lemma FieldValuesExt(a: FieldValues, b: FieldValues)
    requires forall f :: a.Get(f) == b.Get(f)
    ensures a == b
  {
    assert a.Get(FullName) == b.Get(FullName) && a.Get(Email) == b.Get(Email);
    assert a.Get(PhoneNumber) == b.Get(PhoneNumber) && a.Get(Company) == b.Get(Company);
    assert a.Get(Website) == b.Get(Website) && a.Get(Reason) == b.Get(Reason);
    assert a.Get(EventName) == b.Get(EventName) && a.Get(EventDateTime) == b.Get(EventDateTime);
    assert a.Get(EventLocation) == b.Get(EventLocation) && a.Get(AudienceSize) == b.Get(AudienceSize);
    assert a.Get(Message) == b.Get(Message);
  }

  /** The initial `base`: every field empty. */
  const Blank: FieldValues := FieldValues("", "", "", "", "", "", "", "", "", "", "")

  // ---------------------------------------------------------------------
  // HTML escaping

  /** The escape of one character in the e-mail's HTML. */
  function EscapeHtmlChar(c: char): string
  {
    if c == '&' then "&amp;" else if c == '<' then "&lt;" else if c == '>' then "&gt;" else [c]
  }

  /** A single left-to-right pass escaping every character by itself. */
  function EscapeHtml(s: string): string
  {
    if s == [] then [] else EscapeHtmlChar(s[0]) + EscapeHtml(s[1..])
  }

  /** `sanitize`: three global replacements in a row, `&` first. The result
      holds no raw `<` or `>`, and a string without `&`, `<` and `>` comes
      back unchanged. */
  function Sanitize(s: string): (r: string)
    ensures '<' !in r && '>' !in r
    ensures ('&' !in s && '<' !in s && '>' !in s) ==> r == s
  {
    var amp := ReplaceChar(s, '&', "&amp;");
    var lt := ReplaceChar(amp, '<', "&lt;");
    ReplaceCharKeepsAbsent(lt, '>', "&gt;", '<');
    ReplaceChar(lt, '>', "&gt;")
  }

  /** The three passes applied to a single character. */
  lemma SanitizeChar(c: char)
    ensures Sanitize([c]) == EscapeHtmlChar(c)
  {
    ReplaceSingle(c, '&', "&amp;");
    if c == '&' {
      assert '<' !in "&amp;" && '>' !in "&amp;";
    } else {
      ReplaceSingle(c, '<', "&lt;");
      if c == '<' {
        assert '>' !in "&lt;";
      } else {
        ReplaceSingle(c, '>', "&gt;");
      }
    }
  }

  /** Because `&` is replaced first, the entities the later passes introduce
      are never escaped again: the three passes escape every character of the
      input exactly once. */
  lemma {:induction false} SanitizeIsSinglePass(s: string)
    ensures Sanitize(s) == EscapeHtml(s)
  {
    if s != [] {
      var c, t := s[0], s[1..];
      assert s == [c] + t;
      ReplaceCharAppend([c], t, '&', "&amp;");
      var a1, a2 := ReplaceChar([c], '&', "&amp;"), ReplaceChar(t, '&', "&amp;");
      ReplaceCharAppend(a1, a2, '<', "&lt;");
      var b1, b2 := ReplaceChar(a1, '<', "&lt;"), ReplaceChar(a2, '<', "&lt;");
      ReplaceCharAppend(b1, b2, '>', "&gt;");
      SanitizeIsSinglePass(t);
      SanitizeChar(c);
    }
  }

  /** Reading the HTML entities back. */
  function UnescapeHtml(s: string): string
  {
    if s == [] then []
    else if |s| >= 5 && s[..5] == "&amp;" then "&" + UnescapeHtml(s[5..])
    else if |s| >= 4 && s[..4] == "&lt;" then "<" + UnescapeHtml(s[4..])
    else if |s| >= 4 && s[..4] == "&gt;" then ">" + UnescapeHtml(s[4..])
    else [s[0]] + UnescapeHtml(s[1..])
  }

  /** Nothing is lost by escaping: decoding the entities gives back the input. */
  lemma {:induction false} SanitizeRoundTrip(s: string)
    ensures UnescapeHtml(Sanitize(s)) == s
  {
    SanitizeIsSinglePass(s);
    UnescapeEscape(s);
  }

  lemma {:induction false} UnescapeEscape(s: string)
    ensures UnescapeHtml(EscapeHtml(s)) == s
  {
    if s != [] {
      var c, t := s[0], s[1..];
      var e := EscapeHtml(s);
      UnescapeEscape(t);
      assert e == EscapeHtmlChar(c) + EscapeHtml(t);
      if c == '&' {
        assert e[..5] == "&amp;" && e[5..] == EscapeHtml(t);
      } else if c == '<' {
        assert e[1] == 'l';
        assert e[..4] == "&lt;" && e[4..] == EscapeHtml(t);
      } else if c == '>' {
        assert e[1] == 'g';
        assert e[..4] == "&gt;" && e[4..] == EscapeHtml(t);
      } else {
        assert e[0] == c && e[1..] == EscapeHtml(t);
      }
      assert s == [c] + t;
    }
  }

  /** The escape of one message character: a line break becomes `<br/>`. */
  function MessageChar(c: char): string
  {
    if c == '\n' then "<br/>" else EscapeHtmlChar(c)
  }

  function EscapeMessage(s: string): string
  {
    if s == [] then [] else MessageChar(s[0]) + EscapeMessage(s[1..])
  }

  /** `safeMessage`: the sanitised message with every line break replaced by
      `<br/>`. It holds no line break and is empty only for an empty message. */
  function SafeMessage(message: string): (r: string)
    ensures '\n' !in r
    ensures r == [] <==> message == []
  {
    assert '\n' !in "<br/>";
    ReplaceChar(Sanitize(message), '\n', "<br/>")
  }

  /** The line-break pass after `sanitize` touches only the line breaks of the
      message: each character is escaped once, by `MessageChar`. */
  lemma {:induction false} SafeMessageIsSinglePass(s: string)
    ensures ReplaceChar(Sanitize(s), '\n', "<br/>") == EscapeMessage(s)
  {
    SanitizeIsSinglePass(s);
    BreaksAfterEscape(s);
  }

  lemma {:induction false} BreaksAfterEscape(s: string)
    ensures ReplaceChar(EscapeHtml(s), '\n', "<br/>") == EscapeMessage(s)
  {
    if s != [] {
      var c := s[0];
      ReplaceCharAppend(EscapeHtmlChar(c), EscapeHtml(s[1..]), '\n', "<br/>");
      BreaksAfterEscape(s[1..]);
      if c == '&' || c == '<' || c == '>' {
        assert '\n' !in "&amp;" && '\n' !in "&lt;" && '\n' !in "&gt;";
      } else {
        ReplaceSingle(c, '\n', "<br/>");
      }
    }
  }

  // ---------------------------------------------------------------------
  // normaliseInput

  /** What `normaliseInput` leaves in field `f` after the properties `props`:
      the trimmed value of the last property named after `f` when that value
      is a string, and "" otherwise. */
  function NormalisedField(props: seq<(string, Value)>, f: Field): (r: string)
    ensures Trimmed(r)
    ensures (forall i :: 0 <= i < |props| ==> props[i].0 != Key(f)) ==> r == ""
    ensures LastValue(props, Key(f)).Some? && !LastValue(props, Key(f)).value.Str? ==> r == ""
    ensures LastValue(props, Key(f)).Some? && LastValue(props, Key(f)).value.Str? ==>
              r == Trim(LastValue(props, Key(f)).value.s)
  {
    match LastValue(props, Key(f))
    case Some(Str(s)) => Trim(s)
    case _ => ""
  }

  /** The record holding `g(f)` in every field `f`. */
  function Tabulate(g: Field -> string): (r: FieldValues)
    ensures forall f :: r.Get(f) == g(f)
  {
    FieldValues(g(FullName), g(Email), g(PhoneNumber), g(Company), g(Website), g(Reason),
                g(EventName), g(EventDateTime), g(EventLocation), g(AudienceSize), g(Message))
  }

  /** The record `normaliseInput` returns for the properties `props`: every
      field trimmed. */
  function Normalise(props: seq<(string, Value)>): (r: FieldValues)
    ensures forall f :: r.Get(f) == NormalisedField(props, f)
    ensures forall f :: Trimmed(r.Get(f))
  {
    Tabulate(f => NormalisedField(props, f))
  }

  /** What one more property does to field `f`. */
  lemma NormalisedFieldStep(props: seq<(string, Value)>, key: string, v: Value, f: Field)
    ensures NormalisedField(props + [(key, v)], f)
            == if key == Key(f) then (if v.Str? then Trim(v.s) else "") else NormalisedField(props, f)
  {
    assert (props + [(key, v)])[..|props|] == props;
  }

  /** `normaliseInput`: start from the blank record and, for each own property
      of the payload in order, overwrite the field it names with its trimmed
      string value (or "" for a value that is not a string); properties that
      name no field are skipped. */
  method NormaliseInput(payload: Value) returns (base: FieldValues)
    requires payload.Obj? || payload.Arr?
    ensures base == Normalise(Entries(payload))
  {
    var entries := Entries(payload);
    base := Blank;
    NormaliseEmpty();
    assert entries[..0] == [];
    var i := 0;
    while i < |entries|
      invariant 0 <= i <= |entries|
      invariant base == Normalise(entries[..i])
    {
      var key, value := entries[i].0, entries[i].1;
      var field := FieldOfKey(key);
      if field.Some? {
        base := base.With(field.value, if value.Str? then Trim(value.s) else "");
      }
      NormalisePrefixStep(entries, i);
      i := i + 1;
    }
    assert entries[..|entries|] == entries;
  }

  /** A property whose name is no field leaves the record as it was. */
  lemma UnknownKeyIgnored(props: seq<(string, Value)>, key: string, v: Value)
    requires FieldOfKey(key).None?
    ensures Normalise(props + [(key, v)]) == Normalise(props)
  {
    forall f ensures Normalise(props + [(key, v)]).Get(f) == Normalise(props).Get(f) {
      NormalisedFieldStep(props, key, v, f);
    }
    FieldValuesExt(Normalise(props + [(key, v)]), Normalise(props));
  }

  /** A later property for field `f` decides it: a string is trimmed, any
      other value clears the field; the other fields keep their values. */
  lemma LastPropertyDecides(props: seq<(string, Value)>, f: Field, v: Value)
    ensures Normalise(props + [(Key(f), v)]) == Normalise(props).With(f, if v.Str? then Trim(v.s) else "")
  {
    var w := if v.Str? then Trim(v.s) else "";
    var after, expected := Normalise(props + [(Key(f), v)]), Normalise(props).With(f, w);
    forall g ensures after.Get(g) == expected.Get(g) {
      if g == f {
        LastPropertySetsItsField(props, f, v);
      } else {
        LastPropertyKeepsOthers(props, f, v, g);
      }
    }
    FieldValuesExt(after, expected);
  }

  lemma LastPropertySetsItsField(props: seq<(string, Value)>, f: Field, v: Value)
    ensures Normalise(props + [(Key(f), v)]).Get(f) == if v.Str? then Trim(v.s) else ""
  {
    NormalisedFieldStep(props, Key(f), v, f);
  }

  lemma LastPropertyKeepsOthers(props: seq<(string, Value)>, f: Field, v: Value, g: Field)
    requires g != f
    ensures Normalise(props + [(Key(f), v)]).Get(g) == Normalise(props).Get(g)
  {
    KeyInjective(f, g);
    NormalisedFieldStep(props, Key(f), v, g);
  }

  /** Different fields have different property names. */
  lemma KeyInjective(f: Field, g: Field)
    ensures Key(f) == Key(g) ==> f == g
  {
    assert FieldOfKey(Key(f)) == Some(f);
  }

  /** An array passes the object test, but its property names are indices,
      which name no field: every field stays empty. */
  lemma {:induction false} ArrayPayloadIsBlank(items: seq<Value>)
    ensures Normalise(Entries(Arr(items))) == Blank
  {
    var e := Entries(Arr(items));
    forall f: Field ensures LastValue(e, Key(f)).None? {
      forall i | 0 <= i < |e| ensures e[i].0 != Key(f) {
        if e[i].0 != [] {
          assert '0' <= e[i].0[0] <= '9';
        }
      }
    }
    FieldValuesExt(Normalise(e), Blank);
  }

  /** No property at all: every field empty. */
  lemma NormaliseEmpty()
    ensures Normalise([]) == Blank
  {
    FieldValuesExt(Normalise([]), Blank);
  }

  /** One step of `normaliseInput`: the field `key` names, if any, takes
      the trimmed string `v`, or "" when `v` is not a string. */
  function Assign(base: FieldValues, key: string, v: Value): (r: FieldValues)
    ensures FieldOfKey(key).None? ==> r == base
    ensures FieldOfKey(key).Some? ==>
              r.Get(FieldOfKey(key).value) == (if v.Str? then Trim(v.s) else "") &&
              forall g :: g != FieldOfKey(key).value ==> r.Get(g) == base.Get(g)
    ensures (forall g :: Trimmed(base.Get(g))) ==> forall g :: Trimmed(r.Get(g))
  {
    match FieldOfKey(key)
    case Some(f) => base.With(f, if v.Str? then Trim(v.s) else "")
    case None => base
  }

  /** One property more: the record is the previous one after `Assign`. */
  lemma NormaliseStep(props: seq<(string, Value)>, key: string, v: Value)
    ensures Normalise(props + [(key, v)]) == Assign(Normalise(props), key, v)
  {
    match FieldOfKey(key)
    case Some(f) => LastPropertyDecides(props, f, v);
    case None => UnknownKeyIgnored(props, key, v);
  }

  lemma NormalisePrefixStep(entries: seq<(string, Value)>, i: nat)
    requires i < |entries|
    ensures Normalise(entries[..i + 1]) == Assign(Normalise(entries[..i]), entries[i].0, entries[i].1)
  {
    assert entries[..i + 1] == entries[..i] + [entries[i]];
    NormaliseStep(entries[..i], entries[i].0, entries[i].1);
  }

  // ---------------------------------------------------------------------
  // handleContact

  /** The environment variables the handler reads; `None` is an unset one. */
  datatype Env = Env(
    contactDevMode: Option<string>,
    resendApiKey: Option<string>,
    nodeEnv: Option<string>,
    recipientEmail: Option<string>,
    fromEmail: Option<string>)

  /** `!value` for an environment variable. */
  predicate Unset(v: Option<string>)
  {
    v.None? || v.value == ""
  }

  /** `shouldMock`: the explicit dev-mode switch always mocks; otherwise a
      missing API key mocks everywhere but in production, and a set key never
      does. */
  function ShouldMock(env: Env): (b: bool)
    ensures env.contactDevMode == Some("true") ==> b
    ensures env.contactDevMode != Some("true") && !Unset(env.resendApiKey) ==> !b
    ensures Unset(env.resendApiKey) && env.nodeEnv != Some("production") ==> b
    ensures env.contactDevMode != Some("true") && env.nodeEnv == Some("production") ==> !b
  {
    env.contactDevMode == Some("true") || (Unset(env.resendApiKey) && env.nodeEnv != Some("production"))
  }

  /** The provider settings needed for a real send are all present: an
      unset or empty API key, recipient or sender each fails the test. */
  function Configured(env: Env): (b: bool)
    ensures b ==> env.resendApiKey.Some? && env.recipientEmail.Some? && env.fromEmail.Some?
    ensures b ==> env.resendApiKey.value != "" && env.recipientEmail.value != "" && env.fromEmail.value != ""
    ensures Unset(env.resendApiKey) || Unset(env.recipientEmail) || Unset(env.fromEmail) ==> !b
  {
    !Unset(env.resendApiKey) && !Unset(env.recipientEmail) && !Unset(env.fromEmail)
  }

  /** The first field of `fields` whose value is empty, if any. */
  function FirstEmpty(values: FieldValues, fields: seq<Field>): (r: Option<Field>)
    ensures r.Some? ==> r.value in fields && values.Get(r.value) == ""
    ensures r.None? <==> forall i :: 0 <= i < |fields| ==> values.Get(fields[i]) != ""
  {
    if fields == [] then None
    else if values.Get(fields[0]) == "" then Some(fields[0])
    else FirstEmpty(values, fields[1..])
  }

  /** `missingField`: the first required field left empty. */
  function MissingField(values: FieldValues): (r: Option<Field>)
    ensures r.Some? ==> r.value in RequiredFields && values.Get(r.value) == ""
    ensures r.None? <==> forall f :: f in RequiredFields ==> values.Get(f) != ""
  {
    FirstEmpty(values, RequiredFields)
  }

  /** `to.split(",").map(address => address.trim())`: one trimmed address per
      comma-separated piece, so one more than there are commas. */
  function Recipients(to: string): (r: seq<string>)
    ensures |r| == Count(to, ',') + 1
    ensures forall i :: 0 <= i < |r| ==> Trimmed(r[i]) && ',' !in r[i]
    ensures |r| == |Split(to, ',')|
    ensures forall i :: 0 <= i < |r| ==> r[i] == Trim(Split(to, ',')[i])
  {
    var parts := Split(to, ',');
    seq(|parts|, i requires 0 <= i < |parts| => Trim(parts[i]))
  }

  /** The e-mail the handler passes to the provider. Its HTML is kept as the
      rows of the template, each a label and the text shown after it. */
  datatype OutgoingEmail = OutgoingEmail(
    from: string, to: seq<string>, replyTo: string, subject: string,
    rows: seq<(string, string)>)

  /** The label `emailHtml` writes before each field. */
  function Label(f: Field): (s: string)
    ensures |s| > 0 && 'A' <= s[0] <= 'Z'
    ensures f == Message <==> s == "Message"
    ensures f == Email <==> s == "Email"
  {
    match f
    case FullName => "Name"
    case Email => "Email"
    case PhoneNumber => "Phone Number"
    case Company => "Company/Band"
    case Website => "Website/Social"
    case Reason => "Reason"
    case EventName => "Event Name"
    case EventDateTime => "Event Date & Time"
    case EventLocation => "Event Location"
    case AudienceSize => "Expected Audience Size"
    case Message => "Message"
  }

  /** No two fields share a label, so every row of the e-mail names its field. */
  lemma LabelsDistinct(f: Field, g: Field)
    ensures Label(f) == Label(g) ==> f == g
  {
  }

  /** The rows of `emailHtml`, in the order of the fields: each of the first
      ten shows its field sanitised, and the message row shows the safe
      message, or a dash when the message is empty. */
  function EmailRows(v: FieldValues): (rows: seq<(string, string)>)
    ensures |rows| == |AllFields|
    ensures forall i :: 0 <= i < |rows| ==> rows[i].0 == Label(AllFields[i])
    ensures forall i :: 0 <= i < |rows| - 1 ==> rows[i].1 == Sanitize(v.Get(AllFields[i]))
    ensures forall i :: 0 <= i < |rows| - 1 ==> '<' !in rows[i].1 && '>' !in rows[i].1
    ensures v.message == "" ==> rows[|rows| - 1].1 == "—"
    ensures v.message != "" ==> rows[|rows| - 1].1 == SafeMessage(v.message)
  {
    var safe := SafeMessage(v.message);
    seq(10, i requires 0 <= i < 10 => (Label(AllFields[i]), Sanitize(v.Get(AllFields[i]))))
      + [(Label(Message), if safe == "" then "—" else safe)]
  }

  /** The message handed to the provider: from the configured sender, to
      each configured recipient, replying to the visitor, with a subject
      naming the visitor and the rows of the HTML template. */
  function BuildEmail(v: FieldValues, env: Env): (m: OutgoingEmail)
    requires Configured(env)
    ensures m.from == env.fromEmail.value && m.from != ""
    ensures m.to == Recipients(env.recipientEmail.value) && |m.to| == Count(env.recipientEmail.value, ',') + 1
    ensures m.replyTo == v.email
    ensures m.subject == "New contact from " + v.fullName
    ensures m.rows == EmailRows(v)
  {
    OutgoingEmail(env.fromEmail.value, Recipients(env.recipientEmail.value), v.email,
                  "New contact from " + v.fullName, EmailRows(v))
  }

  /** The status and JSON body of a handled request. */
  datatype ContactResult = ContactResult(status: int, body: Value)

  /** A handled request: its result and the e-mail handed to the provider, if
      a send was attempted. */
  datatype Handled = Handled(result: ContactResult, sent: Option<OutgoingEmail>)

  function ErrorBody(message: string): Value
  {
    Obj([("error", Str(message))])
  }

  const InvalidBodyMessage := "Invalid request body."
  const MissingFieldsMessage := "Missing required fields."
  const NotConfiguredMessage := "Email provider is not configured correctly."
  const SendFailedMessage := "Unable to send email. Please try again later."

  /** The object test at the top of `handleContact`: a truthy value whose
      `typeof` is "object", i.e. an array or a plain object. */
  function AcceptedPayload(payload: Value): (b: bool)
    ensures b <==> payload.Arr? || payload.Obj?
  {
    Truthy(payload) && IsObjectType(payload)
  }

  /** `handleContact`. `sendSucceeds` is whether the provider's `send`
      resolves (true) or throws (false). */
  function HandleContact(payload: Value, env: Env, sendSucceeds: bool): (h: Handled)
    ensures AcceptedPayload(payload) <==> (payload.Obj? || payload.Arr?)
    ensures !AcceptedPayload(payload) ==>
              h == Handled(ContactResult(400, ErrorBody(InvalidBodyMessage)), None)
    ensures AcceptedPayload(payload) && MissingField(Normalise(Entries(payload))).Some? ==>
              h == Handled(ContactResult(400, ErrorBody(MissingFieldsMessage)), None)
    ensures h.result.status == 200 ==>
              AcceptedPayload(payload) && MissingField(Normalise(Entries(payload))).None?
    ensures h.result.body == Obj([("ok", Bool(true)), ("mocked", Bool(true))]) <==>
              AcceptedPayload(payload) && MissingField(Normalise(Entries(payload))).None? && ShouldMock(env)
    ensures h.sent.Some? <==>
              AcceptedPayload(payload) && MissingField(Normalise(Entries(payload))).None? &&
              !ShouldMock(env) && Configured(env)
    ensures h.sent.Some? ==> h.sent.value == BuildEmail(Normalise(Entries(payload)), env)
    ensures AcceptedPayload(payload) && MissingField(Normalise(Entries(payload))).None? && ShouldMock(env) ==>
              h == Handled(ContactResult(200, Obj([("ok", Bool(true)), ("mocked", Bool(true))])), None)
    ensures h.result.status == 500 <==>
              AcceptedPayload(payload) && MissingField(Normalise(Entries(payload))).None? &&
              !ShouldMock(env) && !Configured(env)
    ensures AcceptedPayload(payload) && MissingField(Normalise(Entries(payload))).None? &&
            !ShouldMock(env) && !Configured(env) ==>
              h == Handled(ContactResult(500, ErrorBody(NotConfiguredMessage)), None)
    ensures h.sent.Some? ==>
              h.result == (if sendSucceeds then ContactResult(200, Obj([("ok", Bool(true))]))
                           else ContactResult(502, ErrorBody(SendFailedMessage)))
  {
    if !AcceptedPayload(payload) then
      Handled(ContactResult(400, ErrorBody(InvalidBodyMessage)), None)
    else
      var normalised := Normalise(Entries(payload));
      if MissingField(normalised).Some? then
        Handled(ContactResult(400, ErrorBody(MissingFieldsMessage)), None)
      else if ShouldMock(env) then
        Handled(ContactResult(200, Obj([("ok", Bool(true)), ("mocked", Bool(true))])), None)
      else if !Configured(env) then
        Handled(ContactResult(500, ErrorBody(NotConfiguredMessage)), None)
      else
        var email := BuildEmail(normalised, env);
        if sendSucceeds then Handled(ContactResult(200, Obj([("ok", Bool(true))])), Some(email))
        else Handled(ContactResult(502, ErrorBody(SendFailedMessage)), Some(email))
  }

  /** A field holding only whitespace counts as missing: the result is the
      missing-fields 400 whatever the mock or provider settings. */
  lemma WhitespaceOnlyIsMissing(props: seq<(string, Value)>, f: Field, s: string, env: Env, sendSucceeds: bool)
    requires f in RequiredFields && AllWhitespace(s)
    ensures HandleContact(Obj(props + [(Key(f), Str(s))]), env, sendSucceeds).result
            == ContactResult(400, ErrorBody(MissingFieldsMessage))
  {
    var payload := Obj(props + [(Key(f), Str(s))]);
    LastPropertyDecides(props, f, Str(s));
    var values := Normalise(Entries(payload));
    assert values.Get(f) == "";
    assert MissingField(values).Some?;
  }
}
