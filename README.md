# Perpanic site logic in Dafny

This project models the logic of the Perpanic promotional site and proves properties of that model. The site is a React single-page application plus a small contact relay. Markup and styling are not modelled. What is modelled is the decision logic behind them:

- **Contact relay** (`ContactHandler`, `NetlifyContact`, `VercelContact`).
  - The shared handler normalises the submitted form, escapes it for the HTML e-mail and checks the seven required fields. It then decides between mock mode, a missing configuration (500), a sent e-mail (200) and a failed send (502).
  - The two platform adapters map HTTP methods and request bodies onto that handler. Netlify builds response records. Vercel writes into a mutable response object, modelled as the class `ResponseWriter`.
  - Environment variables, the outcome of the e-mail provider's `send` and `JSON.parse` are parameters.
- **Contact form** (`FormSection`, `FormInputs`).
  - The form's configuration: four sections and eleven inputs, seven of them mandatory.
  - The client-side required-field check, the single-field update, and the `idle / submitting / success / error` status machine as the class `ContactForm`.
  - The three input components: id derivation, class-name merging, the dropdown's option list and the textarea's conditional label.
- **Ticker playback** (`WebAnimation`, `MerchSection`, `TickerAnimation`).
  - The Web Animation object is a class with the three things the code writes: `playbackRate`, `currentTime` and the keyframe direction.
  - The merch section sets a clamped rate and, on a change of scroll direction, mirrors the current time and flips the keyframes.
  - The ticker hook sets an unclamped rate. It ramps the rate to 0 before flipping, guarded by a busy flag.
- **Small classifiers and counters.**
  - Breakpoints (`ScreenSize`).
  - Frame interpolation and unit helpers (`TransitionUtils`).
  - The gallery's scroll partitioning (`GallerySection`).
  - The hero links' hover logic (`AppLinks`).
  - The displacement filter's seed counter (`SvgFilter`).
  - The events carousel (`EventsSection`).
- **JavaScript semantics the code relies on** (`JsString`, `JsValue`).
  - `trim` and the `\s` class over the full ECMAScript whitespace set.
  - `replace` with a one-character global pattern, `split`/`join`, ASCII `toLowerCase` and relational string comparison.
  - Truthiness, `??`, `Object.entries`, `String(v)` and `JSON.stringify`.
  - Arithmetic on numbers uses Dafny `real`, with JavaScript's truncating `%` written out as `WebAnimation.JsRem`.

Points where the model follows the code rather than a plain reading of it:

- `vw` divides by 1000, not 100. `getValueForBreakpoint` compares breakpoint names as strings, so its tablet branch is unreachable. Both are proved as the code behaves.
- The gallery effect reads a stale event index. That stale read is a finding (below). `GallerySection.Gallery.ScrollEffect` implements the corrected rule. `GallerySection.ScrollStepAsWritten` keeps the rule as written.
- A controlled `select` whose value matches none of its options shows its first option, as the browser does for a select with no selected option. `FormInputs.SelectedOption` models that, and `FormInputs.FirstMatch` is the plain search.
- The client's check "empty after `trim()`" is written as "all whitespace". `JsString.Trim`'s contract proves the two are equivalent.

## Model

| member | source | states |
|---|---|---|
| ContactHandler.Key | react-app/server/contactHandler.ts:3-15 | every payload key is non-empty and does not start with a digit, so no array index collides with a field name |
| ContactHandler.FieldOfKey | react-app/server/contactHandler.ts:51 | `key in base` for the eleven own property names of `base`: each of them finds its field, every other name finds none. Names inherited from `Object.prototype` are set aside under Left out |
| ContactHandler.KeyInjective | react-app/server/contactHandler.ts:36-48 | distinct fields have distinct keys |
| ContactHandler.FieldValues.With | react-app/server/contactHandler.ts:52-53 | assigning one field sets that field and leaves the other ten unchanged |
| ContactHandler.FieldValuesExt | react-app/server/contactHandler.ts:36-48 | two records agreeing on every field are equal |
| ContactHandler.Sanitize | react-app/server/contactHandler.ts:32-33 | the output has no raw `<` or `>`; a string without `&`, `<` or `>` is returned unchanged |
| ContactHandler.SanitizeChar | react-app/server/contactHandler.ts:32-33 | on one character the three replacements give that character's single escape |
| ContactHandler.SanitizeIsSinglePass | react-app/server/contactHandler.ts:32-33 | because `&` is replaced first, the three chained replacements equal one left-to-right escape of each character, so no escape is re-escaped |
| ContactHandler.SanitizeRoundTrip | react-app/server/contactHandler.ts:32-33 | unescaping the sanitised text gives back the original: no information is lost |
| ContactHandler.UnescapeEscape | react-app/server/contactHandler.ts:32-33 | the per-character escape is inverted by unescaping |
| ContactHandler.SafeMessage | react-app/server/contactHandler.ts:127 | the message shown in the e-mail has no raw newline, and is empty exactly when the message is empty |
| ContactHandler.SafeMessageIsSinglePass | react-app/server/contactHandler.ts:127 | sanitising and then replacing `\n` by `<br/>` is one per-character pass, so the `<br/>` tags are not escaped |
| ContactHandler.BreaksAfterEscape | react-app/server/contactHandler.ts:127 | the per-character escape followed by the newline replacement is that same single pass |
| ContactHandler.Tabulate | react-app/server/contactHandler.ts:36-48 | the record built from a function of the field holds that function's value in each field |
| ContactHandler.Normalise | react-app/server/contactHandler.ts:35-58 | each of the eleven fields is the value of its last property, trimmed if a string and `""` otherwise, and every field is trimmed |
| ContactHandler.NormalisedFieldStep | react-app/server/contactHandler.ts:50-55 | appending a property changes a field only when the property's key is that field's name |
| ContactHandler.NormaliseInput | react-app/server/contactHandler.ts:35-58 | the loop over `Object.entries` that overwrites `base` entry by entry computes `Normalise` of the entries |
| ContactHandler.UnknownKeyIgnored | react-app/server/contactHandler.ts:51 | a property whose key is not a field name does not change the result |
| ContactHandler.LastPropertyDecides | react-app/server/contactHandler.ts:50-55 | appending a property for field `f` sets `f` to the trimmed string, or to `""` for a non-string, and keeps every other field |
| ContactHandler.LastPropertySetsItsField | react-app/server/contactHandler.ts:52-53 | the last property named `f` decides `f` |
| ContactHandler.LastPropertyKeepsOthers | react-app/server/contactHandler.ts:51-53 | a property for `f` leaves every other field as it was |
| ContactHandler.ArrayPayloadIsBlank | react-app/server/contactHandler.ts:50-55 | an array payload, whose entries are keyed by indices, normalises to all-empty fields |
| ContactHandler.NormaliseEmpty | react-app/server/contactHandler.ts:36-48 | with no entries every field is `""` |
| ContactHandler.NormalisedField | react-app/server/contactHandler.ts:50-55 | a normalised field is trimmed; it is `""` when no property names the field or the last property naming it is not a string, and the trimmed string otherwise |
| ContactHandler.Assign | react-app/server/contactHandler.ts:50-55 | a key naming no field changes nothing; a key naming a field sets that field to the trimmed string value or `""` and keeps every other field; a record of trimmed fields stays trimmed |
| ContactHandler.NormaliseStep | react-app/server/contactHandler.ts:50-55 | one loop iteration is one assignment to `base` |
| ContactHandler.NormalisePrefixStep | react-app/server/contactHandler.ts:50-55 | normalising the first `i+1` entries is the assignment of entry `i` on top of the first `i` |
| ContactHandler.FirstEmpty | react-app/server/contactHandler.ts:90-92 | the field found is in the list and empty; none is found exactly when every listed field is non-empty |
| ContactHandler.MissingField | react-app/server/contactHandler.ts:22-30 | a missing field is one of the seven required fields and is empty; none is missing exactly when all seven are non-empty; the list is `REQUIRED_FIELDS` and the test is at lines 90-92 |
| ContactHandler.ShouldMock | react-app/server/contactHandler.ts:86-88 | `CONTACT_DEV_MODE === "true"` always mocks. Otherwise a set API key never mocks, a missing or empty key mocks outside production, and production never mocks |
| ContactHandler.Configured | react-app/server/contactHandler.ts:112-116 | a real send needs the API key, the recipient and the sender all set and non-empty; any one unset or empty fails the test |
| ContactHandler.BuildEmail | react-app/server/contactHandler.ts:125-156 | the message goes from the configured sender to the recipient list of the configured address string, one per comma-separated piece, and replies to the visitor. The subject is `New contact from` and the name. The body is the rows of the template |
| ContactHandler.Recipients | react-app/server/contactHandler.ts:126 | one recipient per comma-separated piece of the address string, each piece trimmed: entry `i` is the trim of the `i`-th piece of the split, so there is one more entry than commas and no entry holds a comma or has whitespace at either end |
| ContactHandler.Label | react-app/server/contactHandler.ts:129-147 | each label is non-empty and starts with a capital letter; `Message` and `Email` are the labels of exactly those fields |
| ContactHandler.LabelsDistinct | react-app/server/contactHandler.ts:129-147 | no two fields share a label |
| ContactHandler.EmailRows | react-app/server/contactHandler.ts:129-147 | one row per field in template order with its label; each of the ten rows before the message holds the sanitised field value, so it is free of `<` and `>`; the message row is `—` exactly when the message is empty, else the safe message |
| ContactHandler.AcceptedPayload | react-app/server/contactHandler.ts:63 | a payload passes the object test exactly when it is an array or a plain object |
| ContactHandler.HandleContact | react-app/server/contactHandler.ts:60-169 | the decision chain in source order. A falsy or non-object payload gives the invalid-body 400, and a missing required field gives the missing-fields 400, each regardless of mock or configuration. With all fields present, mock mode gives exactly 200 `{ok:true, mocked:true}` and sends nothing. Otherwise an unconfigured provider gives exactly the not-configured 500 and sends nothing. An e-mail is sent exactly when not mocking and configured; it is built from the normalised fields, and the send outcome gives 200 `{ok:true}` or the send-failed 502. 200 only with all fields present |
| ContactHandler.WhitespaceOnlyIsMissing | react-app/server/contactHandler.ts:90-99 | a required field sent as only whitespace yields the missing-fields 400 whatever the environment; the trimming is at lines 50-55 |
| NetlifyContact.ParseBody | react-app/netlify/functions/contact.ts:47-49 | a missing or empty body is `{}`; any other body is what `JSON.parse` makes of it |
| NetlifyContact.Handler | react-app/netlify/functions/contact.ts:30-56 | every response carries the four default headers. OPTIONS gives 204 with an empty body. Any method other than OPTIONS and POST gives 405. A body that fails to parse gives the invalid-JSON 400 without calling the handler. Otherwise the handler's status and JSON-encoded body pass through. An e-mail is only sent for a POST answered 200 or 502 |
| NetlifyContact.ErrorBodyText | react-app/netlify/functions/contact.ts:21-28 | an error object stringifies to `{"error":"…"}` with the message unescaped |
| NetlifyContact.CreateResponse | react-app/netlify/functions/contact.ts:21-28 | a response keeps the given status, carries the four default headers with the JSON content type, and has the JSON text of the body |
| NetlifyContact.ErrorResponse | react-app/netlify/functions/contact.ts:14-28 | `createResponse` of an error body is the status, the default headers and that JSON text |
| NetlifyContact.PlainMessages | react-app/netlify/functions/contact.ts:41-51 | the fixed error messages need no JSON escaping |
| NetlifyContact.GetIsRefused | react-app/netlify/functions/contact.ts:41-43 | a GET is answered `405 {"error":"Method not allowed."}` and sends nothing |
| NetlifyContact.EmptyPostIsMissingFields | react-app/netlify/functions/contact.ts:48 | a POST with no body becomes `{}` and is answered with the missing-fields 400 |
| NetlifyContact.NonObjectJsonIsInvalidBody | react-app/netlify/functions/contact.ts:47-55 | JSON that parses to a non-object is answered with the handler's invalid-body 400 |
| VercelContact.ResponseWriter.constructor | react-app/api/contact.ts:8-13 | a fresh response has no headers, status 200 and no body |
| VercelContact.ResponseWriter.SetHeader | react-app/api/contact.ts:12 | appends one header and changes nothing else |
| VercelContact.ResponseWriter.Status | react-app/api/contact.ts:9 | sets the status only |
| VercelContact.ResponseWriter.Json | react-app/api/contact.ts:10 | sets the body to the JSON text of the value only |
| VercelContact.ResponseWriter.Send | react-app/api/contact.ts:11 | sets the body text only |
| VercelContact.SendJson | react-app/api/contact.ts:15-25 | adds Content-Type JSON and the three CORS headers, then sets the given status and the value's JSON text |
| VercelContact.PayloadOf | react-app/api/contact.ts:44-51 | a truthy object body is the payload unparsed; a non-empty string is parsed; only such a string can fail to parse; any other body is `{}` |
| VercelContact.Dispatch | react-app/api/contact.ts:27-60 | OPTIONS gives 204 with an empty body and only the CORS headers. Other non-POST methods give `Allow: POST` and the 405. A parse failure gives the invalid-JSON 400 without calling the handler. Otherwise the handler's status and body with the JSON headers. Only a POST can send |
| VercelContact.Handler | react-app/api/contact.ts:27-60 | the mutations on `res` leave exactly the headers, status and body `Dispatch` describes, added to the headers already there |
| VercelContact.AdaptersAgreeOnStringBodies | react-app/api/contact.ts:44-59 | for a POST with a non-empty string body the Vercel and Netlify adapters give the same status, body text and headers, and send the same e-mail |
| VercelContact.AdaptersAgreeOnEmptyBodies | react-app/api/contact.ts:49-51 | an undefined, null or empty body is treated as `{}` by Vercel exactly as a missing body is by Netlify |
| FormSection.Names | react-app/src/components/Sections/FormSection.tsx:261-299 | the field names of the inputs, one per input in order |
| FormSection.MandatoryNames | react-app/src/components/Sections/FormSection.tsx:56-162 | a field is listed exactly when some input with that name is marked mandatory |
| FormSection.NamesAppend | react-app/src/components/Sections/FormSection.tsx:56-162 | the names of two lists of inputs are the names of each, concatenated |
| FormSection.MandatoryNamesAppend | react-app/src/components/Sections/FormSection.tsx:56-162 | the same for the mandatory names |
| FormSection.AllInputsOfSections | react-app/src/components/Sections/FormSection.tsx:56-162 | the configured inputs are the four sections' inputs in order |
| FormSection.ContactDetailsInputs | react-app/src/components/Sections/FormSection.tsx:59-89 | contact details: full name, e-mail and phone, all mandatory |
| FormSection.CompanyDetailsInputs | react-app/src/components/Sections/FormSection.tsx:90-122 | company details: company, website and reason, only the reason mandatory |
| FormSection.EventDetailsInputs | react-app/src/components/Sections/FormSection.tsx:123-150 | event details: name, date and time, location and audience size, all but the date mandatory |
| FormSection.MessageDetailsInputs | react-app/src/components/Sections/FormSection.tsx:151-160 | the message section: one optional message |
| FormSection.NamesBySection | react-app/src/components/Sections/FormSection.tsx:56-162 | the configuration's names are its sections' names in order |
| FormSection.FieldsBySection | react-app/src/components/Sections/FormSection.tsx:9-21 | the sections' names in order are the eleven form fields |
| FormSection.NamesOfFour | react-app/src/components/Sections/FormSection.tsx:56-162 | the names of four concatenated lists are their names concatenated |
| FormSection.EveryFieldHasOneInput | react-app/src/components/Sections/FormSection.tsx:56-162 | the configuration names every `FormValues` key exactly once, in declaration order; the keys are declared at lines 9-21 |
| FormSection.MandatoryInputsAreRequired | react-app/src/components/Sections/FormSection.tsx:56-162 | the inputs marked mandatory are exactly the client's required list, and that list equals the server's `REQUIRED_FIELDS`; the client's list is at lines 180-188 |
| FormSection.ClientMissingField | react-app/src/components/Sections/FormSection.tsx:216-219 | a field found is required and blank after trimming; none is found exactly when no required field is blank; the list is at lines 180-188 |
| FormSection.FirstBlank | react-app/src/components/Sections/FormSection.tsx:216-219 | `find` over a list of fields: the one found is listed and blank; none exactly when no listed field is blank |
| FormSection.ValuesObject | react-app/src/components/Sections/FormSection.tsx:229-233 | the posted object has one property per field, in declaration order, holding that field's string |
| FormSection.FieldIndex | react-app/src/components/Sections/FormSection.tsx:9-21 | every field has a position in the declaration order |
| FormSection.FieldIndexOf | react-app/src/components/Sections/FormSection.tsx:9-21 | positions and fields correspond one to one |
| FormSection.KeysDistinct | react-app/src/components/Sections/FormSection.tsx:9-21 | the keys of two different positions differ |
| FormSection.PostedKeysUnique | react-app/src/components/Sections/FormSection.tsx:229-233 | no property of the posted object is overridden by a later one of the same name |
| FormSection.NormalisedFieldOfLast | react-app/server/contactHandler.ts:50-55 | a field whose last property is a string normalises to that string trimmed |
| FormSection.ServerReadsPostedValues | react-app/src/components/Sections/FormSection.tsx:229-233 | the server normalises each posted field to the client's value trimmed |
| FormSection.ClientCheckMatchesServer | react-app/src/components/Sections/FormSection.tsx:216-219 | on the same values the client's required-field check passes exactly when the server's missing-field check on the posted object passes (server lines: contactHandler.ts 22-30 and 90-92); the client's list is at lines 180-188 |
| FormSection.ErrorText | react-app/src/components/Sections/FormSection.tsx:235-241 | `body && (body.error ?? body.message)`, or else the fallback: a body that is not JSON, is not truthy or is not an object gives the fallback. A truthy `error` is shown as a string, whatever its type. A `null` or absent `error` yields to a truthy `message`, shown as a string. A falsy `error` that is not `null` or absent gives the fallback, and so do a falsy `error` and `message` |
| FormSection.ServerErrorIsShown | react-app/src/components/Sections/FormSection.tsx:235-241 | an error body of the relay shows its own message in the form |
| FormSection.ContactForm.constructor | react-app/src/components/Sections/FormSection.tsx:164-176 | the form starts with every field empty, status idle and no error; the state is declared at lines 191-193 |
| FormSection.ContactForm.HandleInputChange | react-app/src/components/Sections/FormSection.tsx:195-205 | changes only the named field to the new value; status and error are kept |
| FormSection.ContactForm.Submit | react-app/src/components/Sections/FormSection.tsx:207-233 | while submitting, nothing changes and no request is made. With a blank required field, status error with the fixed message and no request. Otherwise status submitting, the error cleared, and the request body is the JSON of the form values. The values are never changed |
| FormSection.ContactForm.Settle | react-app/src/components/Sections/FormSection.tsx:235-252 | an ok response resets the values and sets success; a failed response sets error with `ErrorText` of its body; a rejected fetch sets error with the rejection's message |
| FormInputs.Slug | react-app/src/components/Form/TextInput.tsx:25 | the slug holds no whitespace, is empty exactly when the label is, and is no longer than it |
| FormInputs.SlugOfSlugLabel | react-app/src/components/Form/TextInput.tsx:25 | a lower-case label without whitespace is its own slug |
| FormInputs.SlugOfWord | react-app/src/components/Form/TextInput.tsx:25 | a label without whitespace is only lower-cased |
| FormInputs.SlugOfRun | react-app/src/components/Form/TextInput.tsx:25 | a whole run of whitespace in the label, however long, becomes one `-`, and the pieces on either side are slugged on their own |
| FormInputs.IdOr | react-app/src/components/Form/TextInput.tsx:22-25 | an explicit id wins, even `""`; else a string name; else the fallback |
| FormInputs.InputId | react-app/src/components/Form/TextInput.tsx:22-25 | without id or string name the id is the label's slug: no whitespace, empty only for an empty label |
| FormInputs.TextareaId | react-app/src/components/Form/LargeTextInput.tsx:27-30 | without id or name the textarea id is never empty: the label slug, or `"message"` for an empty label; with a label it agrees with the text input's id |
| FormInputs.NonEmpty | react-app/src/components/Form/TextInput.tsx:27-33 | `filter(Boolean)`: keeps exactly the non-empty parts, in order, and changes nothing when none is empty |
| FormInputs.MergeClassNames | react-app/src/components/Form/TextInput.tsx:27-33 | a non-empty base starts the merged class, and with no non-empty extra class the merged class is the base alone |
| FormInputs.MergeClassNamesOrder | react-app/src/components/Form/TextInput.tsx:27-33 | the merged class is the base, then the input class, then the class, each only if non-empty, separated by single spaces |
| FormInputs.NonEmptyKeeps | react-app/src/components/Form/DropdownInput.tsx:31-37 | filtering base, input class and class drops exactly the empty or absent ones |
| FormInputs.TextInput | react-app/src/components/Form/TextInput.tsx:12-50 | `aria-required` equals `mandatory`, the value defaults to `""`, the label is the bare label text bound to the derived id |
| FormInputs.TextInputDefaultClass | react-app/src/components/Form/TextInput.tsx:27-33 | without class props the class is the base followed by the default `w-full md:w-[300px]`; the default is at line 15 |
| FormInputs.DropdownOptions | react-app/src/components/Form/DropdownInput.tsx:53-64 | the options are the placeholder, valued `""` and `Select...` by default, followed by the given options in order |
| FormInputs.SelectedOption | react-app/src/components/Form/DropdownInput.tsx:45-64 | the option a controlled select shows: the first option with the value when there is one, the first option of all when there is none, and nothing only for an empty list |
| FormInputs.FirstMatch | react-app/src/components/Form/DropdownInput.tsx:56-63 | the first option whose value is the given one, none when no option has it |
| FormInputs.DropdownShowsAnOption | react-app/src/components/Form/DropdownInput.tsx:45-64 | the dropdown always shows an option: the placeholder for the empty value and for any value no given option has, else the first given option with the value |
| FormInputs.Dropdown | react-app/src/components/Form/DropdownInput.tsx:14-51 | `aria-required` equals `mandatory`; the label is bound to the derived id |
| FormInputs.DropdownStartsOnPlaceholder | react-app/src/components/Form/DropdownInput.tsx:53-55 | with no value given the placeholder is the selected option; the value default is at lines 20-21 |
| FormInputs.LargeTextInput | react-app/src/components/Form/LargeTextInput.tsx:16-56 | `aria-required` equals `mandatory`; the label is rendered exactly when the label text is non-empty; the id falls back to `"message"`; rows default to 6 |
| WebAnimation.Animation.constructor | react-app/src/components/Sections/MerchSection.tsx:23-30 | a new animation runs forward at rate 1 from time 0 with the given duration |
| WebAnimation.Animation.SetKeyframes | react-app/src/hooks/useTickerAnimation.ts:54-60 | replaces the keyframes of the effect only |
| WebAnimation.Trunc | react-app/src/components/Sections/MerchSection.tsx:60 | truncation toward zero: the integer between 0 and `x` less than one away |
| WebAnimation.JsRem | react-app/src/components/Sections/MerchSection.tsx:60 | for a positive divisor the truncating remainder lies in `[0, d)` for a non-negative dividend and is the dividend itself below `d`; for a negative dividend it lies in `(-d, 0]`, keeping the dividend's sign |
| WebAnimation.KeyframesFor | react-app/src/components/Sections/MerchSection.tsx:62-75 | scrolling up selects the reverse keyframes and scrolling down the forward ones |
| WebAnimation.JsRemOfDuration | react-app/src/components/Sections/MerchSection.tsx:60 | a time of exactly one duration has remainder 0 |
| WebAnimation.RawTime | react-app/src/components/Sections/MerchSection.tsx:57 | `Number(currentTime) \|\| 0`: a missing time is 0 |
| WebAnimation.EffectiveDuration | react-app/src/components/Sections/MerchSection.tsx:58 | the effect's duration, or 60000 when there is no effect or the duration is 0; always positive |
| WebAnimation.MirroredTime | react-app/src/components/Sections/MerchSection.tsx:57-77 | for non-negative time the mirrored time `duration - time % duration` lies in `(0, duration]`, and a time at the end of an iteration mirrors to the whole duration |
| WebAnimation.MirrorKeepsPicture | react-app/src/components/Sections/MerchSection.tsx:63-77 | flipping the keyframes at the mirrored time shows the same strip offset, or one half a strip away, which shows the same items |
| WebAnimation.TurnTo | react-app/src/components/Sections/MerchSection.tsx:57-77 | both direction branches select that direction's keyframes and set the time to the mirrored time, keeping the rate |
| MerchSection.ClampedRate | react-app/src/components/Sections/MerchSection.tsx:49-52 | the rate always lies in `[1, 5]`, is `1 + speed/100` in between, 1 at or below speed 0 and 5 at or above 400 |
| MerchSection.Strip | react-app/src/components/Sections/MerchSection.tsx:89-101 | the strip has twice as many cells as items, and each half is the items in order |
| MerchSection.StripRepeatsAtHalf | react-app/src/components/Sections/MerchSection.tsx:91-100 | cell `i` and cell `i + n` both hold item `i` |
| MerchSection.MerchTicker.constructor | react-app/src/components/Sections/MerchSection.tsx:43 | no animation yet, previous direction down; no animation before the mount effect at line 19 |
| MerchSection.MerchTicker.Mount | react-app/src/components/Sections/MerchSection.tsx:19-40 | with the ticker element present, a new forward 60-second animation at rate 1; otherwise none |
| MerchSection.MerchTicker.Update | react-app/src/components/Sections/MerchSection.tsx:46-82 | with no animation nothing changes. Otherwise the rate is the clamped rate and the direction is remembered. Keyframes and time change only on a turn, and then become the new direction's keyframes at the mirrored time |
| MerchSection.TurnKeepsPicture | react-app/src/components/Sections/MerchSection.tsx:55-80 | a turn of the 60-second ticker keeps the visible strip in place |
| TickerAnimation.SpeedMultiplier | react-app/src/hooks/useTickerAnimation.ts:29-31 | 1 at speed 0, at least 1 for non-negative speed and positive divisor, below 1 for negative speed; no clamp |
| TickerAnimation.SpeedMultiplierMonotone | react-app/src/hooks/useTickerAnimation.ts:29-31 | a faster scroll never gives a smaller multiplier |
| TickerAnimation.TickerHook.constructor | react-app/src/hooks/useTickerAnimation.ts:18-25 | lerp 50 and divisor 55 unless given; previous direction down; not busy |
| TickerAnimation.TickerHook.Effect | react-app/src/hooks/useTickerAnimation.ts:33-72 | with no animation or while busy nothing changes. The same direction sets the rate to the multiplier and nothing else. A new direction marks the hook busy and starts a ramp from the current rate; keyframes and time are untouched |
| TickerAnimation.TickerHook.Frame | react-app/src/hooks/useTickerAnimation.ts:39-68 | each frame sets the interpolated rate. When the ramp completes the rate is 0 and the busy flag cleared. With an effect the new direction's keyframes are set at the mirrored time and the direction is remembered. Without one `setKeyframes` throws, so only the flag is cleared |
| TransitionUtils.Progress | react-app/src/utils/transitionUtils.ts:17-18 | `t = min(elapsed/duration, 1)`: at most 1, exactly 1 once the duration has elapsed, non-negative for non-negative elapsed time |
| TransitionUtils.FrameValue | react-app/src/utils/transitionUtils.ts:18-20 | the frame value is `end` once the duration has elapsed, and before that lies the elapsed fraction of the way from `start` to `end` |
| TransitionUtils.FrameValueBounds | react-app/src/utils/transitionUtils.ts:18-21 | with linear easing the value is `start` at time 0 and `end` from the duration on, and stays between the two for non-negative time; the linear default easing is at line 11 |
| TransitionUtils.Animate | react-app/src/utils/transitionUtils.ts:6-32 | the frame loop calls `setValue` with the frame value of each frame; frames continue while `t < 1`; the promise resolves on the first frame with `t >= 1`, after `setValue(end)` |
| TransitionUtils.VwIsATenthOfVh | react-app/src/utils/transitionUtils.ts:34-40 | `vw` divides by 1000 and `vh` by 100, so `vw` is one tenth of `vh` for the same length |
| TransitionUtils.Vw | react-app/src/utils/transitionUtils.ts:34-36 | `vw` counts thousandths of the view width: 1000 is the whole width, 0 is nothing, and values in between stay within the width |
| TransitionUtils.Vh | react-app/src/utils/transitionUtils.ts:38-40 | `vh` counts hundredths of the view height: 100 is the whole height, 0 is nothing, and values in between stay within the height |
| TransitionUtils.GetValueForBreakpoint | react-app/src/utils/transitionUtils.ts:42-47 | under string comparison the result is mobile for a name at or after `"xs"` and desktop for every other name; tablet is never returned |
| TransitionUtils.BreakpointValueByName | react-app/src/utils/transitionUtils.ts:42-47 | of the six breakpoint names only `xs` selects mobile |
| ScreenSize.ThresholdsIncrease | react-app/src/hooks/useScreenSize.ts:16-23 | the thresholds 0, 640, 768, 1024, 1280, 1536 increase with the breakpoint order |
| ScreenSize.Next | react-app/src/hooks/useScreenSize.ts:4-11 | the next breakpoint is one rank up |
| ScreenSize.Category | react-app/src/hooks/useScreenSize.ts:42-48 | the width lies in the band of the category chosen |
| ScreenSize.CategoryIsTheOnlyBand | react-app/src/hooks/useScreenSize.ts:42-48 | a width lies in exactly one band, so classification is total and unique, and depends on width alone |
| ScreenSize.CategoryMonotone | react-app/src/hooks/useScreenSize.ts:38-48 | a larger width never yields an earlier category |
| ScreenSize.IsMobile | react-app/src/hooks/useScreenSize.ts:82 | mobile exactly for the bands below `md` and the first width of `md` |
| ScreenSize.IsTablet | react-app/src/hooks/useScreenSize.ts:83 | tablet exactly for band `md` past its first width, and for the first width of `lg` |
| ScreenSize.IsDesktop | react-app/src/hooks/useScreenSize.ts:84 | desktop exactly for the bands from `lg` up, past the first width of `lg` |
| ScreenSize.ExactlyOneFlag | react-app/src/hooks/useScreenSize.ts:82-84 | exactly one of `isMobile`, `isTablet` and `isDesktop` holds for every width |
| ScreenSize.FlagsAndBandsDisagreeAtBoundaries | react-app/src/hooks/useScreenSize.ts:82-83 | width 768 is category `md` and mobile, and 1024 is `lg` and tablet: the flag bounds are inclusive, the category bounds exclusive; the bands are at lines 44-45 |
| ScreenSize.NextState | react-app/src/hooks/useScreenSize.ts:37-57 | the new state is the new size with its category, and equals the previous state exactly when width, height and category are unchanged |
| ScreenSize.NextStateIdempotent | react-app/src/hooks/useScreenSize.ts:50-56 | applying the update twice is applying it once |
| ScreenSize.ScreenSizeHook.constructor | react-app/src/hooks/useScreenSize.ts:26-30 | the initial state is the window size with no category |
| ScreenSize.ScreenSizeHook.HandleResize | react-app/src/hooks/useScreenSize.ts:37-57 | the state becomes `NextState` of the old one, and a re-render is reported exactly when it changed |
| GallerySection.ClampedScroll | react-app/src/components/Sections/GallerySection.tsx:32-41 | the clamped scroll never exceeds the scrollable distance and is non-negative when that distance is |
| GallerySection.ProgressPercentage | react-app/src/components/Sections/GallerySection.tsx:43 | in `[0, 100]` for a positive distance, 100 at its end, and 0 when the distance is not positive |
| GallerySection.QuotientBelow | react-app/src/components/Sections/GallerySection.tsx:51-57 | the quotient bounds the partition arithmetic relies on |
| GallerySection.EventPartition | react-app/src/components/Sections/GallerySection.tsx:51-52 | with no events the partition is 0; with events and a scroll inside the distance the event partition is a valid event index |
| GallerySection.ImagePartition | react-app/src/components/Sections/GallerySection.tsx:55-57 | with no events the partition is 0; for a scroll that is not negative the image partition within an event lies in `[0, 8)` |
| GallerySection.ScrollableDistance | react-app/src/components/Sections/GallerySection.tsx:39 | the scrollable distance is positive exactly when the section and the viewport together exceed the two 500-pixel margins, and is below their sum |
| GallerySection.Images | react-app/src/components/Sections/GallerySection.tsx:80 | the images of an event index that names an event are that event's images; any other index gives the empty list |
| GallerySection.ScrollStepAsWritten | react-app/src/components/Sections/GallerySection.tsx:63-88 | the effect as written: outside the range nothing changes. Inside it the event becomes the event partition and the ref the image partition. When the image partition differs from the ref (reset to 0 on an event change) and the event read has images, the image index is the partition modulo that event's image count, where the event read is the previous one; otherwise the image index is 0 after an event change and unchanged without one |
| GallerySection.ScrollStep | react-app/src/components/Sections/GallerySection.tsx:63-88 | the corrected effect: outside the range nothing changes. Inside it the event becomes the event partition and the ref the image partition. When the image partition differs from the ref (reset to 0 on an event change) and the event now shown has images, the image index is the partition modulo that event's image count; otherwise the image index is 0 after an event change and unchanged without one |
| GallerySection.AsWrittenAgreesWithinEvent | react-app/src/components/Sections/GallerySection.tsx:63-88 | when the scroll leaves the event unchanged, the effect as written and the corrected one give the same state, so the stale read matters only on an event change |
| GallerySection.ScrollStepKeepsInvariant | react-app/src/components/Sections/GallerySection.tsx:63-88 | the corrected effect keeps the event index valid and the image index within the selected event's images. The event changes only for a scroll strictly inside the distance; it changes to that scroll's event partition, and the image shown is then the image partition modulo the new event's image count |
| GallerySection.ScrollStepSettles | react-app/src/components/Sections/GallerySection.tsx:63-88 | running the corrected effect again on the same scroll changes nothing more; the effect re-runs on its dependencies, line 112 |
| GallerySection.AsWrittenShowsNoImage | react-app/src/components/Sections/GallerySection.tsx:74-88 | the effect as written reaches, and stays at, an image index outside the selected event's images; the corrected effect does not |
| GallerySection.Gallery.constructor | react-app/src/components/Sections/GallerySection.tsx:14-15 | the gallery starts on image 0 of event 0; the partition ref starts at 0, line 25 |
| GallerySection.Gallery.ScrollEffect | react-app/src/components/Sections/GallerySection.tsx:27-112 | without a container or a scroll position nothing changes; otherwise the state is the corrected scroll step, and the invariant is kept |
| AppLinks.LinkIndex | react-app/src/App.tsx:23-26 | the hovered index is -1, 0, 1 or 2 |
| AppLinks.LinkIndexBands | react-app/src/App.tsx:19-26 | 0 above the first boundary, 1 strictly between the boundaries, 2 below the second, and -1 exactly on the two boundaries |
| AppLinks.DistanceToLink | react-app/src/App.tsx:29-37 | 0 when no link is hovered, else the hovered link's distance |
| AppLinks.FirstOpacity | react-app/src/App.tsx:45 | the first pass gives `"0"` or `"1"`, and `"1"` exactly to the hovered link's arrow with the mouse at least 100 away |
| AppLinks.ArrowOpacity | react-app/src/App.tsx:66-70 | the final opacity is `"0"` or `"1"`; `"1"` exactly when the first pass gave it and, for a hovered link, the angle rotates the arrow; arrows of other links keep the first pass |
| AppLinks.VisibleArrow | react-app/src/App.tsx:43-71 | an arrow is shown exactly when it is the hovered link's, the mouse is at least 100 away and the angle rotates it; every other arrow has opacity `"0"` |
| AppLinks.LinkScale | react-app/src/App.tsx:102-104 | the scale always lies in `[2.5, 100]`; at distance 80 it is 100 (the division gives Infinity), below 80 it is 2.5 |
| AppLinks.FilterScale | react-app/src/App.tsx:123-143 | the hovered link's filter has exactly the link scale of the mouse distance and every other link the default scale, so no link is displaced less than the default |
| AppLinks.HeroLinks.constructor | react-app/src/App.tsx:12-13 | nothing hovered, distance 0 |
| AppLinks.HeroLinks.UpdateMouseInteraction | react-app/src/App.tsx:15-77 | sets the hovered index and distance; each arrow's opacity is the rule of `VisibleArrow`; exactly the hovered link is underlined; only the hovered arrow is rotated, when the angle exceeds 100 in size |
| SvgFilter.NextSeed | react-app/src/components/SVGFilter.tsx:36 | the seed counts up by one and wraps to 0 after 1000, staying in `[0, 1000]`; the bound is `MAX_SEED`, line 12 |
| SvgFilter.SeedAfterIsCount | react-app/src/components/SVGFilter.tsx:36 | after `k` ticks from 0 the seed is `k mod 1001`, always in `[0, 1000]`; the seed starts at 0, line 29 |
| SvgFilter.SeedPeriod | react-app/src/components/SVGFilter.tsx:36 | from 0 the seed first returns to 0 after exactly 1001 ticks |
| SvgFilter.Filter.constructor | react-app/src/components/SVGFilter.tsx:28-29 | the seed starts at 0 |
| SvgFilter.Filter.Tick | react-app/src/components/SVGFilter.tsx:35-37 | one interval tick of an animated filter applies the seed step |
| SvgFilter.Filter.RenderedSeed | react-app/src/components/SVGFilter.tsx:72 | the seed drawn lies in `[0, 1000]` and is 0 when the filter is not animated; without `animate` no interval is installed, line 33 |
| EventsSection.NextIndex | react-app/src/components/Sections/EventsSection.tsx:19 | `(index + 1) mod length`: the next index, wrapping to 0 after the last |
| EventsSection.IndexAfterAdd | react-app/src/components/Sections/EventsSection.tsx:19 | `a + b` ticks are `a` ticks then `b` ticks |
| EventsSection.IndexAfterNoWrap | react-app/src/components/Sections/EventsSection.tsx:19 | before the end of the list ticks just count up |
| EventsSection.FullRound | react-app/src/components/Sections/EventsSection.tsx:19 | after as many ticks as there are events the index is back where it started |
| EventsSection.Highlighted | react-app/src/components/Sections/EventsSection.tsx:52-57 | exactly the entry at the current index is highlighted |
| EventsSection.OneHighlighted | react-app/src/components/Sections/EventsSection.tsx:52-57 | one and only one entry is highlighted |
| EventsSection.Carousel.constructor | react-app/src/components/Sections/EventsSection.tsx:12-13 | a non-empty carousel starts at the first event, faded in |
| EventsSection.Carousel.Tick | react-app/src/components/Sections/EventsSection.tsx:16-23 | one tick advances the index modulo the length, keeps it in range and ends faded in |
| JsString.Trim | react-app/server/contactHandler.ts:53 | the result has no whitespace at either end, is empty exactly when the input is all whitespace, and is the input when that is already trimmed |
| JsString.TrimIsInnerSlice | react-app/server/contactHandler.ts:53 | what `trim` removes is whitespace only: the result is a slice of the input with nothing but whitespace before and after it, which together with the ends being trimmed makes it the input without its leading and trailing whitespace |
| JsString.TrimIdempotent | react-app/server/contactHandler.ts:53 | trimming twice is trimming once |
| JsString.ReplaceChar | react-app/server/contactHandler.ts:32-33 | a string without the pattern character is unchanged; the character is gone when the replacement lacks it |
| JsString.ReplaceCharLength | react-app/server/contactHandler.ts:127 | the length grows by `|rep| - 1` for each occurrence |
| JsString.ReplaceCharAppend | react-app/server/contactHandler.ts:32-33 | replacing distributes over concatenation |
| JsString.ReplaceWhitespaceRuns | react-app/src/components/Form/TextInput.tsx:25 | `replace(/\s+/g, rep)` leaves no whitespace when `rep` has none, changes nothing in a string without whitespace, never lengthens for a one-character `rep`, and is empty only for an empty string when `rep` is not |
| JsString.ReplaceWhitespaceRunsAppend | react-app/src/components/Form/TextInput.tsx:25 | a piece ending in a non-whitespace character is replaced independently of what follows it |
| JsString.ReplaceWhitespaceRunsOfRun | react-app/src/components/Form/TextInput.tsx:25 | a maximal run of whitespace, of any length, becomes exactly one copy of `rep` between the replacements of the pieces around it |
| JsString.ReplaceWhitespaceRunsIdempotent | react-app/src/components/Form/TextInput.tsx:25 | slugging the slug again changes nothing |
| JsString.Split | react-app/server/contactHandler.ts:126 | one more piece than separators, none holding the separator, and joining them with it gives the input back |
| JsString.ToLowerChar | react-app/src/components/Form/TextInput.tsx:25 | an upper-case ASCII letter becomes the letter 32 code points higher, every other character is kept, and whitespace stays whitespace |
| JsString.ToLowerAscii | react-app/src/components/Form/TextInput.tsx:25 | lower-cases each ASCII letter in place and keeps whitespace where it was |
| JsString.IntToString | react-app/server/contactHandler.ts:50 | the decimal form is non-empty and all digits exactly for non-negative numbers |
| JsValue.LastValue | react-app/server/contactHandler.ts:50-55 | a property value is found exactly when some property has that name |
| JsValue.LastValueAt | react-app/server/contactHandler.ts:50-55 | the last property with a given name decides its value |
| JsValue.Entries | react-app/server/contactHandler.ts:50 | an array's entries are keyed by its indices written in decimal |
| JsValue.Truthy | react-app/server/contactHandler.ts:63 | a value is falsy exactly when it is `undefined`, `null`, `false`, `0` or the empty string |
| JsValue.ToStr | react-app/src/components/Sections/FormSection.tsx:240 | `String(v)` keeps a string, writes a plain object as `[object Object]` and an empty array as the empty string, and never gives the empty string for `undefined`, `null`, a boolean or a number |
| JsValue.StringifyShape | react-app/netlify/functions/contact.ts:27 | `JSON.stringify` never gives empty text; a string becomes a quoted literal, an array text in brackets, an object text in braces, and `null` the text `null` |
| JsValue.Coalesce | react-app/src/components/Sections/FormSection.tsx:238 | `a ?? b` is `b` exactly when `a` is null or undefined |
| JsValue.EscapeJsonChar | react-app/netlify/functions/contact.ts:27 | `JSON.stringify` escapes exactly the quote, the backslash and the control characters |
| JsValue.EscapePlain | react-app/netlify/functions/contact.ts:27 | a string without those characters is written between the quotes unchanged |
| JsValue.StringifySingleton | react-app/netlify/functions/contact.ts:27 | the JSON text of a one-property string object |

## Left out

- Floating point is modelled with Dafny `real`. Rounding, `NaN` and `Infinity` are not modelled, except for two cases written out explicitly: `calcLinkScale` at distance 80, and the gallery with no events (its partition size is infinite, so it always uses partition 0).
- JSON numbers are integers (`JsValue.Num`). Fractional numbers are not modelled, since no decision reads them.
- AppLinks.HeroLinks.UpdateMouseInteraction: the early return when the links element is not mounted (`if (!links) return;`, react-app/src/App.tsx:17) is not modelled; the model's links always exist, and before the links are mounted the handler does nothing.
- JsValue.Stringify: its shape (quotes, brackets, braces, `null`) is stated in the lemma `JsValue.StringifyShape` rather than as its own postcondition, which keeps the proofs about the handlers that send literal error bodies small.
- `Math.sqrt` and `Math.atan2` in the hover handler are not computed: the distances and the angle are inputs to `AppLinks.HeroLinks.UpdateMouseInteraction`.
- The gallery's `Math.round` progress value is not modelled. It only feeds a state that is written to the console.
- `requestAnimationFrame`, `setInterval`, `setTimeout`, the 100 ms resize debounce and the 4000 ms carousel interval are scheduling. In the model, a tick, a frame or a resize is one method call.
- The carousel interval callback sets the fade to `'out'` and then back to `'in'` in the same callback (react-app/src/components/Sections/EventsSection.tsx:18-20). React batches the two updates, so `'out'` is never a rendered state, and `EventsSection.Carousel.Tick` ends on `In`.
- The e-mail provider client and its network call are reduced to a `sendSucceeds` flag. `BuildEmail` keeps the recipients, sender, reply-to, subject and the label/value rows. The whitespace and markup of the HTML template are not modelled.
- `JSON.parse`, `fetch` and `response.json()` are parameters or outcome values (`Parsed`, `FetchOutcome`).
- `toLowerCase` is modelled on ASCII letters only. Unicode case mapping is not modelled.
- The `?? "—"` fallbacks on the non-message fields of the e-mail are not modelled. Every normalised field is a string, so they never apply (`ContactHandler.Normalise`).
- Console logging is not modelled.
- React's asynchronous state updates are not modelled: a stale `status` captured by an older render, overlapping submits, and the batching of `setState` calls. The model applies each update in source order.
- TransitionUtils.Animate: linear easing only. The easing function is not a parameter, and a zero duration (which would make `t` Infinity or NaN) is excluded by its precondition.
- The `Content-Type` and CORS headers are recorded as an ordered list. Framework behaviour of `res.json` beyond setting the body text is not modelled.
- TickerAnimation.TickerHook.constructor: requires a positive `lerp` and a non-zero `speedDivisor`. A zero divisor gives Infinity or NaN, and a zero `lerp` makes the ramp's progress NaN.
- `anim.cancel()` on unmount and the removal of listeners are not modelled.
- React keys of the duplicated merch strip are not modelled.
- Component properties passed as `null` are treated like absent ones, except `id` and `name`, whose `??` and `typeof` tests are modelled.
- The gallery's `Object.keys` order of its events is taken as the array order. Looking up an event name that is out of range (`undefined`) is not reached under the invariant.
- `crypto.randomUUID` filter ids, the SVG filter primitives, `ArrowButton` markup, the node global declarations and all JSX/Tailwind rendering are not modelled.
- EventsSection.Carousel.constructor: requires a non-empty event list. The section reads `events[eventIndex]`, which fails on an empty list.
- ContactHandler.FieldOfKey: `key in base` also holds for names that `base` inherits from `Object.prototype`, such as `toString`, `constructor` or `__proto__`. Such a key then gives `base` an extra own property (or, for `__proto__`, is ignored). The model treats these names as no field. The eleven fields, and so the status, the body and the e-mail, are the same either way.

## Findings

| source | as written | input that shows it | evidently intended | confidence | as-written member | corrected member |
|---|---|---|---|---|---|---|
| react-app/src/components/Sections/GallerySection.tsx:74-88 | after an event change the effect's second branch takes the image index modulo the image count of the event read through the closure's stale `eventIndex` | events A (3 images) and B (1 image), container `top = -550`, `height = 1600`, viewport 1000, starting on image 0 of event A: the step gives image 2 of event B, which stays put on the re-render, so no image is shown | the image partition modulo the image count of the newly selected event | not executed | GallerySection.AsWrittenShowsNoImage | GallerySection.ScrollStepKeepsInvariant |
