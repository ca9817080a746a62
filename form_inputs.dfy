/** The three form inputs, `TextInput`, `DropdownInput` and
    `LargeTextInput`: how each derives its element id, merges its class
    names, fills in its defaults and builds its options and label. */
module FormInputs {
  import opened JsString
  import opened JsValue

  /** `label.toLowerCase().replace(/\s+/g, "-")`. The slug holds no
      whitespace, is empty only for an empty label, and is the label itself
      for a label of lower-case characters without whitespace. */
  function Slug(labelText: string): (r: string)
    ensures NoWhitespace(r)
    ensures r == [] <==> labelText == []
    ensures |r| <= |labelText|
  {
    ReplaceWhitespaceRuns(ToLowerAscii(labelText), "-")
  }

  /** A label without whitespace is only lower-cased. */
  lemma SlugOfWord(labelText: string)
    requires NoWhitespace(labelText)
    ensures Slug(labelText) == ToLowerAscii(labelText)
  {
  }

  /** A run of whitespace in the label, however long, becomes a single `-`
      in the slug, and the pieces on either side are slugged on their own. */
  lemma {:induction false} SlugOfRun(a: string, w: string, b: string)
    requires w != [] && AllWhitespace(w)
    requires a == [] || !IsWhitespace(a[|a| - 1])
    requires b == [] || !IsWhitespace(b[0])
    ensures Slug(a + w + b) == Slug(a) + "-" + Slug(b)
  {
    ToLowerAsciiAppend(a, w);
    ToLowerAsciiAppend(a + w, b);
    var la, lw, lb := ToLowerAscii(a), ToLowerAscii(w), ToLowerAscii(b);
    assert AllWhitespace(lw);
    assert la == [] || la[|la| - 1] == ToLowerChar(a[|a| - 1]);
    assert lb == [] || lb[0] == ToLowerChar(b[0]);
    ReplaceWhitespaceRunsOfRun(la, lw, lb, "-");
  }

  /** A label that is already a slug is its own slug. */
  lemma SlugOfSlugLabel(labelText: string)
    requires NoWhitespace(labelText)
    requires forall i :: 0 <= i < |labelText| ==> !('A' <= labelText[i] <= 'Z')
    ensures Slug(labelText) == labelText
  {
    assert ToLowerAscii(labelText) == labelText;
  }

  /** `id ?? (typeof name === "string" ? name : undefined) ?? fallback`: the
      explicit id, even an empty one, then a string name, then the fallback. */
  function IdOr(id: Option<string>, name: Value, fallback: string): (r: string)
    ensures id.Some? ==> r == id.value
    ensures id.None? && name.Str? ==> r == name.s
    ensures id.None? && !name.Str? ==> r == fallback
  {
    if id.Some? then id.value else if name.Str? then name.s else fallback
  }

  /** The id of a text input or dropdown: the fallback is the label's slug. */
  function InputId(id: Option<string>, name: Value, labelText: string): (r: string)
    ensures id.None? && !name.Str? ==> NoWhitespace(r) && (r == [] <==> labelText == [])
  {
    IdOr(id, name, Slug(labelText))
  }

  /** The id of a large text input: the slug of a non-empty label, and
      `"message"` for an empty one, so a derived id is never empty. */
  function TextareaId(id: Option<string>, name: Value, labelText: string): (r: string)
    ensures id.None? && !name.Str? ==> r != [] && NoWhitespace(r)
    ensures id.None? && !name.Str? && labelText == [] ==> r == "message"
    ensures labelText != [] ==> r == InputId(id, name, labelText)
  {
    IdOr(id, name, if labelText != [] then Slug(labelText) else "message")
  }

  /** `parts.filter(Boolean)` on strings: the non-empty ones, in order. */
  function NonEmpty(parts: seq<string>): (r: seq<string>)
    ensures |r| <= |parts|
    ensures forall i :: 0 <= i < |r| ==> r[i] != []
    ensures forall p :: p in r <==> p in parts && p != []
    ensures (forall i :: 0 <= i < |parts| ==> parts[i] != []) ==> r == parts
  {
    if parts == [] then []
    else if parts[0] == [] then NonEmpty(parts[1..])
    else [parts[0]] + NonEmpty(parts[1..])
  }

  /** Filtering a list of empty strings leaves nothing. */
  lemma {:induction false} NonEmptyOfBlanks(parts: seq<string>)
    requires forall i :: 0 <= i < |parts| ==> parts[i] == []
    ensures NonEmpty(parts) == []
  {
    if parts != [] {
      NonEmptyOfBlanks(parts[1..]);
    }
  }

  /** `[base, inputClassName, className].filter(Boolean).join(" ")` with
      an optional part left out when absent. */
  function MergeClassNames(base: string, inputClassName: Option<string>, className: Option<string>): (r: string)
    ensures base != [] ==> |base| <= |r| && r[..|base|] == base
    ensures (inputClassName.None? || inputClassName == Some("")) && (className.None? || className == Some("")) ==> r == base
  {
    var parts := [base] + (if inputClassName.Some? then [inputClassName.value] else [])
                        + (if className.Some? then [className.value] else []);
    var rest := NonEmpty(parts[1..]);
    assert (inputClassName.None? || inputClassName == Some("")) && (className.None? || className == Some("")) ==> rest == [] by {
      if (inputClassName.None? || inputClassName == Some("")) && (className.None? || className == Some("")) {
        NonEmptyOfBlanks(parts[1..]);
      }
    }
    assert base != [] ==> |base| <= |Join(NonEmpty(parts), " ")| && Join(NonEmpty(parts), " ")[..|base|] == base by {
      if base != [] {
        assert NonEmpty(parts) == [base] + rest;
        if rest != [] {
          JoinCons(base, rest, " ");
        }
      }
    }
    Join(NonEmpty(parts), " ")
  }

  function OrEmpty(s: Option<string>): string
  {
    if s.Some? then s.value else ""
  }

  /** The merged class of a non-empty base is the base, then the input
      class, then the class, separated by single spaces, the empty or
      absent ones dropped. */
  lemma {:induction false} MergeClassNamesOrder(base: string, inputClassName: Option<string>, className: Option<string>)
    requires base != []
    ensures var a, b := OrEmpty(inputClassName), OrEmpty(className);
            MergeClassNames(base, inputClassName, className) ==
              base + (if a != [] then " " + a else "") + (if b != [] then " " + b else "")
  {
    var a, b := OrEmpty(inputClassName), OrEmpty(className);
    var parts := [base] + (if inputClassName.Some? then [inputClassName.value] else [])
                        + (if className.Some? then [className.value] else []);
    var kept := [base] + (if a != [] then [a] else []) + (if b != [] then [b] else []);
    NonEmptyKeeps(parts, base, inputClassName, className);
    assert NonEmpty(parts) == kept;
    if a != [] && b != [] {
      assert kept == [base] + [a, b];
      JoinCons(base, [a, b], " ");
      assert [a, b] == [a] + [b];
      JoinCons(a, [b], " ");
    } else if a != [] {
      assert kept == [base] + [a];
      JoinCons(base, [a], " ");
    } else if b != [] {
      assert kept == [base] + [b];
      JoinCons(base, [b], " ");
    } else {
      assert kept == [base];
    }
  }

  lemma NonEmptyKeeps(parts: seq<string>, base: string, inputClassName: Option<string>, className: Option<string>)
    requires base != []
    requires parts == [base] + (if inputClassName.Some? then [inputClassName.value] else [])
                             + (if className.Some? then [className.value] else [])
    ensures var a, b := OrEmpty(inputClassName), OrEmpty(className);
            NonEmpty(parts) == [base] + (if a != [] then [a] else []) + (if b != [] then [b] else [])
  {
    var tail := parts[1..];
    assert parts == [base] + tail;
    if className.Some? {
      var c := [className.value];
      assert NonEmpty(c) == (if className.value != [] then c else []) by {
        assert c[1..] == [];
      }
      if inputClassName.Some? {
        assert tail == [inputClassName.value] + c;
        assert tail[1..] == c;
      } else {
        assert tail == c;
      }
    } else if inputClassName.Some? {
      assert tail == [inputClassName.value];
      assert tail[1..] == [];
    } else {
      assert tail == [];
    }
  }

  /** The base classes of the three inputs. */
  const TextInputBase := "border-b-2 bg-none outline-none p1"
  const DropdownBase := "border-b-2 bg-none outline-none p1 appearance-none cursor-pointer text-white"
  const LargeTextBase := "border-2 border-white bg-transparent outline-none p1 text-white p-3 resize-none"

  /** The defaults the inputs give to props left out. */
  const TextInputClassDefault := "w-full md:w-[300px]"
  const LargeTextClassDefault := "w-full"
  const PlaceholderDefault := "Select..."
  const RowsDefault: nat := 6

  /** The props every input takes; `None` is a prop left out. */
  datatype InputProps = InputProps(
    labelText: string,
    mandatory: Option<bool>,
    inputClassName: Option<string>,
    value: Option<string>,
    className: Option<string>,
    id: Option<string>,
    name: Value)

  /** What an input renders, as far as the model follows it: the element's
      id, class, `aria-required` and value, the label element if any (its
      text and the id it points to) and, for a text area, its rows. */
  datatype Rendered = Rendered(
    elementId: string,
    className: string,
    ariaRequired: bool,
    value: string,
    labelElement: Option<(string, string)>,
    rows: Option<nat>)

  function Default(s: Option<string>, d: string): string
  {
    if s.Some? then s.value else d
  }

  function Mandatory(p: InputProps): bool
  {
    p.mandatory == Some(true)
  }

  /** `TextInput`: the label always shows and points at the input; the
      mandatory flag only sets `aria-required` and adds no text. */
  function TextInput(p: InputProps): (r: Rendered)
    ensures r.ariaRequired == Mandatory(p)
    ensures r.value == (if p.value.Some? then p.value.value else "")
    ensures r.labelElement == Some((p.labelText, r.elementId))
    ensures r.elementId == InputId(p.id, p.name, p.labelText)
  {
    var id := InputId(p.id, p.name, p.labelText);
    Rendered(id, MergeClassNames(TextInputBase, Some(Default(p.inputClassName, TextInputClassDefault)), p.className),
             Mandatory(p), Default(p.value, ""), Some((p.labelText, id)), None)
  }

  /** With no class props the text input has its base and default classes. */
  lemma TextInputDefaultClass(p: InputProps)
    requires p.inputClassName.None? && p.className.None?
    ensures TextInput(p).className == TextInputBase + " " + TextInputClassDefault
  {
    MergeClassNamesOrder(TextInputBase, Some(TextInputClassDefault), None);
  }

  /** `DropdownInput`'s options: the placeholder with the empty value first,
      then the given options in order. */
  function DropdownOptions(placeholder: Option<string>, options: seq<(string, string)>): (r: seq<(string, string)>)
    ensures |r| == |options| + 1
    ensures r[0] == ("", Default(placeholder, PlaceholderDefault))
    ensures r[1..] == options
  {
    [("", Default(placeholder, PlaceholderDefault))] + options
  }

  /** The first option with the given value, if any. */
  function FirstMatch(options: seq<(string, string)>, value: string): (r: Option<nat>)
    ensures r.Some? ==> r.value < |options| && options[r.value].0 == value
    ensures r.Some? ==> forall i :: 0 <= i < r.value ==> options[i].0 != value
    ensures r.None? ==> forall i :: 0 <= i < |options| ==> options[i].0 != value
  {
    if options == [] then None
    else if options[0].0 == value then Some(0)
    else
      var rest := FirstMatch(options[1..], value);
      if rest.Some? then Some(rest.value + 1) else None
  }

  /** The option a controlled select shows for `value`: the first option
      with that value, and the first option of all when none has it. Only
      an empty list shows nothing. */
  function SelectedOption(options: seq<(string, string)>, value: string): (r: Option<nat>)
    ensures r.None? <==> options == []
    ensures r.Some? ==> r.value < |options|
    ensures (exists i :: 0 <= i < |options| && options[i].0 == value) ==>
              r.Some? && options[r.value].0 == value && forall i :: 0 <= i < r.value ==> options[i].0 != value
    ensures options != [] && (forall i :: 0 <= i < |options| ==> options[i].0 != value) ==> r == Some(0)
  {
    var m := FirstMatch(options, value);
    if m.Some? then m else if options != [] then Some(0) else None
  }

  /** `DropdownInput` renders like a text input with its own base class. */
  function Dropdown(p: InputProps): (r: Rendered)
    ensures r.ariaRequired == Mandatory(p)
    ensures r.labelElement == Some((p.labelText, r.elementId))
    ensures r.elementId == InputId(p.id, p.name, p.labelText)
  {
    var id := InputId(p.id, p.name, p.labelText);
    Rendered(id, MergeClassNames(DropdownBase, Some(Default(p.inputClassName, TextInputClassDefault)), p.className),
             Mandatory(p), Default(p.value, ""), Some((p.labelText, id)), None)
  }

  /** The dropdown always shows one of its options: a value of a given
      option shows the first such option, and any other value, the empty
      one included, shows the placeholder. */
  lemma DropdownShowsAnOption(placeholder: Option<string>, options: seq<(string, string)>, value: string)
    ensures var all := DropdownOptions(placeholder, options);
            var r := SelectedOption(all, value);
            r.Some? &&
            (value == "" ==> r == Some(0)) &&
            ((forall i :: 0 <= i < |options| ==> options[i].0 != value) ==> r == Some(0)) &&
            (value != "" && (exists i :: 0 <= i < |options| && options[i].0 == value) ==>
               1 <= r.value && options[r.value - 1].0 == value)
  {
    var all := DropdownOptions(placeholder, options);
    if value != "" && (exists i :: 0 <= i < |options| && options[i].0 == value) {
      var i :| 0 <= i < |options| && options[i].0 == value;
      assert all[i + 1].0 == value;
    }
    if forall i :: 0 <= i < |options| ==> options[i].0 != value {
      if value != "" {
        forall k | 0 <= k < |all| ensures all[k].0 != value {
          if k > 0 {
            assert all[k] == options[k - 1];
          }
        }
      }
    }
  }

  /** With no value the dropdown starts on its placeholder. */
  lemma DropdownStartsOnPlaceholder(p: InputProps, placeholder: Option<string>, options: seq<(string, string)>)
    requires p.value.None?
    ensures SelectedOption(DropdownOptions(placeholder, options), Dropdown(p).value) == Some(0)
  {
  }

  /** `LargeTextInput`: the label element only for a non-empty label. */
  function LargeTextInput(p: InputProps, rows: Option<nat>): (r: Rendered)
    ensures r.ariaRequired == Mandatory(p)
    ensures r.labelElement.Some? <==> p.labelText != []
    ensures r.labelElement.Some? ==> r.labelElement == Some((p.labelText, r.elementId))
    ensures r.elementId == TextareaId(p.id, p.name, p.labelText)
    ensures r.rows == Some(if rows.Some? then rows.value else RowsDefault)
  {
    var id := TextareaId(p.id, p.name, p.labelText);
    Rendered(id, MergeClassNames(LargeTextBase, Some(Default(p.inputClassName, LargeTextClassDefault)), p.className),
             Mandatory(p), Default(p.value, ""), if p.labelText != [] then Some((p.labelText, id)) else None,
             Some(if rows.Some? then rows.value else RowsDefault))
  }
}
