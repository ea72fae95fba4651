# Health Score API JSON tester: cleaning engine, in Dafny

This project models the logic of `updated_code.py`, a Streamlit page. On that
page a user edits a list of JSON test cases ("forms") for a health-score API
and copies the non-empty ones, cleaned, to the clipboard. The model covers:

- **The cleaner** `remove_null_values` (module `Cleaner`). It is written
  twice. `Clean` is a function that transcribes the Python filters as they
  stand, including the `str(value).lower() != "null"` test.
  `RemoveNullValues` is a recursive method that fills a fresh dict or list
  in a loop at each level, as the source does. It is proved equal to `Clean`.
- **The emptiness predicate** `is_form_empty` (`Cleaner.IsFormEmpty`) and
  the default document `get_default_json_structure` (module `DefaultForm`).
- **The JSON values** (module `JsonValue`). They are `Null | Bool | Int |
  Str | Arr | Obj`, where an object is a sequence of `Member(key, value)`,
  so Python's dict insertion order is kept. The module also holds the parts
  of Python's `str()`, `str.lower()` and truthiness that the cleaner and
  the export use.
- **The clipboard escape**: the five chained `str.replace` calls in
  `copy_to_clipboard_js` (module `ClipboardEscape`). The module also holds
  a simplified reading of a JavaScript template literal, which is where the
  escaped text ends up.
- **The session's form list** `st.session_state.forms` (module
  `FormSession`). It is a class `Session` with methods for initialisation,
  "Add New Test Case", "Clear All Forms", "Delete", the per-form JSON
  editor, "Copy All to Clipboard" and "Copy This Form". `ExportList` is the
  `valid_forms` loop as a function.

The model follows these behaviours of the code:
- The code cleans lists element by element and drops empty lists.
- A dict or list with nothing left becomes `None`, not `{}`.
- Only `""` is dropped. Whitespace-only strings are kept, because the test
  is `data == ""`, not a trimmed comparison.
- Strings spelling "null" in any letter case are dropped too.
- The form list in this file can never become empty.

## Model

| member | source | states |
|---|---|---|
| `Cleaner.RemoveNullValues` | updated_code.py:189-219 | The loop-based recursive cleaner returns exactly `Clean(data)`. Each loop keeps the invariant "the list or dict built so far is the cleaning of the entries seen so far". |
| `Cleaner.CleanIsMeaningful` | updated_code.py:189-219 | The cleaner returns `None` or a value with no empties at any depth: no `None`, no `""`, no string spelling "null", no empty list and no empty dict. |
| `Cleaner.MeaningfulPassesFilters` | updated_code.py:196-210 | A meaningful value passes the dict filter and the list filter, and is not dropped as a scalar. |
| `Cleaner.CleanedPassesFilters` | updated_code.py:196-210 | Apart from `is not None`, the dict and list filters never reject a cleaned value: the `[]`, `{}`, `""` and "null" tests cannot fire. |
| `JsonValue.NonStringNeverNullText` | updated_code.py:196-217 | `str()` of `None`, a bool, an int, a list or a dict never lower-cases to "null". Only strings can fail that test. |
| `JsonValue.NullTextSpellings` | updated_code.py:217 | The "null" test catches exactly the 16 letter-case spellings of "null". |
| `Cleaner.KeepsBoolAndInt` | updated_code.py:213-219 | Booleans and integers, including `False` and `0`, are returned unchanged. |
| `Cleaner.CleanString` | updated_code.py:213-219 | A string becomes `None` exactly when it is `""` or spells "null". Strings made only of whitespace (space, tab, LF, CR, VT, FF) are kept unchanged. |
| `Cleaner.CleanKeepsMeaningful` | updated_code.py:189-219 | A value with no empties at any depth is returned unchanged. |
| `Cleaner.CleanIdempotent` | updated_code.py:189-219 | Cleaning a cleaned value changes nothing. |
| `Cleaner.CleanFixedPoints` | updated_code.py:189-219 | The values that cleaning leaves unchanged are exactly `None` and the meaningful values (both directions). |
| `Cleaner.CleanNullIffBlank` | updated_code.py:189-219 | The cleaner returns `None` exactly when every leaf is `None`, `""` or "null" and every container holds only such values (both directions). |
| `Cleaner.FormEmptyIffBlank` | updated_code.py:221-224 | The cleaner never returns `{}`, so the `== {}` branch is unreachable. `is_form_empty` holds exactly when the cleaner returns `None`, which is exactly when the form is blank. |
| `Cleaner.CleanItemsAppend` | updated_code.py:203-212 | Cleaning a concatenated list is the concatenation of the cleanings, so surviving items keep their relative order. |
| `Cleaner.CleanItemsSingle` | updated_code.py:205-211 | One list item survives, as its cleaned value, exactly when it does not clean to `None`. |
| `Cleaner.CleanFieldsAppend` | updated_code.py:191-202 | Cleaning dict members is a homomorphism over concatenation, so surviving keys keep their insertion order. |
| `Cleaner.CleanFieldsSingle` | updated_code.py:193-201 | One member survives, with its key and its cleaned value, exactly when its value does not clean to `None`. |
| `Cleaner.CleanFieldsLookup` | updated_code.py:191-202 | For any key, looking it up in the cleaned dict gives the cleaned value of that key in the input, or nothing if the key is absent or its value cleans to `None`. No key is added. |
| `Cleaner.CleanFieldsKeepDistinctKeys` | updated_code.py:191-202 | A cleaned dict has no repeated key. |
| `DefaultForm.DefaultIsEmpty` | updated_code.py:13-187 | Every leaf of the default structure is `None` or `[]`, so it cleans to `None` and `is_form_empty` holds for it. |
| `ClipboardEscape.EscapeIsPerCharacter` | updated_code.py:229 | Because backslash is replaced first, the five sequential replaces equal escaping each character on its own: `\`, backtick, `"`, LF and CR map to `\\`, `` \` ``, `\"`, `\n` and `\r`. |
| `ClipboardEscape.EscapeOneChar` | updated_code.py:229 | The replace chain applied to a single character gives that character's escape. |
| `ClipboardEscape.EscapedHasNoLineBreaks` | updated_code.py:229 | The escaped text contains no raw line feed or carriage return. |
| `ClipboardEscape.UnescapeRoundTrip` | updated_code.py:229 | Undoing the five escapes gives back the original text, for every text. |
| `ClipboardEscape.DollarBraceBreaksLiteral` | updated_code.py:229-234 | As written, any text containing `${` escapes to a template-literal body that is read as a template containing a `${...}` substitution, not as plain text. |
| `ClipboardEscape.EscapeForJsInLiteral` | updated_code.py:229-234 | For every text, the literal holding the escaped text is plain text equal to that text when the text has no `${`, and holds a `${...}` substitution when it has one (both directions). |
| `ClipboardEscape.DollarBraceExample` | updated_code.py:229-234 | A concrete instance: the text `${a}`. |
| `ClipboardEscape.TemplateRoundTrip` | updated_code.py:229-234 | If `$` is escaped as well, the template literal's value equals the text, for every text. |
| `FormSession.ExportedIff` | updated_code.py:304-309 | A form is exported exactly when it cleans to something other than `None`, `False` or `0`. |
| `FormSession.ExportListAppend` | updated_code.py:304-309 | The export of a concatenation is the concatenation of the exports, so entries keep the forms' order. |
| `FormSession.ExportListSingle` | updated_code.py:304-309 | One form contributes its cleaned value exactly when it is exported, and nothing otherwise. |
| `FormSession.ExportListBound` | updated_code.py:304-309 | `valid_forms` is never longer than the form list. |
| `FormSession.ExportListMembers` | updated_code.py:304-309 | An entry is in the export exactly when it is the cleaned value of some exported form (both directions). |
| `FormSession.ExportedEntriesAreClean` | updated_code.py:304-309 | Every exported entry is meaningful at every depth, truthy, already clean, and never an empty form. |
| `FormSession.ExportScenario` | updated_code.py:302-309 | Exporting a default form plus `{"mhm": {"age": 25, "hgt": null}, "smk": {}}` gives exactly `[{"mhm": {"age": 25}}]`. |
| `FormSession.Session.constructor` | updated_code.py:276-277 | A new session holds exactly one default form, and its export is empty. |
| `FormSession.Session.AddTestCase` | updated_code.py:289-292 | Appends one default form. Nothing else changes, the export included. |
| `FormSession.Session.ClearAll` | updated_code.py:295-298 | Resets the list to exactly one default form, whose export is empty. |
| `FormSession.Session.Delete` | updated_code.py:330-335 | Removes form `i` exactly when more than one form is left, otherwise changes nothing. The list is never empty. The new export is the old one without form `i`'s contribution. |
| `FormSession.Session.ApplyEdit` | updated_code.py:358-364 | A successful parse replaces only form `i`. A parse error leaves the list unchanged. |
| `FormSession.Session.CopyAll` | updated_code.py:302-319 | The export loop returns `ExportList(forms)`, or the "no valid forms" warning when that list is empty. Each entry is meaningful and non-empty, and there are at most as many entries as forms. |
| `FormSession.Session.CopyForm` | updated_code.py:337-346 | Shows the "empty" warning exactly when the form is empty, and copies exactly when the form is exported. What it copies is that one form's export. |

## Findings

| source | as written | input that shows it | evidently intended | confidence | as-written member | corrected member |
|---|---|---|---|---|---|---|
| updated_code.py:229-234 | The five replaces do not escape `$`, and the result is placed between backticks in a JavaScript template literal. | An exported JSON value containing the text `${a}`. The generated script then reads `${a}` as a substitution, so it copies something else or throws. Every text without `${` is carried exactly. | Also escape `$`, for example with a sixth `.replace('$', '\\$')`, so the literal's value is exactly the JSON text. | medium; not executed | `ClipboardEscape.DollarBraceBreaksLiteral` | `ClipboardEscape.TemplateRoundTrip` |

## Left out

- Streamlit rendering is not modelled: page configuration, columns, buttons, expanders, text areas, success/warning/error messages, the sidebar and `st.rerun`. The copy methods return which outcome is shown instead of showing it.
- `form_counter` is not modelled. It is display-only bookkeeping.
- `json.loads` and `json.dumps` are library calls. A parse is an `Option<Json>` input to `ApplyEdit`, and the pretty-printed text is not modelled.
- The per-render loop that re-parses every editor's text on each interaction is not modelled as a loop. `ApplyEdit` is one iteration of it, for one form. Session persistence across reruns is not modelled either.
- The HTML and JavaScript clipboard template around the escaped text is browser code and is not modelled. In particular, an HTML `</script>` inside the text is not modelled.
- `TemplateCooked` reads a template literal only as far as the escapes the chain produces, plus `\$`. Every other backslash escape reads as "not a plain string".
- `TemplateCooked` does not evaluate `${...}` substitutions: `None` means the literal holds one, not that the copied text differs. A substitution whose value happens to equal its own source text would still copy exactly.
- Floating-point numbers are not modelled: numbers are integers. Python's `1 == True` equality is not modelled either.
- `str.lower()` is modelled for ASCII letters only. The "null" test depends only on the letters n, u and l, and the model assumes that no other character lower-cases to one of them.
- `PyStr` renders strings nested inside a list or dict in single quotes, without Python's escaping or choice of quote character. Only the first character matters for the "null" test, and it is always `[` or `{`.
- Dict assignment `cleaned[key] = value` is modelled as appending a member. Python dicts cannot hold a key twice, and `CleanFieldsKeepDistinctKeys` shows that cleaning keeps keys distinct.
