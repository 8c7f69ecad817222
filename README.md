# Phone-number field filter

A Dafny model of the browser-side filter that the tracker application attaches
to its phone-number text fields (`tracker/static/js/phone_validation.js`). The
filter has three handlers:

- `input`: the field value is sanitized (every character outside the regular
  expression class `[\d+\s]` is deleted) and then capped to a length that
  depends on its prefix: 16 characters after `+255`, 14 after `0`, 16 otherwise.
  Each branch truncates only when the value is longer than its limit.
- `paste`: the default paste is suppressed, the clipboard text is sanitized and
  capped the same way (this time with an unconditional `substring`), written
  into the field, and an `input` event is fired on the field.
- `keydown`: a key press is let through when the key is one of eleven
  navigation and editing keys or ctrl or meta is held; otherwise it is
  prevented unless the key name contains a digit, `+` or whitespace character
  anywhere (the regular expression test is not anchored, so `"F5"` passes and
  `"Shift"` does not).

Facts about the code that the model follows:

- `\s` keeps every whitespace character (tab, newline, carriage return,
  no-break space, and so on), not only the space.
- The keydown test is unanchored: a key passes if its name contains a digit,
  `+` or whitespace character anywhere.
- Pasting `"+255 712 345 678 extra chars"` sanitizes to 18 characters, and the
  16-character cap keeps `"+255 712 345 678"` (`ExamplePasted`).
- The paste handler reads the clipboard text from `e.clipboardData` or
  `window.clipboardData`; if neither exists, the handler throws. The model
  takes the clipboard text as a parameter.
- Writing `value` on a text input strips line feeds and carriage returns, as
  the value sanitization algorithm of the Text and Telephone states of the
  input element in the HTML Living Standard requires. The paste handler can
  therefore store a value that no longer fits its class: a line feed followed
  by sixteen digits starting with `0` is cut to 16 characters as an "other"
  number, stored as a 15-character local number, and cut to 14 by the re-fired
  `input` handler (`ExampleNewlinePaste`). The re-fired `input` is therefore
  not redundant; for clipboard text without newlines it changes nothing.

Files:

- `phone_filter.dfy`, module `PhoneFilter`: the pure part. `IsKeep` is the
  character class, `Sanitize` the deletion, `Cap` the input handler's guarded
  truncation, `JsSubstring` and `PasteCap` the paste handler's unguarded one,
  `Clean` = `Cap` after `Sanitize`, and `KeyBlocked` the keydown decision, with
  `KeyHasKeep` as the unanchored search.
- `input_element.dfy`, module `InputElement`: the newline stripping the
  element applies to every value written into it.
- `phone_field.dfy`, module `PhoneField`: class `Field`, whose `value` field the
  handlers `OnInput`, `OnPaste` and `OnKeydown` act on; every write goes
  through `SetValue`, the element's setter. `OnPaste` calls `OnInput` where the
  source dispatches the `input` event.
- `phone_examples.dfy`, module `PhoneExamples`: worked examples, and two client
  methods that drive a `Field`.

Assumptions of the model:

- Strings are sequences of Unicode characters; the browser counts UTF-16 code
  units. The two lengths agree on every sanitized string, since every
  character the filter keeps is a single code unit (`IsKeep`); on the raw
  input they may differ, which does not affect the results.
- `\d` is the ASCII digits. `\s` is enumerated as the ECMAScript WhiteSpace and
  LineTerminator code points: tab, line feed, vertical tab, form feed, carriage
  return, U+FEFF, U+2028, U+2029 and the space separators of Unicode category Zs
  (U+0020, U+00A0, U+1680, U+2000 to U+200A, U+202F, U+205F, U+3000).
- JavaScript `substring(start, end)` clamps both bounds to the string and swaps
  them when the start is past the end; `JsSubstring` does the same.

## Model

| member | source | states |
|---|---|---|
| `PhoneFilter.IsDigit` | tracker/static/js/phone_validation.js:12 | `\d` matches ASCII characters only, and exactly the ten code points from `0` to `9` |
| `PhoneFilter.IsSpace` | tracker/static/js/phone_validation.js:12 | `\s` matches space, tab, line feed and carriage return, never a digit or `+`, and only single-code-unit characters |
| `PhoneFilter.IsKeep` | tracker/static/js/phone_validation.js:12 | the class `[\d+\s]` holds `+`, space and `0`, and only characters of one UTF-16 code unit |
| `PhoneFilter.Sanitize` | tracker/static/js/phone_validation.js:12 | the result holds only digits, `+` and whitespace, is no longer than the input, and equals the input when no character was deleted |
| `PhoneFilter.SanitizeIsSubsequence` | tracker/static/js/phone_validation.js:12 | the sanitized string is a subsequence of the input: characters are only deleted, the rest keep their order |
| `PhoneFilter.SanitizeCounts` | tracker/static/js/phone_validation.js:12 | every allowed character occurs in the result exactly as often as in the input, every other character not at all |
| `PhoneFilter.SanitizeAppend` | tracker/static/js/phone_validation.js:12 | the global replace works character by character: sanitizing a concatenation concatenates the sanitized parts |
| `PhoneFilter.SanitizeFixpoint` | tracker/static/js/phone_validation.js:12 | a string is unchanged by sanitizing if and only if all its characters are allowed |
| `PhoneFilter.SanitizeDropped` | tracker/static/js/phone_validation.js:12 | a string with no allowed character sanitizes to the empty string |
| `PhoneFilter.SanitizeKept` | tracker/static/js/phone_validation.js:12 | a string of allowed characters sanitizes to itself |
| `PhoneFilter.StartsWith` | tracker/static/js/phone_validation.js:15-20 | `startsWith` holds exactly when the prefix is a prefix of the string |
| `PhoneFilter.MaxLength` | tracker/static/js/phone_validation.js:15-30 | the limit is 14 exactly for strings starting with `0` (a `+255` string never does), and 16 for every other string |
| `PhoneFilter.Cap` | tracker/static/js/phone_validation.js:15-30 | the result is a prefix of the input, stays in the input's prefix class (`+255`, `0`, other), fits that class's limit, equals the input if and only if the input already fits, and otherwise has exactly the limit's length |
| `PhoneFilter.JsSubstring` | tracker/static/js/phone_validation.js:64-68 | `substring` never lengthens the string, and `substring(0, n)` for `n >= 0` is the first `n` characters, or the whole string when it is shorter |
| `PhoneFilter.PasteCap` | tracker/static/js/phone_validation.js:63-69 | the paste handler's unconditional `substring` gives the same string as the input handler's guarded truncation, for every string |
| `PhoneFilter.IsClean` | tracker/static/js/phone_validation.js:15-30 | a clean value has at most 16 characters, and at most 14 when it starts with `0` |
| `PhoneFilter.Clean` | tracker/static/js/phone_validation.js:12-30 | the value the input handler computes has only allowed characters, is a prefix of the sanitized input, and has at most 16 characters if it starts with `+255`, at most 14 if it starts with `0`, and at most 16 otherwise |
| `PhoneFilter.CleanFixpoint` | tracker/static/js/phone_validation.js:12-30 | the input handler leaves a value unchanged if and only if it has only allowed characters and fits its prefix class's limit |
| `PhoneFilter.CleanIdempotent` | tracker/static/js/phone_validation.js:12-30 | cleaning a cleaned value changes nothing |
| `PhoneFilter.KeyHasKeep` | tracker/static/js/phone_validation.js:49 | the unanchored regular expression test succeeds if and only if sanitizing the key name leaves a non-empty string |
| `PhoneFilter.KeyHasKeepIff` | tracker/static/js/phone_validation.js:49 | the unanchored regular expression test succeeds if and only if some character of the key name is a digit, `+` or whitespace |
| `PhoneFilter.KeyBlocked` | tracker/static/js/phone_validation.js:44-51 | a key press is prevented if and only if the key is not allow-listed, neither ctrl nor meta is held, and its name sanitizes to nothing |
| `PhoneFilter.AllowedNeverBlocked` | tracker/static/js/phone_validation.js:37-46 | a key on the eleven-key allow-list, or any key with ctrl or meta held, is never prevented |
| `PhoneFilter.BlockedIffNoKeepChar` | tracker/static/js/phone_validation.js:49-51 | any other key is prevented if and only if no character of its name is a digit, `+` or whitespace |
| `InputElement.StripNewlines` | tracker/static/js/phone_validation.js:71 | a value written into the field holds no line feed or carriage return, is no longer than the text written, and has no character the text did not have |
| `InputElement.StripNewlinesFixpoint` | tracker/static/js/phone_validation.js:71 | writing a text leaves it as it is if and only if it has no line feed or carriage return |
| `PhoneField.StripNewlinesIsSubsequence` | tracker/static/js/phone_validation.js:71 | the stored text is a subsequence of the text assigned: characters are only deleted, the rest keep their order |
| `InputElement.StripNewlinesCounts` | tracker/static/js/phone_validation.js:71 | writing a text deletes every line feed and carriage return and keeps every occurrence of every other character |
| `PhoneField.CleanKeepsNoNewlines` | tracker/static/js/phone_validation.js:9-32 | the input handler never introduces a newline into a value that has none |
| `PhoneField.PastedValue` | tracker/static/js/phone_validation.js:60-71 | the value the paste handler stores has no newline, and for clipboard text without newlines it is the cleaned clipboard text |
| `PhoneField.PasteThenRefire` | tracker/static/js/phone_validation.js:60-74 | after the paste and the re-fired `input`, the value is clean and has no newline; for clipboard text without newlines the re-fired `input` changes nothing and leaves the cleaned clipboard text |
| `PhoneField.Field.constructor` | tracker/static/js/phone_validation.js:4-6 | a field starts with whatever text it holds when the handlers are attached, stored without newlines |
| `PhoneField.Field.SetValue` | tracker/static/js/phone_validation.js:32-71 | the assignments to `e.target.value` at lines 32 and 71: assigning `e.target.value` stores the text without newlines, and stores it unchanged when it has none |
| `PhoneField.Field.OnInput` | tracker/static/js/phone_validation.js:8-33 | the new value is the cleaned old value, and it is clean and holds no newline, for every value the field can hold (a stored value never has a newline) |
| `PhoneField.Field.OnPaste` | tracker/static/js/phone_validation.js:55-75 | after the paste and the re-fired `input`, the value is the cleaned stored paste value and is clean (whatever the field held before); for clipboard text without newlines it is the cleaned clipboard text |
| `PhoneField.Field.OnKeydown` | tracker/static/js/phone_validation.js:36-52 | the key press is prevented exactly as `KeyBlocked` says: never for allow-listed keys or with ctrl or meta, otherwise exactly when the key name has no digit, `+` or whitespace; the field is not modified |
| `PhoneExamples.ExampleTyped` | tracker/static/js/phone_validation.js:12-30 | typing `"a+255b123"` leaves `"+255123"` |
| `PhoneExamples.ExamplePasted` | tracker/static/js/phone_validation.js:60-71 | pasting `"+255 712 345 678 extra chars"` sanitizes to `"+255 712 345 678  "` and keeps its first 16 characters |
| `PhoneExamples.ExampleLocal` | tracker/static/js/phone_validation.js:20-24 | a 16-digit number starting with `0` is cut to its first 14 characters |
| `PhoneExamples.ExampleKeys` | tracker/static/js/phone_validation.js:37-51 | `"F5"` and `"Backspace"` are let through, `"Shift"` and `"a"` are prevented |
| `PhoneExamples.ExampleNewlinePaste` | tracker/static/js/phone_validation.js:60-74 | pasting a line feed and sixteen digits starting with `0` stores 15 characters, which the re-fired `input` cuts to 14 |
| `PhoneExamples.KeydownOnField` | tracker/static/js/phone_validation.js:36-52 | pressing `"a"` on an empty field is prevented and the field stays empty; `"Backspace"` on a filled field is let through |
| `PhoneExamples.PasteThenInput` | tracker/static/js/phone_validation.js:55-75 | after a paste, one more `input` leaves the field's value unchanged; for clipboard text without newlines the value is the cleaned clipboard text |

## Left out

- The page binding: the `DOMContentLoaded` listener, the `querySelectorAll`
  selection of phone fields and the `addEventListener` registration. A `Field`
  stands for one selected element with its handlers attached.
- Input types other than text and telephone: a `Field` is an input in the
  Text or Telephone state. The `pattern` selector can also pick up inputs of
  other types, such as Email or URL, whose setters also trim surrounding
  whitespace; that trimming is not modelled.
- The element's other value handling (cursor position, selection, the
  `maxlength` and `pattern` attributes): only the newline stripping of the
  value setter is modelled.
- Browser event objects: `preventDefault` is modelled as the boolean that
  `OnKeydown` returns (and, for `paste`, by the handler setting the value
  itself); `dispatchEvent(new Event('input'))` is modelled as a direct call of
  `OnInput`, so other listeners on the element are not modelled.
- Clipboard access (`e.clipboardData || window.clipboardData` and `getData`):
  the pasted text is a parameter of `OnPaste`; the case where neither clipboard
  object exists (a script error in the browser) is not modelled.
- The browser's own editing that happens between `keydown` and `input`
  (inserting the typed character at the cursor): `OnInput` starts from
  whatever the value is.
- UTF-16 code units: lengths are counted in Unicode characters (see the
  assumptions above).
- `tracker/management/commands/auto_progress_orders.py`: a Django management
  command whose behaviour lies in database queries, transactions and the wall
  clock, none of which is part of this model.
