# Date field component, modelled in Dafny

This project models the date field adapter of a multi-step form wizard
(`lib/date.js`). A date is kept as one composite `YYYY-MM-DD` value under the
field key. For editing it is shown as three sub-fields, `<key>-day`,
`<key>-month` and `<key>-year`. The adapter is built from a key and two
options, `dayOptional` and `monthOptional`. It supplies lifecycle hooks that
convert between the two forms inside the wizard's request pipeline:

- pre-getErrors decomposes a stored invalid value back into `errorValues`;
- post-getErrors adds `{ type: null }` markers for the sub-fields of an erroneous field;
- post-getValues shows a stored value as its three sub-fields, with `errorValues` taking precedence;
- pre-process recomposes the submitted sub-fields into the composite value, zero-padding and defaulting.

Files:

- `wrappers.dfy`: module `Wrappers`, with `Option` (an absent session entry is `None`) and `Result` (a thrown error).
- `jstext.dfy`: module `JsText`, the JavaScript built-ins the adapter relies on. These are `String.prototype.split` with a one-character separator, `replace` of the first occurrence of a string pattern, and a reversed copy of an array.
- `date_parts.dfy`: module `DateParts`, the pure helpers `pad`, `getPartsFromDate` and `getParts`, plus the sub-field names.
- `date_component.dfy`: module `DateComponent`. It holds construction, the session contents the hooks read, and the request objects they change. The three hooks that change the request in place are methods over a `Request` class. pre-getErrors returns the value it hands to `sessionModel.set`, or `None` when it writes nothing. It also holds the lemmas about pre-process.
- `date_examples.dfy`: module `DateExamples`, the scenarios of `test/date.js` stated about the model.

At these edges the model follows the code:

- pre-process does nothing when no extracted part is non-empty. A body that lacks all three sub-fields is left alone, like an all-blank one.
- When something is answered but the day or month sub-field is absent, `pad(undefined)` throws. The model returns `MissingPart` and leaves the body unchanged.
- An absent year is rendered as the text `undefined`.
- pre-process stores a dash-free `Y-M-D` again from its own parts exactly when some part is non-empty, neither the day nor the month is one character long (padding lengthens those), and neither is a blank optional part (the default turns those into `01`). Empty parts and parts of three or more characters come back as they were.
- getPartsFromDate with more than three segments writes the extra segments under the property `undefined`, and the last of them wins. So a field whose key is itself `undefined` can lose its own entry in pre-getErrors; `PreGetErrors` states that the entry is kept only for other keys.
- An error entry's `type` is absent (`undefined`) in an entry such as `{}`, `null` in the markers post-getErrors adds, or a validator's name. `ErrorType` keeps the three apart.
- `lib/fields.js` is not part of this model. `getFields(key)` is taken to yield the keys `<key>-day`, `<key>-month`, `<key>-year` in that order, as the tests use them.

## Model

| member | source | states |
|---|---|---|
| JsText.Split | lib/date.js:15 | there is always at least one segment, one more than there are separators, and no segment contains the separator |
| JsText.SplitThree | lib/date.js:98 | splitting `Y-M-D` on "-" gives back exactly `[Y, M, D]` when the parts contain no "-" |
| JsText.Reversed | lib/date.js:16-17 | same length, and element i is element `n-1-i` of the input |
| JsText.RemoveFirstAt | lib/date.js:11 | `replace(pattern, '')` removes the first occurrence of the pattern and keeps the rest of the string around it |
| JsText.RemoveFirstAbsent | lib/date.js:11 | `replace(pattern, '')` leaves a string without the pattern unchanged |
| DateParts.Pad | lib/date.js:22 | a one-character part becomes "0" followed by it (length 2); the empty part and parts of 2 or more characters come back unchanged |
| DateParts.FieldNamesWellFormed | lib/date.js:32 | the three sub-field keys are distinct, differ from the field key and from the property name `undefined` |
| DateParts.AssignInOrderSpec | lib/date.js:18-20 | the reduce puts the i-th value under the i-th field; values past the last field go under `undefined`, the last one winning; nothing else is written |
| DateParts.PartsFromDateSpec | lib/date.js:14-20 | the day, month and year sub-fields take the last, second-to-last and third-to-last "-" segments, and any other key written is `undefined` |
| DateParts.PartsFromDateOfDate | lib/date.js:14-20 | `Y-M-D` decomposes into exactly day D, month M and year Y |
| JsText.RemoveFirst | lib/date.js:11 | the result is never longer than the input, and exactly the pattern's length shorter when the input starts with the pattern |
| DateParts.FieldNames | lib/date.js:32 | there are three sub-field keys and each starts with `<key>-` |
| DateParts.AssignInOrder | lib/date.js:18-20 | the reduce writes only the given fields and `undefined`, and writes a key for every value it is given: the i-th field, or `undefined` past the last field |
| DateParts.AssignInOrderAt | lib/date.js:18-20 | with distinct fields, the i-th field ends up holding the i-th value: no later step of the reduce overrides it |
| DateParts.PartsFromDate | lib/date.js:14-20 | getPartsFromDate writes only the given fields and `undefined`, and always writes the first field (the day) |
| DateParts.MergedPartsFromDate | lib/date.js:45 | merging (as pre-getErrors and post-getValues do) the decomposition of a three-segment value over any map puts the last, middle and first segment under the day, month and year |
| DateParts.GetParts | lib/date.js:9-12 | every field present in the body yields an entry under its key with the first `<key>-` removed |
| DateParts.StripSubField | lib/date.js:11 | stripping the first `<key>-` from a sub-field key leaves the bare part name |
| DateParts.GetPartsOfFields | lib/date.js:9-12 | the extracted parts are exactly the body's present sub-fields, under the names day, month and year, with the body's values |
| DateComponent.Create | lib/date.js:24-39 | construction fails with the source's message exactly when the key is missing or empty; otherwise the key and sub-fields are recorded and an optional month forces an optional day |
| DateComponent.Markers | lib/date.js:54-56 | the reduce yields one `{ type: null }` entry for each sub-field key and no other entry |
| DateComponent.PreGetErrors | lib/date.js:41-49 | writes exactly when errorValues holds a non-empty value for the key; the write is errorValues merged with that value's decomposition, keeping the other entries and the key's own entry |
| DateComponent.PostGetErrors | lib/date.js:51-59 | when the session holds an error for the key, each sub-field gets `{ type: null }`; the composite entry and all other entries are unchanged; otherwise nothing changes |
| DateComponent.PostGetValues | lib/date.js:61-71 | with a truthy stored value, the form values gain its decomposition and then all of errorValues, which wins on shared keys; other entries are kept; a falsy stored value changes nothing |
| DateComponent.PreProcess | lib/date.js:85-101 | the outcome is the one the pre-process function gives; only a composed outcome writes the body, and it writes the field key alone |
| DateComponent.AnsweredParts | lib/date.js:86-87 | the `_.some` test on the extracted parts holds exactly when some sub-field is submitted non-empty; the parts carry the body's day, month and year |
| DateComponent.FilledSpec | lib/date.js:88-97 | a blank optional part becomes "01", a one-character part gets a leading "0", one- and two-character parts come out two characters long, and any other part is kept |
| DateComponent.FilledUnchangedIff | lib/date.js:88-97 | a part comes through the default and padding unchanged if and only if it is not one character long and not a blank optional part |
| DateComponent.FillIn | lib/date.js:88-97 | one step of pre-process: a present part is replaced by its defaulted or padded value, and an absent part makes `pad` throw |
| DateComponent.PreProcessOutcome | lib/date.js:85-101 | pre-process throws only over the day or the month, does something only when some extracted part is non-empty, and composes only when both day and month were extracted |
| DateComponent.AnsweredIff | lib/date.js:87 | some extracted part is non-empty if and only if some sub-field is submitted non-empty |
| DateComponent.PreProcessUntouchedIff | lib/date.js:87 | the body is left alone if and only if no sub-field is submitted with a non-empty value |
| DateComponent.PreProcessThrowsIff | lib/date.js:88-97 | the hook throws if and only if something is answered but the day or month is absent; a missing day fails first |
| DateComponent.PreProcessComposes | lib/date.js:88-98 | otherwise the stored value is year, month and day joined by "-"; an empty optional day or month becomes "01", the others are zero-padded, and the year is taken as submitted, an absent year being rendered as `undefined` |
| DateComponent.PreProcessRoundTrip | lib/date.js:85-98 | submitting the decomposition of a dash-free `Y-M-D` over any body stores `Y-M-D` again if and only if some part is non-empty and neither month nor day is one character long or a blank optional part |
| DateComponent.PreProcessRedisplay | lib/date.js:85-98 | the value pre-process stores decomposes back into the defaulted and padded day and month and the submitted year |
| DateExamples.ExampleFieldNames | test/date.js:83-88 | the sub-field keys of `date-field` are `date-field-day`, `date-field-month`, `date-field-year` |
| DateExamples.PreProcessPlainExample | test/date.js:169-177 | day "01", month "01", year "2017" store "2017-01-01" |
| DateExamples.PreProcessPaddedExample | test/date.js:179-187 | day "9", month "9", year "2017" store "2017-09-09" |
| DateExamples.PreProcessBlankExample | test/date.js:189-198 | an all-blank submission leaves the body untouched |
| DateExamples.PreProcessOptionalDayExample | test/date.js:200-211 | with dayOptional, a blank day, month "9" and year "2017" store "2017-09-01" |
| DateExamples.PreProcessOptionalMonthExample | test/date.js:213-224 | with monthOptional, blank day and month and year "2017" store "2017-01-01" |
| DateExamples.PreGetErrorsOfDate | lib/date.js:41-49 | with errorValues holding only a `Y-M-D` value for the key, the session is given exactly that value and its day D, month M and year Y |
| DateExamples.PostGetValuesOfDate | lib/date.js:61-71 | with a stored `Y-M-D` value, the form values become that value, its day, month and year, and then errorValues over them |
| DateExamples.PreGetErrorsExample | test/date.js:57-68 | the session's errorValues become exactly `date-field` "2017-01-01" with day "01", month "01" and year "2017" |
| DateExamples.PostGetErrorsExample | test/date.js:79-89 | the form errors become exactly the composite entry `{}`, kept with no type, and `{ type: null }` for each of the three sub-fields |
| DateExamples.PostGetValuesExample | test/date.js:103-111 | the form values become exactly "2017-02-01" with day "01", month "02" and year "2017" |
| DateExamples.PostGetValuesCorrectionsExample | test/date.js:113-126 | errorValues day "01", month "11" and year "2015" win over the stored value's parts, and the composite entry is kept |

## Left out

- pre-render (lib/date.js:73-83) is not modelled. It calls the host's asynchronous template renderer and attaches the markup to an entry of the response's field registry, so its behaviour lies in foreign code.
- Template path resolution (lib/date.js:7, lib/date.js:29-31) is left out. It is a filesystem path computation used only by pre-render.
- The `next` continuation is replaced by return values. Each hook returns or updates its outputs. pre-process reports a throw as the `MissingPart` outcome.
- The session store is not modelled as a store. It is the input value `SessionModel`, and pre-getErrors returns its optional write. A field key equal to `errorValues` or `errors`, which would make `get(key)` return those maps, is not modelled.
- Echoing the caller's extra options into the returned object (lib/date.js:103-111) is left out. It is object-spreading glue with no behaviour of its own.
- Only the `type` attribute of an error entry is modelled, as absent, `null` or a name. Error entries are otherwise opaque objects, and any present entry is truthy.
- Property lookups are own-property only. The source's `errorValues[key]`, `errors[key]` and `req.body[key] = …` also reach members inherited from `Object.prototype`, so keys such as `constructor` or `__proto__` behave differently there: `errors.constructor` is truthy, `errorValues.constructor.split` throws, and assigning `body['__proto__']` adds no entry. Field keys naming `Object.prototype` members are not modelled.
- DateParts.Pad: counts a part's length in Unicode characters, while `num.length` (lib/date.js:22) counts UTF-16 code units. A part made of one character outside the Basic Multilingual Plane is therefore padded with "0" in the model but returned unchanged by the source.
- DateComponent.Filled: pads through `DateParts.Pad`, so it has the same gap, and so do `FilledSpec`, `FilledUnchangedIff` and `PreProcessRoundTrip`, which are stated in the model's character count.
- All values are modelled as strings: keys, body values, stored values and errorValues entries. JavaScript's other truthy or falsy values, such as numbers or arrays for repeated form fields, are not modelled. Option flags are modelled as the booleans `!!` yields.
- lodash `_.pick` would read a key containing "." or "[" as a deep path when it is absent from the body. The model treats every sub-field key as a plain key.
