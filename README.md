# Form builder: field validation and field store

A Dafny model of the logic of a small client-side form builder. The user
picks a field type, types a key and a label, and commits. The commit handler
validates the label against the type's rule, refuses a key that is already
defined, re-checks Number, Date and Boolean labels, and only then inserts the
field into the store and clears the three inputs. The store is a map from key
to field with three reducers: add a field, set its value, set its error.

- `wrappers.dfy` (module `Wrappers`): `Option`, for JavaScript's null/undefined.
- `form.dfy` (module `Form`, `src/store/form.ts`): `FieldType`, `Field`, and
  the class `FormState` whose methods are the reducers `addField`, `setValue`
  and `setError`, each updating the `fields` map in place.
- `validation.dfy` (module `Validation`, `src/components/FormBuilder.tsx:9-15, 35-66`):
  the three regular-expression tests, the rule map and `validateField`. The
  email regular expression is stated twice: as what it means (`IsEmailShaped`,
  a split into local part, `@`, domain, `.` and a top-level part), and as a
  decision procedure (`MatchesEmailPattern`, from the first `@` and the last
  `.` after it). A lemma proves the two agree.
- `form_builder.dfy` (module `FormBuilder`, `src/components/FormBuilder.tsx:17-25, 68-115`):
  the ordered list of the commit handler's checks (`CheckResults`), the
  first-failure-wins rule (`FirstFailure`), and the class `Builder`. It holds
  the component's `currentType`, `currentKey`, `currentLabel` and `error`
  state and the store. Its `HandleAddingField` method is proved against those
  functions.

The JavaScript engine's number and date parsing is not interpreted.
`JsRuntime` collects three opaque `string -> bool` functions: `parseFloat(s) >= 5`,
`isNaN(Number(s))` and `isNaN(Date.parse(s))`. Each operation that needs
them takes a `JsRuntime` as a parameter.

Three points of the code's behaviour that are easy to misread:
- The completeness test (type, key and label all non-empty) runs last, after
  every other check. So an empty input can still get an error message.
- `setValue` and `setError` on a missing key are a precondition (`requires key in fields`),
  not an error value. The reducer dereferences `undefined` there.
- No string can select the Email rule, because the enum has no Email member.
  Committing an "email" type is therefore handled like any other unknown type.

## Model

| member | source | states |
|---|---|---|
| Form.CastType | src/store/form.ts:3-8 | casting a string gives Number, String, Date or Boolean exactly for "number", "string", "date" or "boolean", and otherwise the unknown type carrying that same string; it never gives Email |
| Form.TypeName | src/store/form.ts:3-8 | the string value of each enum member, and the string itself for an unknown type |
| Form.CastTypeRoundTrip | src/store/form.ts:3-8 | the cast type still names the string it came from, for every string |
| Form.CastTypeInjective | src/store/form.ts:3-8 | two strings casting to the same type are equal |
| Form.NewField | src/store/form.ts:40-45 | the record `addField` stores: the given key, type and label, an empty value and no error |
| Form.FormState.constructor | src/store/form.ts:22-24 | the initial state has no fields and satisfies the key invariant |
| Form.FormState.AddField | src/store/form.ts:30-46 | the entry at key is overwritten unconditionally with that key, type and label, an empty value and no error; the key set gains key; every other entry is unchanged; the invariant "each field's key is its map key" is preserved |
| Form.FormState.SetValue | src/store/form.ts:47-55 | for a present key, only that field's value changes; key, type, label, error, the other entries and the key set are unchanged; the key invariant is preserved |
| Form.FormState.SetError | src/store/form.ts:56-64 | for a present key, only that field's error changes (to the given message); everything else is unchanged; the key invariant is preserved |
| Validation.StartsWithCapitalLetter | src/components/FormBuilder.tsx:11 | `/^[A-Z]/`: the label is non-empty and its first character is in A-Z |
| Validation.HasNoSpecialChars | src/components/FormBuilder.tsx:14 | `/^[a-zA-Z0-9 ]*$/`: every character is a letter, a digit or a space |
| Validation.IsEmailShaped | src/components/FormBuilder.tsx:12-13 | what the email regular expression matches: a non-empty local part over [a-zA-Z0-9._-], `@`, a non-empty domain over [a-zA-Z0-9.-], `.`, and 2 to 6 letters |
| Validation.MatchesEmailPattern | src/components/FormBuilder.tsx:12-13 | the email test as a decision procedure on the first `@` and the last `.` after it; proved equal to the regular expression by MatchesEmailPatternCorrect |
| Validation.IndexOf | src/components/FormBuilder.tsx:12-13 | the result is the index of the first occurrence of the character, or none exactly when it does not occur |
| Validation.LastIndexOf | src/components/FormBuilder.tsx:12-13 | the result is the index of the last occurrence of the character, or none exactly when it does not occur |
| Validation.IndexOfUnique | src/components/FormBuilder.tsx:12-13 | an occurrence of a character with none before it is the one the first-occurrence search returns |
| Validation.LastIndexOfUnique | src/components/FormBuilder.tsx:12-13 | an occurrence of a character with none after it is the one the last-occurrence search returns |
| Validation.FirstAt | src/components/FormBuilder.tsx:12-13 | in a local part followed by `@`, the first `@` is the one right after the local part |
| Validation.LastDot | src/components/FormBuilder.tsx:12-13 | in a domain followed by `.` and letters, the last `.` is the one right after the domain |
| Validation.MatchesEmailPatternSound | src/components/FormBuilder.tsx:12-13 | every string the decision procedure accepts splits as the email regular expression requires |
| Validation.MatchesEmailPatternComplete | src/components/FormBuilder.tsx:12-13 | every string built from a valid local part, `@`, domain, `.` and a 2-6 letter top level is accepted |
| Validation.MatchesEmailPatternCorrect | src/components/FormBuilder.tsx:12-13 | the email test accepts a string exactly when the regular expression matches it |
| Validation.Rule | src/components/FormBuilder.tsx:37-43 | the rule map: Number, String, Date and Email have a rule, and Boolean and the unknown types have none |
| Validation.ValidateField | src/components/FormBuilder.tsx:35-66 | validateField: every message it returns is one of its five fixed messages (the per-type lemmas below state which, and when) |
| Validation.ValidateStringField | src/components/FormBuilder.tsx:39-56 | a String label gets the capital-letter message exactly when it is empty or starts outside A-Z; it gets the special-characters message exactly when it starts with A-Z and has a character outside [A-Za-z0-9 ]; it passes exactly when neither holds |
| Validation.ValidateNumberField | src/components/FormBuilder.tsx:45-49 | a Number label passes exactly when parseFloat reads at least 5, else gets "Value must be at least 5." |
| Validation.ValidateDateField | src/components/FormBuilder.tsx:57-58 | a Date label passes exactly when Date.parse accepts it, else gets "Please enter a valid date." |
| Validation.ValidateEmailField | src/components/FormBuilder.tsx:60-61 | an Email label passes exactly when it has the local@domain.tld shape, else gets "Please enter a valid email address." |
| Validation.ValidateFieldWithoutRule | src/components/FormBuilder.tsx:37-64 | Boolean and every type without a rule accept any label, because no case of the switch matches them |
| Validation.StringExamples | src/components/FormBuilder.tsx:50-55 | "bob" and "" lack a capital, "Bob!" has a special character, "Bob 2" passes |
| Validation.EmailExampleAccepted | src/components/FormBuilder.tsx:12-13 | "x@y.com" passes as an Email label |
| Validation.EmailExampleRejected | src/components/FormBuilder.tsx:60-61 | "x@y.c", whose top level has one letter, gets the email message |
| FormBuilder.ToLowerCase | src/components/FormBuilder.tsx:96 | lowering keeps the length and lowers every character in place |
| FormBuilder.BooleanLiteralIgnoresCase | src/components/FormBuilder.tsx:94-96 | two labels that differ only in letter case are both boolean literals or both not |
| FormBuilder.IsBooleanLiteral | src/components/FormBuilder.tsx:94-96 | the label, lowered, is "true" or "false" |
| FormBuilder.BooleanLiteralExamples | src/components/FormBuilder.tsx:94-96 | "True", "TRUE" and "FaLsE" are boolean literals |
| FormBuilder.NonBooleanLiteralExamples | src/components/FormBuilder.tsx:94-96 | "yes", "" and "true " are not boolean literals |
| FormBuilder.KeyExistsAsWritten | src/components/FormBuilder.tsx:79 | the duplicate test as written: the key is in the store or names a property of `Object.prototype` |
| FormBuilder.KeyExists | src/components/FormBuilder.tsx:79 | the corrected duplicate test: the key is in the store |
| FormBuilder.InheritedNameIsReportedTaken | src/components/FormBuilder.tsx:79 | the lookup as written treats "toString" as a taken key in an empty store, though no field has that key |
| FormBuilder.CheckList | src/components/FormBuilder.tsx:69-100 | the handler's five checks in the order it runs them — validation, duplicate key, number coercion, date coercion, boolean literal — each giving its message or passing |
| FormBuilder.CheckResults | src/components/FormBuilder.tsx:69-100 | the five checks with the corrected duplicate test: the second check fails exactly when the key is in the store |
| FormBuilder.CheckResultsAsWritten | src/components/FormBuilder.tsx:69-100 | the five checks with the duplicate test as written: the second check fails exactly when the key is in the store or names a property of `Object.prototype` |
| FormBuilder.FirstFailure | src/components/FormBuilder.tsx:69-100 | the early returns: the error is the message of the first failing check, or none |
| FormBuilder.AllFilled | src/components/FormBuilder.tsx:102 | the completeness test: type, key and label are all non-empty |
| FormBuilder.InheritedNameCommitRefused | src/components/FormBuilder.tsx:68-82 | committing type "string", key "toString" and label "Bob" into an empty store is refused with "Key already exists" as written, and passes every check with the corrected duplicate test |
| FormBuilder.FirstFailureIsFirst | src/components/FormBuilder.tsx:69-100 | the commit has an error exactly when some check fails, and then it is the message of a failing check that only passing checks precede |
| FormBuilder.FirstFailureAt | src/components/FormBuilder.tsx:69-100 | a failing check that only passing checks precede decides the error |
| FormBuilder.ValidationFailureWins | src/components/FormBuilder.tsx:70-77 | when validation fails, its message is the error, whatever the later checks say |
| FormBuilder.DuplicateKeyRejected | src/components/FormBuilder.tsx:79-82 | with the corrected duplicate test, the error is "Key already exists" exactly when the label passes validation and the key is already in the store |
| FormBuilder.NumberLabelCoercion | src/components/FormBuilder.tsx:84-87 | a Number label of at least 5 under a fresh key is refused with the number-label message exactly when Number() cannot read it |
| FormBuilder.DateLabelCheckNeverFails | src/components/FormBuilder.tsx:89-92 | the date-label message is never the error, because validation already ran the same test on the same label |
| FormBuilder.BooleanLabelCoercion | src/components/FormBuilder.tsx:94-100 | a Boolean label under a fresh key is refused with the true-or-false message exactly when it is not "true" or "false" in some letter case |
| FormBuilder.UnknownTypeOnlyChecksKey | src/components/FormBuilder.tsx:70-100 | for a type outside the enum, the unset type "" included, the only check that can fail is the duplicate key |
| FormBuilder.EmptyLabelStillValidated | src/components/FormBuilder.tsx:102 | an empty String label gets the capital-letter error although the completeness test would insert nothing |
| FormBuilder.NumberScenarios | src/components/FormBuilder.tsx:84-87 | "10" passes as a Number label when both parsers accept it; "3" gets "Value must be at least 5." |
| FormBuilder.BooleanScenarios | src/components/FormBuilder.tsx:94-100 | "True" passes as a Boolean label; "yes" gets the true-or-false message |
| FormBuilder.StringLabelAccepted | src/components/FormBuilder.tsx:68-100 | "Bob 2" passes every check as a String label under a fresh key |
| FormBuilder.DuplicateKeyScenario | src/components/FormBuilder.tsx:68-115 | committing String field "e" with label "Bob 2" twice: the first commit inserts the field, the second is refused with "Key already exists" and the store and the key input keep their values (a String type stands in for Email, which no type string selects) |
| FormBuilder.Builder.constructor | src/components/FormBuilder.tsx:18-21 | the inputs start empty and the error null |
| FormBuilder.Builder.SetCurrentType | src/components/FormBuilder.tsx:128 | the dropdown sets the type input |
| FormBuilder.Builder.SetCurrentKey | src/components/FormBuilder.tsx:139 | the key field sets the key input |
| FormBuilder.Builder.SetCurrentLabel | src/components/FormBuilder.tsx:148 | the label field sets the label input |
| FormBuilder.Builder.HandleAddingField | src/components/FormBuilder.tsx:68-115 | the error is the message of the first failing check, in the order validation, duplicate key (the corrected duplicate test), number, date, boolean. On an error, or when some input is empty, the store and the inputs are unchanged. Otherwise exactly one entry is added, at a key the store did not have, with the cast type, the label, an empty value and no error, and the three inputs are cleared. The store's key invariant is preserved. |

## Left out

- The JSX markup (`src/components/FormBuilder.tsx:117-164`) is presentational only.
- The placeholder hook (`src/components/FormBuilder.tsx:27-33`) is a UI side effect. It shows "YYYY-MM-DD" for the Date type and nothing otherwise.
- `src/components/fields/InputField.tsx` only forwards the text field's value. It is modelled as the `SetCurrentKey` and `SetCurrentLabel` methods. The dropdown component is not part of this model.
- The Redux and React wiring is not modelled: `createSlice`, `useDispatch`, `useSelector` and Immer drafts. `dispatch(addField(...))` is a direct call of `FormState.AddField`.
- React applies a handler's state updates after it returns, so `HandleAddingField` sets `error` once at the end. It reads `fields` as it was when the handler was called.
- `parseFloat`, `Number()` and `Date.parse` are floating-point and engine-specific. They are the opaque fields of `JsRuntime`. So the model cannot tell which labels they accept, such as "5abc" for `parseFloat` but not for `Number()`.
- ToLowerCase: lowers only the ASCII letters, while JavaScript lowers all of Unicode. For the "true"/"false" test this is exact: no non-ASCII character lowercases to a letter of those words.
- Validation.ValidateField: type strings that name `Object.prototype` members are treated as having no rule. In the source the `ruleMap[type]` lookup finds the inherited method, and `__defineGetter__`, `__defineSetter__` and `__proto__` throw when called with no arguments: the first two reject a missing function argument, and `Object.prototype` is not callable. The dropdown only offers the four enum values, so no such string reaches the handler.
- Validation.Rule: `FieldType.Email` is not declared in the enum, so in the source the Email rule sits under the property name "undefined". For the type string "undefined" that rule runs, but no switch case matches, and the result is null. The model's `Other("undefined")` gives that same null. The `Email` variant gives the rule its intended meaning, and only direct calls of `ValidateField` reach it.
- Form.FormState.AddField: a field under the key "__proto__" would change the prototype of the JavaScript object, not add an entry. The map has no such special key.
- The reducers mutate the field object in place. The model replaces the map entry with an updated record. Immer's copy-on-write makes the two indistinguishable.

## Findings

| source | as written | input that shows it | evidently intended | confidence | as-written member | corrected member |
|---|---|---|---|---|---|---|
| src/components/FormBuilder.tsx:79 | `fields[currentKey] !== undefined` also finds the properties that `fields` inherits from `Object.prototype` | empty store, type "string", key "toString", label "Bob": the error is "Key already exists" | refuse only keys already defined in the store | medium, not executed | FormBuilder.InheritedNameCommitRefused | FormBuilder.DuplicateKeyRejected |

The model's `CheckResults` and `Builder.HandleAddingField` use the corrected test, `KeyExists`. The as-written test is `KeyExistsAsWritten`, and `CheckResultsAsWritten` is the check list built on it. `InheritedNameIsReportedTaken` shows the two tests disagree on "toString".
