/** The form builder component (src/components/FormBuilder.tsx:17-25 and
    68-115): the three input strings and the error message it holds, and
    the commit handler that checks the inputs in a fixed order and, when
    every check passes and every input is filled in, inserts the field into
    the store and clears the inputs. */
module FormBuilder {
  import opened Wrappers
  import opened Form
  import opened Validation

  const DuplicateKeyMessage := "Key already exists"
  const NumberLabelMessage := "Please enter a valid number for the label."
  const DateLabelMessage := "Please enter a valid date for the label."
  const BooleanLabelMessage := "Please enter either true or false for the label."

  /** String.prototype.toLowerCase on one character, for the ASCII letters. */
  function LowerChar(c: char): char
  {
    if 'A' <= c <= 'Z' then (c as int + 32) as char else c
  }

  /** String.prototype.toLowerCase: each character lowered in place. */
  function ToLowerCase(s: string): (r: string)
    ensures |r| == |s|
    ensures forall i | 0 <= i < |s| :: r[i] == LowerChar(s[i])
  {
    if s == [] then [] else [LowerChar(s[0])] + ToLowerCase(s[1..])
  }

  /** `["true", "false"].includes(label.toLowerCase())` */
  predicate IsBooleanLiteral(labelText: string)
  {
    ToLowerCase(labelText) in ["true", "false"]
  }

  /** Labels that differ only in letter case are both boolean literals or
      both not. */
  lemma BooleanLiteralIgnoresCase(s: string, s': string)
    requires |s| == |s'|
    requires forall i | 0 <= i < |s| :: LowerChar(s[i]) == LowerChar(s'[i])
    ensures IsBooleanLiteral(s) <==> IsBooleanLiteral(s')
  {
    assert ToLowerCase(s) == ToLowerCase(s');
  }

  /** Example labels: true and false pass in any letter case. */
  lemma BooleanLiteralExamples()
    ensures IsBooleanLiteral("True") && IsBooleanLiteral("TRUE") && IsBooleanLiteral("FaLsE")
  {
    assert ToLowerCase("true") == "true";
    assert ToLowerCase("false") == "false";
    BooleanLiteralIgnoresCase("True", "true");
    BooleanLiteralIgnoresCase("TRUE", "true");
    BooleanLiteralIgnoresCase("FaLsE", "false");
  }

  /** Example labels: "yes", the empty label and "true " with a trailing
      space are not boolean literals. */
  lemma NonBooleanLiteralExamples()
    ensures !IsBooleanLiteral("yes") && !IsBooleanLiteral("") && !IsBooleanLiteral("true ")
  {
    assert |ToLowerCase("yes")| == 3;
    assert ToLowerCase("true ")[0] == 't';
  }

  /** The set of names an empty JavaScript object literal already answers
      for: the properties of Object.prototype. */
  const ObjectPrototypeNames: set<string> := {
    "constructor", "hasOwnProperty", "isPrototypeOf", "propertyIsEnumerable",
    "toLocaleString", "toString", "valueOf", "__proto__",
    "__defineGetter__", "__defineSetter__", "__lookupGetter__", "__lookupSetter__"}

  /** `fields[currentKey] !== undefined` as written: the lookup also finds
      the properties fields inherits from Object.prototype. */
  predicate KeyExistsAsWritten(fields: map<string, Field>, key: string)
  {
    key in fields || key in ObjectPrototypeNames
  }

  /** The duplicate test the commit handler intends: key is already a key
      of fields. */
  predicate KeyExists(fields: map<string, Field>, key: string)
  {
    key in fields
  }

  /** With no field defined, the lookup as written still reports the key
      "toString" as taken, and a commit of it fails with "Key already
      exists". */
  lemma InheritedNameIsReportedTaken()
    ensures KeyExistsAsWritten(map[], "toString")
    ensures !KeyExists(map[], "toString")
  {
  }

  /** The verdicts of the commit handler's checks on the inputs, in the
      order it runs them: validation of the label, duplicate key, number
      coercion, date coercion and boolean literal, given the verdict of the
      duplicate-key lookup. None is a pass. */
  function CheckList(js: JsRuntime, typeName: string, labelText: string, keyTaken: bool): (r: seq<Option<string>>)
    ensures |r| == 5
  {
    var t := CastType(typeName);
    [ ValidateField(js, t, labelText),
      if keyTaken then Some(DuplicateKeyMessage) else None,
      if t == Number && js.numberIsNaN(labelText) then Some(NumberLabelMessage) else None,
      if t == Date && js.dateParseIsNaN(labelText) then Some(DateLabelMessage) else None,
      if t == Boolean && !IsBooleanLiteral(labelText) then Some(BooleanLabelMessage) else None ]
  }

  /** The checks with the corrected duplicate test, which the model uses. */
  function CheckResults(js: JsRuntime, typeName: string, key: string, labelText: string,
                        fields: map<string, Field>): (r: seq<Option<string>>)
    ensures |r| == 5
    ensures r[1] == (if key in fields then Some(DuplicateKeyMessage) else None)
  {
    CheckList(js, typeName, labelText, KeyExists(fields, key))
  }

  /** The checks with the duplicate test as written. */
  function CheckResultsAsWritten(js: JsRuntime, typeName: string, key: string, labelText: string,
                                 fields: map<string, Field>): (r: seq<Option<string>>)
    ensures |r| == 5
    ensures r[1] == (if key in fields || key in ObjectPrototypeNames then Some(DuplicateKeyMessage) else None)
  {
    CheckList(js, typeName, labelText, KeyExistsAsWritten(fields, key))
  }

  /** As written, committing type "string", key "toString" and label "Bob"
      into an empty store is refused with "Key already exists"; with the
      corrected test every check passes. */
  lemma InheritedNameCommitRefused(js: JsRuntime)
    ensures FirstFailure(CheckResultsAsWritten(js, "string", "toString", "Bob", map[])) == Some(DuplicateKeyMessage)
    ensures FirstFailure(CheckResults(js, "string", "toString", "Bob", map[])) == None
  {
    assert ValidateField(js, String, "Bob") == None by {
      assert forall i | 0 <= i < |"Bob"| :: IsPlainChar("Bob"[i]);
    }
    FirstFailureAt(CheckResultsAsWritten(js, "string", "toString", "Bob", map[]), 1);
    FirstFailureIsFirst(CheckResults(js, "string", "toString", "Bob", map[]));
  }

  /** The message of the first check that fails, if any. */
  function FirstFailure(checks: seq<Option<string>>): Option<string>
  {
    if checks == [] then None
    else if checks[0].Some? then checks[0]
    else FirstFailure(checks[1..])
  }

  /** FirstFailure reports a failure exactly when some check fails, and then
      the message of a failing check that only passing checks precede. */
  lemma {:induction false} FirstFailureIsFirst(checks: seq<Option<string>>)
    ensures FirstFailure(checks).None? <==> forall i | 0 <= i < |checks| :: checks[i].None?
    ensures FirstFailure(checks).Some? ==>
      exists i | 0 <= i < |checks| :: checks[i] == FirstFailure(checks) && forall j | 0 <= j < i :: checks[j].None?
  {
    if checks != [] && checks[0].None? {
      FirstFailureIsFirst(checks[1..]);
      if FirstFailure(checks).Some? {
        var i :| 0 <= i < |checks[1..]| && checks[1..][i] == FirstFailure(checks[1..])
          && forall j | 0 <= j < i :: checks[1..][j].None?;
        assert checks[i + 1] == FirstFailure(checks);
      }
    }
  }

  /** The k-th check decides the commit when it fails after every earlier
      one passed. */
  lemma FirstFailureAt(checks: seq<Option<string>>, k: nat)
    requires k < |checks| && checks[k].Some?
    requires forall j | 0 <= j < k :: checks[j].None?
    ensures FirstFailure(checks) == checks[k]
  {
    if k > 0 {
      FirstFailureAt(checks[1..], k - 1);
    }
  }

  /** All three inputs are filled in (each is a non-empty, truthy string). */
  predicate AllFilled(typeName: string, key: string, labelText: string)
  {
    typeName != "" && key != "" && labelText != ""
  }

  /** A failing validation decides the commit's error, whatever the later
      checks say. */
  lemma ValidationFailureWins(js: JsRuntime, typeName: string, key: string, labelText: string,
                              fields: map<string, Field>)
    requires ValidateField(js, CastType(typeName), labelText).Some?
    ensures FirstFailure(CheckResults(js, typeName, key, labelText, fields))
         == ValidateField(js, CastType(typeName), labelText)
  {
    FirstFailureAt(CheckResults(js, typeName, key, labelText, fields), 0);
  }

  /** A label that passes validation under a key already in the store is
      refused with "Key already exists"; and that message comes from no
      other check. */
  lemma DuplicateKeyRejected(js: JsRuntime, typeName: string, key: string, labelText: string,
                             fields: map<string, Field>)
    ensures FirstFailure(CheckResults(js, typeName, key, labelText, fields)) == Some(DuplicateKeyMessage)
        <==> ValidateField(js, CastType(typeName), labelText).None? && key in fields
  {
    var checks := CheckResults(js, typeName, key, labelText, fields);
    FirstFailureIsFirst(checks);
    if ValidateField(js, CastType(typeName), labelText).None? && key in fields {
      FirstFailureAt(checks, 1);
    }
  }

  /** A Number label that parseFloat reads as at least 5 under a fresh key
      is refused exactly when Number() cannot read all of it. */
  lemma NumberLabelCoercion(js: JsRuntime, key: string, labelText: string, fields: map<string, Field>)
    requires js.parseFloatAtLeastFive(labelText) && key !in fields
    ensures FirstFailure(CheckResults(js, "number", key, labelText, fields))
         == (if js.numberIsNaN(labelText) then Some(NumberLabelMessage) else None)
  {
    var checks := CheckResults(js, "number", key, labelText, fields);
    if js.numberIsNaN(labelText) {
      FirstFailureAt(checks, 2);
    } else {
      FirstFailureIsFirst(checks);
    }
  }

  /** The date coercion check repeats the test validation already made on
      the same label, so it never decides a commit. */
  lemma DateLabelCheckNeverFails(js: JsRuntime, typeName: string, key: string, labelText: string,
                                 fields: map<string, Field>)
    ensures FirstFailure(CheckResults(js, typeName, key, labelText, fields)) != Some(DateLabelMessage)
  {
    var checks := CheckResults(js, typeName, key, labelText, fields);
    FirstFailureIsFirst(checks);
  }

  /** A Boolean label under a fresh key is refused exactly when it is not
      true or false in some letter case; validation never refuses it. */
  lemma BooleanLabelCoercion(js: JsRuntime, key: string, labelText: string, fields: map<string, Field>)
    requires key !in fields
    ensures FirstFailure(CheckResults(js, "boolean", key, labelText, fields))
         == (if IsBooleanLiteral(labelText) then None else Some(BooleanLabelMessage))
  {
    var checks := CheckResults(js, "boolean", key, labelText, fields);
    if IsBooleanLiteral(labelText) {
      FirstFailureIsFirst(checks);
    } else {
      FirstFailureAt(checks, 4);
    }
  }

  /** Types outside the enum, the unset type "" among them, pass every check
      except the duplicate key check. */
  lemma UnknownTypeOnlyChecksKey(js: JsRuntime, typeName: string, key: string, labelText: string,
                                 fields: map<string, Field>)
    requires CastType(typeName).Other?
    ensures FirstFailure(CheckResults(js, typeName, key, labelText, fields))
         == (if key in fields then Some(DuplicateKeyMessage) else None)
  {
    var checks := CheckResults(js, typeName, key, labelText, fields);
    if key in fields {
      FirstFailureAt(checks, 1);
    } else {
      FirstFailureIsFirst(checks);
    }
  }

  /** The form builder's state: the type, key and label typed so far, the
      error shown, and the store it dispatches to. */
  class Builder {
    var currentType: string
    var currentKey: string
    var currentLabel: string
    var error: Option<string>
    const store: FormState

    /** The component's initial state: every input empty, no error. */
    constructor (store: FormState)
      ensures this.store == store
      ensures currentType == "" && currentKey == "" && currentLabel == "" && error == None
    {
      this.store := store;
      currentType, currentKey, currentLabel := "", "", "";
      error := None;
    }

    /** The dropdown's onChange: the type input becomes t. */
    method SetCurrentType(t: string)
      modifies this`currentType
      ensures currentType == t
    {
      currentType := t;
    }

    /** The key field's onChange. */
    method SetCurrentKey(k: string)
      modifies this`currentKey
      ensures currentKey == k
    {
      currentKey := k;
    }

    /** The label field's onChange. */
    method SetCurrentLabel(l: string)
      modifies this`currentLabel
      ensures currentLabel == l
    {
      currentLabel := l;
    }

    /** handleAddingField. The error becomes the message of the first check
        that fails, or none. On a failure, and when some input is empty,
        neither the store nor the inputs change. Otherwise exactly one
        entry, at a key the store did not have, is added, and the three
        inputs are cleared. */
    method HandleAddingField(js: JsRuntime)
      modifies this, store
      ensures error == FirstFailure(old(CheckResults(js, currentType, currentKey, currentLabel, store.fields)))
      ensures error.None? && old(AllFilled(currentType, currentKey, currentLabel)) ==>
        && old(currentKey) !in old(store.fields)
        && store.fields == old(store.fields)[old(currentKey) := NewField(old(currentKey), CastType(old(currentType)), old(currentLabel))]
        && currentType == "" && currentKey == "" && currentLabel == ""
      ensures error.Some? || !old(AllFilled(currentType, currentKey, currentLabel)) ==>
        && store.fields == old(store.fields)
        && currentType == old(currentType) && currentKey == old(currentKey) && currentLabel == old(currentLabel)
      ensures old(store.Valid()) ==> store.Valid()
    {
      ghost var checks := CheckResults(js, currentType, currentKey, currentLabel, store.fields);
      // setError(null) and the early returns: React applies the handler's
      // state updates once it returns, so the message is collected here.
      var message: Option<string> := None;
      var t := CastType(currentType);
      label commit: {
        var validationError := ValidateField(js, t, currentLabel);
        if validationError.Some? {
          message := validationError;
          FirstFailureAt(checks, 0);
          break commit;
        }
        if KeyExists(store.fields, currentKey) {
          message := Some(DuplicateKeyMessage);
          assert checks[0].None? && checks[1].Some?;
          FirstFailureAt(checks, 1);
          break commit;
        }
        if t == Number && js.numberIsNaN(currentLabel) {
          message := Some(NumberLabelMessage);
          FirstFailureAt(checks, 2);
          break commit;
        }
        if t == Date && js.dateParseIsNaN(currentLabel) {
          // Never taken: validation has already run this test on this label.
          message := Some(DateLabelMessage);
          break commit;
        }
        if t == Boolean && !IsBooleanLiteral(currentLabel) {
          message := Some(BooleanLabelMessage);
          FirstFailureAt(checks, 4);
          break commit;
        }
        FirstFailureIsFirst(checks);
        if AllFilled(currentType, currentKey, currentLabel) {
          store.AddField(currentKey, t, currentLabel);
          currentKey := "";
          currentLabel := "";
          currentType := "";
        }
      }
      error := message;
    }
  }

  /** "Bob 2" passes every check as a String label under a fresh key. */
  lemma StringLabelAccepted(js: JsRuntime, key: string, fields: map<string, Field>)
    requires key !in fields
    ensures FirstFailure(CheckResults(js, "string", key, "Bob 2", fields)) == None
  {
    StringExamples(js);
    FirstFailureIsFirst(CheckResults(js, "string", key, "Bob 2", fields));
  }

  /** Validation runs before the completeness test: an empty String label
      is refused for its missing capital although the commit would insert
      nothing anyway. */
  lemma EmptyLabelStillValidated(js: JsRuntime, key: string, fields: map<string, Field>)
    ensures FirstFailure(CheckResults(js, "string", key, "", fields)) == Some(CapitalMessage)
    ensures !AllFilled("string", key, "")
  {
    StringExamples(js);
    ValidationFailureWins(js, "string", key, "", fields);
  }

  /** Number labels: "10" is accepted when parseFloat reads at least 5 from
      it and Number() reads all of it; "3" is refused by validation. */
  lemma NumberScenarios(js: JsRuntime)
    requires js.parseFloatAtLeastFive("10") && !js.numberIsNaN("10")
    requires !js.parseFloatAtLeastFive("3")
    ensures FirstFailure(CheckResults(js, "number", "age", "10", map[])) == None
    ensures FirstFailure(CheckResults(js, "number", "age", "3", map[])) == Some(NumberMessage)
  {
    NumberLabelCoercion(js, "age", "10", map[]);
    ValidationFailureWins(js, "number", "age", "3", map[]);
  }

  /** Boolean labels: "True" is accepted, "yes" is refused. */
  lemma BooleanScenarios(js: JsRuntime)
    ensures FirstFailure(CheckResults(js, "boolean", "ok", "True", map[])) == None
    ensures FirstFailure(CheckResults(js, "boolean", "bad", "yes", map[])) == Some(BooleanLabelMessage)
  {
    BooleanLiteralExamples();
    BooleanLabelCoercion(js, "ok", "True", map[]);
    BooleanLabelCoercion(js, "bad", "yes", map[]);
  }

  /** Two commits of the same key: the first inserts the field, the second
      is refused with "Key already exists" and leaves the store and the
      inputs as they were. */
  method DuplicateKeyScenario(js: JsRuntime) returns (first: Option<string>, second: Option<string>,
                                                     stored: map<string, Field>, keyInput: string)
    ensures first == None && second == Some(DuplicateKeyMessage)
    ensures stored == map["e" := NewField("e", String, "Bob 2")]
    ensures keyInput == "e"
  {
    var store := new FormState();
    var builder := new Builder(store);
    builder.SetCurrentType("string");
    builder.SetCurrentKey("e");
    builder.SetCurrentLabel("Bob 2");
    StringLabelAccepted(js, "e", map[]);
    builder.HandleAddingField(js);
    first := builder.error;
    assert store.fields == map["e" := NewField("e", String, "Bob 2")];
    builder.SetCurrentType("string");
    builder.SetCurrentKey("e");
    builder.SetCurrentLabel("Bob 2");
    StringExamples(js);
    DuplicateKeyRejected(js, "string", "e", "Bob 2", store.fields);
    builder.HandleAddingField(js);
    second := builder.error;
    stored := store.fields;
    keyInput := builder.currentKey;
  }
}
