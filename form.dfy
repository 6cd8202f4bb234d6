/** The field store of the form builder (src/store/form.ts): the field
    types, the field record and the three reducers of the "form" slice,
    each applied directly to the state it updates in place. */
module Form {
  import opened Wrappers

  /** The kinds of field. Number, String, Date and Boolean are the members
      of the enum FieldType (src/store/form.ts:3-8). Email is the further
      kind the form builder's validator refers to, and Other(name) stands
      for any other string the form builder casts to FieldType (the unset
      type "" among them). */
  datatype FieldType = Number | String | Date | Boolean | Email | Other(name: string)

  /** The string value behind each enum member. */
  function TypeName(t: FieldType): string
    requires !t.Email?
  {
    match t
    case Number => "number"
    case String => "string"
    case Date => "date"
    case Boolean => "boolean"
    case Other(name) => name
  }

  /** `s as FieldType`: the enum member whose value is s, or Other(s). The
      enum declares no Email member, so no string casts to Email. */
  function CastType(s: string): (t: FieldType)
    ensures t == Number <==> s == "number"
    ensures t == String <==> s == "string"
    ensures t == Date <==> s == "date"
    ensures t == Boolean <==> s == "boolean"
    ensures t.Other? ==> t.name == s
    ensures !t.Email?
  {
    if s == "number" then Number
    else if s == "string" then String
    else if s == "date" then Date
    else if s == "boolean" then Boolean
    else Other(s)
  }

  /** The cast loses nothing: the stored type still names the string it came from. */
  lemma CastTypeRoundTrip(s: string)
    ensures TypeName(CastType(s)) == s
  {
  }

  /** A member's type is told apart from another string exactly when its value is. */
  lemma CastTypeInjective(s: string, s': string)
    requires CastType(s) == CastType(s')
    ensures s == s'
  {
    CastTypeRoundTrip(s);
    CastTypeRoundTrip(s');
  }

  /** One defined field. `error` is absent (None) until setError runs. */
  datatype Field = Field(key: string, fieldType: FieldType, labelText: string, value: string, error: Option<string>)

  /** The record addField stores: the given key, type and label, an empty
      value and no error. */
  function NewField(key: string, fieldType: FieldType, labelText: string): Field
  {
    Field(key, fieldType, labelText, "", None)
  }

  /** The slice state: the map from key to field. */
  class FormState {
    var fields: map<string, Field>

    /** Every stored field carries the key it is stored under. */
    ghost predicate Valid()
      reads this
    {
      forall k | k in fields :: fields[k].key == k
    }

    /** initialState: no fields. */
    constructor ()
      ensures fields == map[]
      ensures Valid()
    {
      fields := map[];
    }

    /** The addField reducer: insert, or overwrite unconditionally, the
        entry at key. */
    method AddField(key: string, fieldType: FieldType, labelText: string)
      modifies this
      ensures fields == old(fields)[key := NewField(key, fieldType, labelText)]
      ensures fields.Keys == old(fields.Keys) + {key}
      ensures fields[key].value == "" && fields[key].error.None?
      ensures forall k | k in old(fields) && k != key :: fields[k] == old(fields[k])
      ensures old(Valid()) ==> Valid()
    {
      fields := fields[key := NewField(key, fieldType, labelText)];
    }

    /** The setValue reducer: overwrite the value of the field at key. The
        key must be present; otherwise the reducer dereferences undefined. */
    method SetValue(key: string, value: string)
      requires key in fields
      modifies this
      ensures fields == old(fields)[key := old(fields[key]).(value := value)]
      ensures fields.Keys == old(fields.Keys)
      ensures fields[key].value == value
      ensures fields[key].key == old(fields[key].key) && fields[key].fieldType == old(fields[key].fieldType)
      ensures fields[key].labelText == old(fields[key].labelText) && fields[key].error == old(fields[key].error)
      ensures forall k | k in old(fields) && k != key :: fields[k] == old(fields[k])
      ensures old(Valid()) ==> Valid()
    {
      var field := fields[key];
      fields := fields[key := field.(value := value)];
    }

    /** The setError reducer: overwrite the error of the field at key. The
        key must be present; otherwise the reducer dereferences undefined. */
    method SetError(key: string, error: string)
      requires key in fields
      modifies this
      ensures fields == old(fields)[key := old(fields[key]).(error := Some(error))]
      ensures fields.Keys == old(fields.Keys)
      ensures fields[key].error == Some(error)
      ensures fields[key].key == old(fields[key].key) && fields[key].fieldType == old(fields[key].fieldType)
      ensures fields[key].labelText == old(fields[key].labelText) && fields[key].value == old(fields[key].value)
      ensures forall k | k in old(fields) && k != key :: fields[k] == old(fields[k])
      ensures old(Valid()) ==> Valid()
    {
      var field := fields[key];
      fields := fields[key := field.(error := Some(error))];
    }
  }
}
