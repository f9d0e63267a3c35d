/** The typed attribute store of an entity: a schema from attribute name to
    exact type, and the attribute values written so far. */
module Attributes {
  import opened Values

  type Schema = map<string, TypeTag>
  type Store = map<string, Value>

  /** Every stored key is declared and holds a value of exactly its declared type. */
  ghost predicate WellTyped(schema: Schema, attrs: Store) {
    forall k :: k in attrs ==> k in schema && TagOf(attrs[k]) == schema[k]
  }

  /** Writing `v` under `key`: refused for an undeclared key, then for a value
      whose exact type is not the declared one; otherwise the value overwrites. */
  function Set(schema: Schema, attrs: Store, key: string, v: Value): (r: Result<Store>)
    ensures r.Ok? <==> key in schema && TagOf(v) == schema[key]
    ensures key !in schema ==> r == Err(UnknownAttribute(key))
    ensures key in schema && TagOf(v) != schema[key] ==> r == Err(TypeMismatch(key, schema[key], TagOf(v)))
    // what was written reads back
    ensures r.Ok? ==> key in r.value && r.value[key] == v
    // no other key is touched
    ensures r.Ok? ==> forall k :: k != key ==> (k in r.value <==> k in attrs) && (k in attrs ==> r.value[k] == attrs[k])
    // the store stays well typed
    ensures r.Ok? && WellTyped(schema, attrs) ==> WellTyped(schema, r.value)
  {
    if key !in schema then Err(UnknownAttribute(key))
    else if TagOf(v) != schema[key] then Err(TypeMismatch(key, schema[key], TagOf(v)))
    else Ok(attrs[key := v])
  }

  /** Exact-type checking admits no subclass: a boolean is refused for an int attribute. */
  lemma BoolIsNotInt(schema: Schema, attrs: Store, key: string, b: bool)
    requires key in schema && schema[key] == IntT
    ensures Set(schema, attrs, key, Bool(b)) == Err(TypeMismatch(key, IntT, BoolT))
  {
  }

  /** A second write to the same key succeeds exactly when it has the same
      exact type as the first, and then leaves the store as if only it was made. */
  lemma SetOverwrites(schema: Schema, attrs: Store, key: string, v1: Value, v2: Value)
    requires Set(schema, attrs, key, v1).Ok?
    ensures Set(schema, Set(schema, attrs, key, v1).value, key, v2).Ok? <==> TagOf(v2) == TagOf(v1)
    ensures TagOf(v2) == TagOf(v1) ==> Set(schema, Set(schema, attrs, key, v1).value, key, v2) == Set(schema, attrs, key, v2)
  {
    if TagOf(v2) == TagOf(v1) {
      assert attrs[key := v1][key := v2] == attrs[key := v2];
    }
  }
}
