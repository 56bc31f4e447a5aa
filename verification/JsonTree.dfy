/** The order-preserving JSON tree the economizer works on, and the accessors of jsonval.go.
    A number is an int32, or the spelling of any other number, which nothing here looks into. */
module JsonTree {
  import opened Basics

  datatype Num = Int32(n: int) | Spelled(text: string)

  datatype Field = Field(key: string, value: Json)

  datatype Json =
    | Null
    | False
    | True
    | Number(num: Num)
    | String(str: string)
    | Array(items: seq<Json>)
    | Object(fields: seq<Field>)

  /** The index of the first field with this key, or the number of fields. */
  function Find(fields: seq<Field>, key: string): (i: nat)
    ensures i <= |fields|
    ensures i < |fields| ==> fields[i].key == key
    ensures forall j | 0 <= j < i :: fields[j].key != key
  {
    if fields == [] || fields[0].key == key then 0 else 1 + Find(fields[1..], key)
  }

  function Get(v: Json, key: string): Option<Json> {
    if !v.Object? then None
    else
      var i := Find(v.fields, key);
      if i < |v.fields| then Some(v.fields[i].value) else None
  }

  /** The string at key, or "" when it is absent or no string. */
  function GetString(v: Json, key: string): string {
    match Get(v, key)
    case Some(String(s)) => s
    case _ => ""
  }

  /** `stringField`: the string at key, told apart from an absent one. */
  function StringField(v: Json, key: string): Option<string> {
    match Get(v, key)
    case Some(String(s)) => Some(s)
    case _ => None
  }

  /** The elements at key when there is an array there. */
  function GetItems(v: Json, key: string): Option<seq<Json>> {
    match Get(v, key)
    case Some(Array(items)) => Some(items)
    case _ => None
  }

  /** Replaces the value of the first field with this key, or appends a field. */
  function Set(v: Json, key: string, val: Json): Json {
    if !v.Object? then v
    else
      var i := Find(v.fields, key);
      if i < |v.fields| then Object(v.fields[i := Field(key, val)])
      else Object(v.fields + [Field(key, val)])
  }

  /** Drops the first field with this key. */
  function Delete(v: Json, key: string): Json {
    if !v.Object? then v
    else
      var i := Find(v.fields, key);
      if i < |v.fields| then Object(v.fields[..i] + v.fields[i + 1..]) else v
  }

  lemma FindUnique(fields: seq<Field>, key: string, i: nat)
    requires i <= |fields| && (i < |fields| ==> fields[i].key == key)
    requires forall j | 0 <= j < i :: fields[j].key != key
    ensures Find(fields, key) == i
  {
  }

  /** What is set is found again, and every other key is as it was. */
  lemma GetAfterSet(v: Json, key: string, val: Json, other: string)
    requires v.Object?
    ensures Get(Set(v, key, val), other) == if other == key then Some(val) else Get(v, other)
  {
    var w := Set(v, key, val);
    var i, k := Find(v.fields, key), Find(v.fields, other);
    if other == key {
      FindUnique(w.fields, key, i);
    } else {
      FindUnique(w.fields, other, if k < |v.fields| then k else |w.fields|);
    }
  }

  lemma GetAfterDelete(v: Json, key: string, other: string)
    requires v.Object? && other != key
    ensures Get(Delete(v, key), other) == Get(v, other)
  {
    var i, k := Find(v.fields, key), Find(v.fields, other);
    if i < |v.fields| {
      FindUnique(Delete(v, key).fields, other, if k < i then k else k - 1);
    }
  }
}
