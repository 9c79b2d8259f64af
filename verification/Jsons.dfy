/** Parsed JSON, with object keys in the order they were written. */
module Jsons {
  import opened Options

  datatype Field = Field(key: string, value: Json)

  datatype Json = Null | Bool(b: bool) | Num(n: int) | Str(s: string) | Arr(items: seq<Json>) | Obj(fields: seq<Field>)

  function Lookup(fields: seq<Field>, key: string): Option<Json> {
    if fields == [] then None
    else if fields[0].key == key then Some(fields[0].value)
    else Lookup(fields[1..], key)
  }

  /** `node.key`, or nothing where that is undefined. */
  function Get(node: Json, key: string): Option<Json> {
    if node.Obj? then Lookup(node.fields, key) else None
  }

  /** `node[0]` */
  function First(node: Json): Option<Json> {
    if node.Arr? && node.items != [] then Some(node.items[0]) else None
  }

  function WithField(fields: seq<Field>, key: string, value: Json): seq<Field> {
    if fields == [] then [Field(key, value)]
    else if fields[0].key == key then [Field(key, value)] + fields[1..]
    else [fields[0]] + WithField(fields[1..], key, value)
  }

  /** `node.key = value`: in place if the key is there, at the end if not. */
  function Set(node: Json, key: string, value: Json): Json {
    if node.Obj? then Obj(WithField(node.fields, key, value)) else node
  }

  function WithoutField(fields: seq<Field>, key: string): seq<Field> {
    if fields == [] then [] else (if fields[0].key == key then [] else [fields[0]]) + WithoutField(fields[1..], key)
  }

  /** `delete node.key` */
  function Delete(node: Json, key: string): Json {
    if node.Obj? then Obj(WithoutField(node.fields, key)) else node
  }

  /** The `i`th field is the only one with its key up to there. */
  predicate FirstAt(fields: seq<Field>, i: nat, key: string) {
    i < |fields| && fields[i].key == key && forall j | 0 <= j < i :: fields[j].key != key
  }

  lemma {:induction false} LookupAt(fields: seq<Field>, i: nat, key: string)
    requires FirstAt(fields, i, key)
    ensures Lookup(fields, key) == Some(fields[i].value)
  {
    if i == 0 {
    } else {
      assert forall j | 0 <= j < i - 1 :: fields[1..][j] == fields[j + 1];
      LookupAt(fields[1..], i - 1, key);
    }
  }

  lemma {:induction false} LookupNone(fields: seq<Field>, key: string)
    requires forall j | 0 <= j < |fields| :: fields[j].key != key
    ensures Lookup(fields, key) == None
  {
    if fields == [] {
    } else {
      LookupNone(fields[1..], key);
    }
  }

  lemma {:induction false} WithFieldAt(fields: seq<Field>, i: nat, key: string, value: Json)
    requires FirstAt(fields, i, key)
    ensures WithField(fields, key, value) == fields[i := Field(key, value)]
  {
    if i == 0 {
    } else {
      assert forall j | 0 <= j < i - 1 :: fields[1..][j] == fields[j + 1];
      WithFieldAt(fields[1..], i - 1, key, value);
    }
  }

  /** A field that is set reads back, and the others stay. */
  lemma {:induction false} SetReads(fields: seq<Field>, key: string, value: Json, other: string)
    ensures Lookup(WithField(fields, key, value), other) == if other == key then Some(value) else Lookup(fields, other)
  {
    if fields == [] {
    } else {
      SetReads(fields[1..], key, value, other);
      if fields[0].key != key {
        assert WithField(fields, key, value)[1..] == WithField(fields[1..], key, value);
      } else {
        assert WithField(fields, key, value)[1..] == fields[1..];
      }
    }
  }
}
