/** The generic keyed store every database builds on: a table of records, a
    fixed set of allowed field names, lookup, insert, delete and a snapshot of
    the whole table.
 */
module KeyedStore {
  import opened Records

  /** The effect of inserting `fields` under `key`. Field names outside
      `allowed` are refused first, then an existing key; otherwise the fields
      are stored as given. Only a subset of the allowed names is demanded, not
      all of them. */
  function Insert(t: Table, allowed: set<string>, key: string, fields: Record): (r: Result<Table>)
    ensures !(fields.Keys <= allowed) ==> r == Err(IllegalKey)
    ensures fields.Keys <= allowed && key in t ==> r == Err(ItemAlreadyExists)
    ensures r.Ok? <==> fields.Keys <= allowed && key !in t
    ensures r.Ok? ==>
              r.value.Keys == t.Keys + {key} && r.value[key] == fields &&
              forall k :: k in t ==> r.value[k] == t[k]
  {
    if !(fields.Keys <= allowed) then Err(IllegalKey)
    else if key in t then Err(ItemAlreadyExists)
    else Ok(t[key := fields])
  }

  /** The effect of deleting `key`: it must be present, and exactly that key
      goes while every other record stays. */
  function Remove(t: Table, key: string): (r: Result<Table>)
    ensures r.Ok? <==> key in t
    ensures r.Err? ==> r.error == ItemNotFound
    ensures r.Ok? ==>
              r.value.Keys == t.Keys - {key} &&
              forall k :: k in r.value ==> r.value[k] == t[k]
  {
    if key !in t then Err(ItemNotFound) else Ok(t - {key})
  }

  /** Inserting under a fresh key and deleting that key gives back the table
      that was there before. */
  lemma {:induction false} InsertThenRemove(t: Table, allowed: set<string>, key: string, fields: Record)
    requires fields.Keys <= allowed && key !in t
    ensures Insert(t, allowed, key, fields).Ok?
    ensures Remove(Insert(t, allowed, key, fields).value, key) == Ok(t)
  {
    var t' := Insert(t, allowed, key, fields).value;
    assert t' - {key} == t;
  }

  /** After a successful insert the key is taken: a second insert of allowed
      fields under it fails with ItemAlreadyExists and the first record stays
      readable as it was stored. */
  lemma {:induction false} InsertTwice(t: Table, allowed: set<string>, key: string, fields: Record, again: Record)
    requires Insert(t, allowed, key, fields).Ok?
    requires again.Keys <= allowed
    ensures Insert(Insert(t, allowed, key, fields).value, allowed, key, again) == Err(ItemAlreadyExists)
    ensures Insert(t, allowed, key, fields).value[key] == fields
  {
  }

  /** The in-memory database: a table and the field names its records may use. */
  class Database {
    const allowedKeys: set<string>
    var data: Table

    constructor(allowed: set<string>)
      ensures allowedKeys == allowed && data == map[]
    {
      allowedKeys := allowed;
      data := map[];
    }

    /** The record stored under `key`; ItemNotFound when there is none. */
    method ItemInfo(key: string) returns (r: Result<Record>)
      ensures r.Err? <==> key !in data
      ensures r.Err? ==> r.error == ItemNotFound
      ensures r.Ok? ==> r.value == data[key]
    {
      if key !in data {
        r := Err(ItemNotFound);
      } else {
        r := Ok(data[key]);
      }
    }

    method AddItem(key: string, fields: Record) returns (r: Outcome)
      modifies this
      ensures Applied(Insert(old(data), allowedKeys, key, fields), r, old(data), data)
    {
      if !(fields.Keys <= allowedKeys) {
        return Failed(IllegalKey);
      }
      if key in data {
        r := Failed(ItemAlreadyExists);
      } else {
        data := data[key := fields];
        r := Done;
      }
    }

    method DeleteItem(key: string) returns (r: Outcome)
      modifies this
      ensures Applied(Remove(old(data), key), r, old(data), data)
    {
      if key !in data {
        r := Failed(ItemNotFound);
      } else {
        data := data - {key};
        r := Done;
      }
    }

    /** A snapshot of the whole table. In the model it is a value, so later
        changes to the store do not affect it. */
    method GetItemList() returns (snapshot: Table)
      ensures snapshot.Keys == data.Keys
      ensures forall k :: k in data ==> snapshot[k] == data[k]
    {
      snapshot := data;
    }
  }
}
