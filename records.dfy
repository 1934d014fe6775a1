/** Values, records, tables and error kinds shared by every store.

    A store's contents is a table: a map from a record key to a record, and a
    record is a map from a field name to a value. The failures the stores raise
    are the four database error kinds plus the two Python runtime errors that
    the store operations can run into on a record of the wrong shape.
 */
module Records {

  /** The values the stores keep in a record: text (`description`, `type`,
      `status`), integers (`count`) and an order's contents, a map from an
      item name to a quantity. */
  datatype Value = Str(s: string) | Int(n: int) | Contents(quantities: map<string, int>)

  type Record = map<string, Value>

  type Table = map<string, Record>

  datatype Error =
    | ItemNotFound
    | ItemAlreadyExists
    | IllegalKey
      /** A take larger than the stock; carries the count that was available. */
    | InsufficientStock(available: int)
      /** Python's KeyError: the record lacks a field the operation reads. */
    | KeyError(field: string)
      /** Python's TypeError: a field has the wrong kind of value, or a
          keyword argument is passed twice. */
    | TypeError

  datatype Result<T> = Ok(value: T) | Err(error: Error)

  /** What a state-changing operation reports: it returned, or it raised. */
  datatype Outcome = Done | Failed(error: Error)

  /** A state-changing operation whose effect is described by `step` reported
      `r` and took the table from `before` to `after`: a failed step changes
      nothing. */
  ghost predicate Applied(step: Result<Table>, r: Outcome, before: Table, after: Table)
  {
    match step
    case Ok(t) => r == Done && after == t
    case Err(e) => r == Failed(e) && after == before
  }

  /** `after` is `before` with field `field` of record `key` set to `v`, and
      nothing else changed: same keys, the other records as they were, the
      other fields of `key` as they were. */
  ghost predicate FieldSet(before: Table, after: Table, key: string, field: string, v: Value)
  {
    key in before &&
    after.Keys == before.Keys &&
    after[key].Keys == before[key].Keys + {field} &&
    after[key][field] == v &&
    (forall f :: f in before[key] && f != field ==> after[key][f] == before[key][f]) &&
    (forall k :: k in before && k != key ==> after[k] == before[k])
  }

  /** The table `t` with field `field` of record `key` overwritten by `v`, as
      `data_[key][field] = v` does in place. */
  function SetField(t: Table, key: string, field: string, v: Value): (r: Table)
    requires key in t
    ensures FieldSet(t, r, key, field, v)
  {
    t[key := t[key][field := v]]
  }

  /** Overwriting a field and then writing back its old value restores the
      table. */
  lemma {:induction false} SetFieldRestore(t: Table, key: string, field: string, v: Value)
    requires key in t && field in t[key]
    ensures SetField(SetField(t, key, field, v), key, field, t[key][field]) == t
  {
    var r := t[key];
    assert r[field := v][field := r[field]] == r;
    assert t[key := r[field := v]][key := r] == t;
  }
}
