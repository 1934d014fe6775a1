/** The order database: a keyed store whose records are orders (`contents`,
    `status`). Creating an order forces its status to pending; cancelling and
    fulfilling overwrite the status whatever it was before.
 */
module Orders {
  import opened Records
  import KeyedStore

  /** The field names an order record may use. */
  const OrderKeys: set<string> := {"contents", "status"}

  const Pending: Value := Str("pending")
  const Cancelled: Value := Str("cancelled")
  const Delivered: Value := Str("delivered")

  /** One of the three statuses the order operations ever write. */
  predicate IsStatus(v: Value)
  {
    v == Pending || v == Cancelled || v == Delivered
  }

  /** Every stored order has a status, and it is one of the three. */
  ghost predicate StatusesValid(t: Table)
  {
    forall k :: k in t ==> "status" in t[k] && IsStatus(t[k]["status"])
  }

  /** The effect of creating order `name` from the caller's `fields`. The
      store is always called with `status` pending added, so a caller that
      passes `status` itself has the call refused (Python's TypeError for a
      keyword given twice) before any other check; then the keyed store's
      checks apply: only `contents` may remain, and the key must be new. */
  function Create(t: Table, name: string, fields: Record): (r: Result<Table>)
    ensures "status" in fields ==> r == Err(TypeError)
    ensures "status" !in fields && !(fields.Keys <= {"contents"}) ==> r == Err(IllegalKey)
    ensures "status" !in fields && fields.Keys <= {"contents"} && name in t ==>
              r == Err(ItemAlreadyExists)
    ensures r.Ok? <==> "status" !in fields && fields.Keys <= {"contents"} && name !in t
    ensures r.Ok? ==>
              r.value.Keys == t.Keys + {name} &&
              r.value[name].Keys == fields.Keys + {"status"} &&
              r.value[name]["status"] == Pending &&
              (forall f :: f in fields ==> r.value[name][f] == fields[f]) &&
              (forall k :: k in t ==> r.value[k] == t[k])
  {
    if "status" in fields then Err(TypeError)
    else
      var stored := fields["status" := Pending];
      assert stored.Keys == fields.Keys + {"status"};
      KeyedStore.Insert(t, OrderKeys, name, stored)
  }

  /** The effect of cancelling or fulfilling order `id`: the status is
      overwritten with `status` without looking at the one it replaces. */
  function SetStatus(t: Table, id: string, status: Value): (r: Result<Table>)
    ensures r.Ok? <==> id in t
    ensures r.Err? ==> r.error == ItemNotFound
    ensures r.Ok? ==> FieldSet(t, r.value, id, "status", status)
  {
    if id in t then Ok(SetField(t, id, "status", status)) else Err(ItemNotFound)
  }

  /** Only the last status written counts: setting one status and then
      another is the same as setting only the second. Cancelling a delivered
      order, or delivering a cancelled one, is allowed. */
  lemma {:induction false} LastStatusWins(t: Table, id: string, first: Value, second: Value)
    requires id in t
    ensures SetStatus(SetStatus(t, id, first).value, id, second) == SetStatus(t, id, second)
  {
    var once := SetStatus(t, id, second).value;
    var twice := SetStatus(SetStatus(t, id, first).value, id, second).value;
    assert twice[id] == once[id];
    assert twice == once;
  }

  /** Cancelling or fulfilling twice is the same as doing it once, and the
      key set never changes. */
  lemma {:induction false} SetStatusIdempotent(t: Table, id: string, status: Value)
    requires id in t
    ensures SetStatus(SetStatus(t, id, status).value, id, status) == SetStatus(t, id, status)
    ensures SetStatus(t, id, status).value.Keys == t.Keys
  {
    LastStatusWins(t, id, status, status);
  }

  /** One request on the order database. */
  datatype Request =
    | Place(name: string, fields: Record)
    | Cancel(id: string)
    | Fulfill(id: string)
    | Delete(id: string)

  /** The table after one request; a refused request changes nothing. */
  function Apply(t: Table, q: Request): Table
  {
    var step := match q
      case Place(n, f) => Create(t, n, f)
      case Cancel(id) => SetStatus(t, id, Cancelled)
      case Fulfill(id) => SetStatus(t, id, Delivered)
      case Delete(id) => KeyedStore.Remove(t, id);
    if step.Ok? then step.value else t
  }

  /** The table after the requests of `qs`, in order. */
  function Run(t: Table, qs: seq<Request>): Table
    decreases |qs|
  {
    if qs == [] then t else Run(Apply(t, qs[0]), qs[1..])
  }

  /** Each request keeps every stored status one of the three. */
  lemma {:induction false} ApplyKeepsStatuses(t: Table, q: Request)
    requires StatusesValid(t)
    ensures StatusesValid(Apply(t, q))
  {
    var t' := Apply(t, q);
    forall k | k in t'
      ensures "status" in t'[k] && IsStatus(t'[k]["status"])
    {
      if t' != t {
        match q
        case Place(n, f) =>
          if k != n { assert t'[k] == t[k]; }
        case Cancel(id) =>
          if k != id { assert t'[k] == t[k]; }
        case Fulfill(id) =>
          if k != id { assert t'[k] == t[k]; }
        case Delete(id) =>
          assert t'[k] == t[k];
      }
    }
  }

  /** Starting from an empty database, or any database whose statuses are
      all valid, every stored order's status stays pending, cancelled or
      delivered whatever requests follow. */
  lemma {:induction false} RunKeepsStatuses(t: Table, qs: seq<Request>)
    requires StatusesValid(t)
    ensures StatusesValid(Run(t, qs))
    decreases |qs|
  {
    if qs != [] {
      ApplyKeepsStatuses(t, qs[0]);
      RunKeepsStatuses(Apply(t, qs[0]), qs[1..]);
    }
  }

  /** ToyAPI's `OrderDatabase`. */
  class OrderDatabase {
    const db: KeyedStore.Database

    /** The store behind the orders only admits order fields, and every
        stored order has one of the three statuses. */
    ghost predicate Valid()
      reads db
    {
      db.allowedKeys == OrderKeys && StatusesValid(db.data)
    }

    constructor()
      ensures Valid() && fresh(db) && db.data == map[]
    {
      db := new KeyedStore.Database(OrderKeys);
    }

    method AddItem(name: string, fields: Record) returns (r: Outcome)
      requires Valid()
      modifies db
      ensures Valid()
      ensures Applied(Create(old(db.data), name, fields), r, old(db.data), db.data)
    {
      if "status" in fields {
        return Failed(TypeError);
      }
      ghost var before := db.data;
      r := db.AddItem(name, fields["status" := Pending]);
      ApplyKeepsStatuses(before, Place(name, fields));
    }

    method CancelOrder(id: string) returns (r: Outcome)
      requires Valid()
      modifies db
      ensures Valid()
      ensures Applied(SetStatus(old(db.data), id, Cancelled), r, old(db.data), db.data)
    {
      ghost var before := db.data;
      if id in db.data {
        db.data := db.data[id := db.data[id]["status" := Cancelled]];
        r := Done;
      } else {
        r := Failed(ItemNotFound);
      }
      ApplyKeepsStatuses(before, Cancel(id));
    }

    method FulfillOrder(id: string) returns (r: Outcome)
      requires Valid()
      modifies db
      ensures Valid()
      ensures Applied(SetStatus(old(db.data), id, Delivered), r, old(db.data), db.data)
    {
      ghost var before := db.data;
      if id in db.data {
        db.data := db.data[id := db.data[id]["status" := Delivered]];
        r := Done;
      } else {
        r := Failed(ItemNotFound);
      }
      ApplyKeepsStatuses(before, Fulfill(id));
    }

    /** The contents of order `id`: ItemNotFound for an unknown order,
        KeyError for an order stored without contents. */
    method GetContents(id: string) returns (r: Result<Value>)
      ensures id !in db.data ==> r == Err(ItemNotFound)
      ensures id in db.data && "contents" !in db.data[id] ==> r == Err(KeyError("contents"))
      ensures r.Ok? <==> id in db.data && "contents" in db.data[id]
      ensures r.Ok? ==> r.value == db.data[id]["contents"]
    {
      if id in db.data {
        if "contents" in db.data[id] {
          r := Ok(db.data[id]["contents"]);
        } else {
          r := Err(KeyError("contents"));
        }
      } else {
        r := Err(ItemNotFound);
      }
    }
  }
}
