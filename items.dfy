/** The item database: a keyed store whose records describe stocked items
    (`description`, `count`, `type`), with operations that add to and take
    from an item's count.
 */
module Items {
  import opened Records
  import KeyedStore

  /** The field names an item record may use. */
  const ItemKeys: set<string> := {"description", "count", "type"}

  /** Reading `count` of item `name` as an integer, with the failures that
      reading raises: no such item, no `count` field, or a `count` that is
      not an integer. */
  function CountOf(t: Table, name: string): (r: Result<int>)
    ensures name !in t ==> r == Err(ItemNotFound)
    ensures name in t && "count" !in t[name] ==> r == Err(KeyError("count"))
    ensures name in t && "count" in t[name] && !t[name]["count"].Int? ==> r == Err(TypeError)
    ensures r.Ok? <==> name in t && "count" in t[name] && t[name]["count"].Int?
    ensures r.Ok? ==> t[name]["count"] == Int(r.value)
  {
    if name !in t then Err(ItemNotFound)
    else if "count" !in t[name] then Err(KeyError("count"))
    else match t[name]["count"]
      case Int(n) => Ok(n)
      case _ => Err(TypeError)
  }

  /** Every item whose count is an integer has a count of at least zero. */
  ghost predicate CountsNonNegative(t: Table)
  {
    forall k :: k in t && CountOf(t, k).Ok? ==> CountOf(t, k).value >= 0
  }

  /** The effect of stocking `delta` more of `name`: its count grows by
      `delta`; nothing else changes. */
  function Stock(t: Table, name: string, delta: int): (r: Result<Table>)
    ensures r.Ok? <==> CountOf(t, name).Ok?
    ensures r.Err? ==> r.error == CountOf(t, name).error
    ensures r.Ok? ==>
              FieldSet(t, r.value, name, "count", Int(CountOf(t, name).value + delta)) &&
              CountOf(r.value, name) == Ok(CountOf(t, name).value + delta)
  {
    match CountOf(t, name)
    case Err(e) => Err(e)
    case Ok(c) => Ok(SetField(t, name, "count", Int(c + delta)))
  }

  /** The effect of taking `delta` of `name`: refused with the available
      count when `delta` exceeds it, otherwise the count shrinks by `delta`
      and stays at least zero; nothing else changes. */
  function Take(t: Table, name: string, delta: int): (r: Result<Table>)
    ensures CountOf(t, name).Err? ==> r == Err(CountOf(t, name).error)
    ensures CountOf(t, name).Ok? && delta > CountOf(t, name).value ==>
              r == Err(InsufficientStock(CountOf(t, name).value))
    ensures r.Ok? <==> CountOf(t, name).Ok? && delta <= CountOf(t, name).value
    ensures r.Ok? ==>
              FieldSet(t, r.value, name, "count", Int(CountOf(t, name).value - delta)) &&
              CountOf(r.value, name) == Ok(CountOf(t, name).value - delta) &&
              CountOf(r.value, name).value >= 0
  {
    match CountOf(t, name)
    case Err(e) => Err(e)
    case Ok(c) =>
      if delta > c then Err(InsufficientStock(c))
      else Ok(SetField(t, name, "count", Int(c - delta)))
  }

  /** The signed adjustment of the web handler: a non-negative amount is
      stocked, a negative one is taken as its absolute value. */
  function Adjust(t: Table, name: string, amount: int): (r: Result<Table>)
    ensures CountOf(t, name).Err? ==> r == Err(CountOf(t, name).error)
    ensures CountOf(t, name).Ok? && amount < 0 && -amount > CountOf(t, name).value ==>
              r == Err(InsufficientStock(CountOf(t, name).value))
    ensures r.Ok? <==> CountOf(t, name).Ok? && (amount >= 0 || -amount <= CountOf(t, name).value)
    ensures r.Ok? ==>
              FieldSet(t, r.value, name, "count", Int(CountOf(t, name).value + amount)) &&
              CountOf(r.value, name) == Ok(CountOf(t, name).value + amount)
  {
    if amount >= 0 then Stock(t, name, amount) else Take(t, name, -amount)
  }

  /** Stocking `delta` and then taking `delta` gives back the original table
      exactly when the original count was not negative; with a negative count
      the take is refused. */
  lemma {:induction false} StockThenTake(t: Table, name: string, delta: int)
    requires Stock(t, name, delta).Ok?
    ensures CountOf(t, name).value >= 0 ==> Take(Stock(t, name, delta).value, name, delta) == Ok(t)
    ensures CountOf(t, name).value < 0 ==>
              Take(Stock(t, name, delta).value, name, delta) ==
              Err(InsufficientStock(CountOf(t, name).value + delta))
  {
    var c := CountOf(t, name).value;
    if c >= 0 {
      SetFieldRestore(t, name, "count", Int(c + delta));
    }
  }

  /** One stock or take request. */
  datatype Request = Restock(name: string, amount: int) | Withdraw(name: string, amount: int)

  /** The table after one request; a refused request changes nothing. */
  function Apply(t: Table, q: Request): Table
  {
    var step := match q
      case Restock(n, d) => Stock(t, n, d)
      case Withdraw(n, d) => Take(t, n, d);
    if step.Ok? then step.value else t
  }

  /** The table after the requests of `qs`, in order. */
  function Run(t: Table, qs: seq<Request>): Table
    decreases |qs|
  {
    if qs == [] then t else Run(Apply(t, qs[0]), qs[1..])
  }

  /** A take, and a stock of a non-negative amount, keep every count at
      least zero. */
  lemma {:induction false} ApplyKeepsCountsNonNegative(t: Table, q: Request)
    requires CountsNonNegative(t)
    requires q.Restock? ==> q.amount >= 0
    ensures CountsNonNegative(Apply(t, q))
  {
    var t' := Apply(t, q);
    forall k | k in t' && CountOf(t', k).Ok?
      ensures CountOf(t', k).value >= 0
    {
      if k != q.name && t' != t {
        assert t'[k] == t[k];
        assert CountOf(t', k) == CountOf(t, k);
      }
    }
  }

  /** Starting from counts that are all at least zero, any sequence of takes
      and of non-negative stocks keeps them at least zero. */
  lemma {:induction false} RunKeepsCountsNonNegative(t: Table, qs: seq<Request>)
    requires CountsNonNegative(t)
    requires forall i :: 0 <= i < |qs| && qs[i].Restock? ==> qs[i].amount >= 0
    ensures CountsNonNegative(Run(t, qs))
    decreases |qs|
  {
    if qs != [] {
      ApplyKeepsCountsNonNegative(t, qs[0]);
      assert forall i :: 0 <= i < |qs[1..]| && qs[1..][i].Restock? ==> qs[1..][i].amount >= 0 by {
        forall i | 0 <= i < |qs[1..]| ensures qs[1..][i] == qs[i + 1] { }
      }
      RunKeepsCountsNonNegative(Apply(t, qs[0]), qs[1..]);
    }
  }

  /** A signed adjustment never drives a count below zero, whatever its sign. */
  lemma {:induction false} AdjustKeepsCountsNonNegative(t: Table, name: string, amount: int)
    requires CountsNonNegative(t)
    requires Adjust(t, name, amount).Ok?
    ensures CountsNonNegative(Adjust(t, name, amount).value)
  {
    var q := if amount >= 0 then Restock(name, amount) else Withdraw(name, -amount);
    ApplyKeepsCountsNonNegative(t, q);
    assert Apply(t, q) == Adjust(t, name, amount).value;
  }

  /** ToyAPI's `ItemDatabase`: a store restricted to item fields. */
  class ItemDatabase {
    const db: KeyedStore.Database

    constructor()
      ensures fresh(db) && db.allowedKeys == ItemKeys && db.data == map[]
    {
      db := new KeyedStore.Database(ItemKeys);
    }

    method StockItem(name: string, count: int := 1) returns (r: Outcome)
      modifies db
      ensures Applied(Stock(old(db.data), name, count), r, old(db.data), db.data)
    {
      if name !in db.data {
        return Failed(ItemNotFound);
      }
      var item := db.data[name];
      if "count" !in item {
        return Failed(KeyError("count"));
      }
      match item["count"]
      case Int(n) =>
        db.data := db.data[name := item["count" := Int(n + count)]];
        r := Done;
      case _ =>
        r := Failed(TypeError);
    }

    method TakeItem(name: string, count: int := 1) returns (r: Outcome)
      modifies db
      ensures Applied(Take(old(db.data), name, count), r, old(db.data), db.data)
    {
      if name !in db.data {
        return Failed(ItemNotFound);
      }
      var item := db.data[name];
      if "count" !in item {
        return Failed(KeyError("count"));
      }
      match item["count"]
      case Int(n) =>
        if count > n {
          r := Failed(InsufficientStock(n));
        } else {
          db.data := db.data[name := item["count" := Int(n - count)]];
          r := Done;
        }
      case _ =>
        r := Failed(TypeError);
    }

    /** The web handler's count update: stock a non-negative amount, take
        the absolute value of a negative one. */
    method AdjustCount(name: string, count: int) returns (r: Outcome)
      modifies db
      ensures Applied(Adjust(old(db.data), name, count), r, old(db.data), db.data)
    {
      if count >= 0 {
        r := StockItem(name, count);
      } else {
        r := TakeItem(name, -count);
      }
    }
  }
}
