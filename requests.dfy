/** The request database: the same schema and status handling as the order
    database, without the contents accessor. It reuses the order effects. */
module Requests {
  import opened Records
  import KeyedStore
  import Orders

  class RequestDatabase {
    const db: KeyedStore.Database

    /** The store behind the requests only admits order fields, and every
        stored request has one of the three statuses. */
    ghost predicate Valid()
      reads db
    {
      db.allowedKeys == Orders.OrderKeys && Orders.StatusesValid(db.data)
    }

    constructor()
      ensures Valid() && fresh(db) && db.data == map[]
    {
      db := new KeyedStore.Database(Orders.OrderKeys);
    }

    method AddItem(name: string, fields: Record) returns (r: Outcome)
      requires Valid()
      modifies db
      ensures Valid()
      ensures Applied(Orders.Create(old(db.data), name, fields), r, old(db.data), db.data)
    {
      if "status" in fields {
        return Failed(TypeError);
      }
      ghost var before := db.data;
      r := db.AddItem(name, fields["status" := Orders.Pending]);
      Orders.ApplyKeepsStatuses(before, Orders.Place(name, fields));
    }

    method CancelOrder(name: string) returns (r: Outcome)
      requires Valid()
      modifies db
      ensures Valid()
      ensures Applied(Orders.SetStatus(old(db.data), name, Orders.Cancelled), r, old(db.data), db.data)
    {
      ghost var before := db.data;
      if name in db.data {
        db.data := db.data[name := db.data[name]["status" := Orders.Cancelled]];
        r := Done;
      } else {
        r := Failed(ItemNotFound);
      }
      Orders.ApplyKeepsStatuses(before, Orders.Cancel(name));
    }

    method FulfillOrder(name: string) returns (r: Outcome)
      requires Valid()
      modifies db
      ensures Valid()
      ensures Applied(Orders.SetStatus(old(db.data), name, Orders.Delivered), r, old(db.data), db.data)
    {
      ghost var before := db.data;
      if name in db.data {
        db.data := db.data[name := db.data[name]["status" := Orders.Delivered]];
        r := Done;
      } else {
        r := Failed(ItemNotFound);
      }
      Orders.ApplyKeepsStatuses(before, Orders.Fulfill(name));
    }
  }
}
