/** A driver's two slots: current_order_id for an instant order and the schedule slot (has_schedule, scheduled_time,
    current_order_schedule_id) for an accepted scheduled one (service/driver_service.go). A request is a short program of
    writes to single documents; between any two of them the writes of other requests may come. */
module DriverSlots {
  import opened Model

  /** Fields that are absent and fields that are null are both None; an absent has_schedule is false. */
  datatype Driver = Driver(status: DriverStatus, currentOrder: Option<string>,
                           hasSchedule: bool, scheduledTime: Option<int>, scheduleId: Option<string>)
  {
    /** The three schedule fields say the same. */
    predicate Together() {
      hasSchedule == scheduleId.Some? && scheduledTime.Some? == scheduleId.Some?
    }
  }

  datatype Order = Order(orderType: OrderType, status: OrderStatus, assignee: Option<string>, scheduledAt: Option<int>) {
    predicate Timed() {
      orderType == Scheduled ==> scheduledAt.Some?
    }
  }

  datatype Db = Db(drivers: map<string, Driver>, orders: map<string, Order>)

  /** One update of one document. */
  datatype Write =
    | Assign(order: string, from: OrderStatus, to: OrderStatus, driver: string)
    | Convert(order: string)
    | Replace(order: string, doc: Order)
    | SetOrderStatus(order: string, status: OrderStatus)
    | SetStatus(driver: string, driverStatus: DriverStatus)
    | SetCurrent(driver: string, current: Option<string>)
    | SetSchedule(driver: string, order: string, time: Option<int>)
    | ClearSchedule(driver: string)
    | ResetAll(driver: string)

  function UpdateDriver(db: Db, driver: string, update: Driver -> Driver): Db {
    if driver in db.drivers then db.(drivers := db.drivers[driver := update(db.drivers[driver])]) else db
  }

  /** The new contents and whether the program goes on: an order's update that matches no document stops it. */
  function DoWrite(db: Db, w: Write): (Db, bool) {
    match w
    case Assign(order, from, to, driver) =>
      if order in db.orders && db.orders[order].status == from then
        (db.(orders := db.orders[order := db.orders[order].(status := to, assignee := Some(driver))]), true)
      else (db, false)
    case Convert(order) =>
      if order in db.orders && db.orders[order].status == Waiting && db.orders[order].orderType == Scheduled then
        (db.(orders := db.orders[order := db.orders[order].(orderType := Instant)]), true)
      else (db, false)
    case Replace(order, doc) =>
      (if order in db.orders then db.(orders := db.orders[order := doc]) else db, true)
    case SetOrderStatus(order, status) =>
      if order in db.orders then (db.(orders := db.orders[order := db.orders[order].(status := status)]), true)
      else (db, false)
    case SetStatus(driver, status) => (UpdateDriver(db, driver, (d: Driver) => d.(status := status)), true)
    case SetCurrent(driver, current) => (UpdateDriver(db, driver, (d: Driver) => d.(currentOrder := current)), true)
    case SetSchedule(driver, order, time) =>
      (UpdateDriver(db, driver, (d: Driver) => d.(hasSchedule := true, scheduledTime := time, scheduleId := Some(order))), true)
    case ClearSchedule(driver) =>
      (UpdateDriver(db, driver, (d: Driver) => d.(hasSchedule := false, scheduledTime := None, scheduleId := None)), true)
    case ResetAll(driver) => (UpdateDriver(db, driver, (_: Driver) => Driver(Idle, None, false, None, None)), true)
  }

  /** A program nobody interrupts. */
  function RunWrites(db: Db, todo: seq<Write>): Db
    decreases |todo|
  {
    if todo == [] then db
    else
      var (next, ok) := DoWrite(db, todo[0]);
      if ok then RunWrites(next, todo[1..]) else next
  }

  lemma RunFirst(db: Db, w: Write, rest: seq<Write>)
    ensures RunWrites(db, [w] + rest) == if DoWrite(db, w).1 then RunWrites(DoWrite(db, w).0, rest) else DoWrite(db, w).0
  {
    assert ([w] + rest)[1..] == rest;
  }

  lemma RunTwo(db: Db, a: Write, b: Write)
    ensures RunWrites(db, [a, b]) == if DoWrite(db, a).1 then DoWrite(DoWrite(db, a).0, b).0 else DoWrite(db, a).0
  {
    RunFirst(db, a, [b]);
    RunFirst(DoWrite(db, a).0, b, []);
    assert [a] + [b] == [a, b] && [b] + [] == [b];
  }

  lemma RunThree(db: Db, a: Write, b: Write, c: Write)
    ensures RunWrites(db, [a, b, c]) == if DoWrite(db, a).1 then RunWrites(DoWrite(db, a).0, [b, c]) else DoWrite(db, a).0
  {
    RunFirst(db, a, [b, c]);
    assert [a] + [b, c] == [a, b, c];
  }

  // ----- Requests

  /** What a request carries from its own reads: the due time, or the order document as it was read. */
  datatype Request =
    | Accept(order: string)
    | AcceptScheduled(order: string, time: Option<int>)
    | Activate(order: string)
    | Arrive(order: string)
    | PickUp(order: string)
    | Complete(order: string, doc: Order)

  predicate InProgress(status: OrderStatus) {
    status == Enroute || status == DriverArrived || status == Executing
  }

  /** The checks a request makes before its first write. */
  predicate Passes(db: Db, driver: string, req: Request) {
    driver in db.drivers &&
    match req
    case Accept(_) => true
    case AcceptScheduled(order, time) =>
      order in db.orders && db.drivers[driver].scheduleId.None?
      && db.orders[order] == Order(Scheduled, Waiting, None, time)
    case Activate(order) =>
      && order in db.orders
      && db.orders[order] == Order(Scheduled, ScheduleAccepted, Some(driver), db.orders[order].scheduledAt)
      && var current := db.drivers[driver].currentOrder;
         !(current.Some? && current.value in db.orders && InProgress(db.orders[current.value].status))
    case Arrive(order) => order in db.orders
    case PickUp(_) => true
    case Complete(order, doc) => order in db.orders && doc == db.orders[order]
  }

  function Release(driver: string, orderType: OrderType): Write {
    if orderType == Scheduled then ClearSchedule(driver) else SetCurrent(driver, None)
  }

  function Program(driver: string, req: Request): seq<Write> {
    match req
    case Accept(order) =>
      [Assign(order, Waiting, Enroute, driver), SetStatus(driver, OnTheWay), SetCurrent(driver, Some(order))]
    case AcceptScheduled(order, time) =>
      [Assign(order, Waiting, ScheduleAccepted, driver), SetSchedule(driver, order, time)]
    case Activate(order) => [Assign(order, ScheduleAccepted, Enroute, driver), SetStatus(driver, OnTheWay)]
    case Arrive(order) => [SetStatus(driver, AtPickup), SetOrderStatus(order, DriverArrived)]
    case PickUp(order) => [SetStatus(driver, OnTrip), SetOrderStatus(order, Executing)]
    case Complete(order, doc) =>
      [Replace(order, doc), SetStatus(driver, Idle), Release(driver, doc.orderType), SetOrderStatus(order, Completed)]
  }

  // ----- The service

  /** The collections of drivers and orders, and the requests that update them. A driver's document is loaded before the
      request reaches the service, so it exists. */
  class DriverService {
    var db: Db

    constructor (db: Db)
      ensures this.db == db
    {
      this.db := db;
    }

    method Do(w: Write) returns (ok: bool)
      modifies this
      ensures (db, ok) == DoWrite(old(db), w)
    {
      var (next, matched) := DoWrite(db, w);
      db := next;
      ok := matched;
    }

    method UpdateDriverStatusType(id: string, status: DriverStatus)
      requires id in db.drivers
      modifies this
      ensures db == DoWrite(old(db), SetStatus(id, status)).0
    {
      if db.drivers[id].status == status {
        assert db.drivers == db.drivers[id := db.drivers[id].(status := status)];
        return;
      }
      var _ := Do(SetStatus(id, status));
    }

    method AcceptOrder(driver: string, orderID: string) returns (accepted: bool)
      requires driver in db.drivers
      modifies this
      ensures db == RunWrites(old(db), Program(driver, Accept(orderID)))
      ensures accepted <==> orderID in old(db.orders) && old(db.orders)[orderID].status == Waiting
      ensures accepted ==>
                && db.drivers == old(db.drivers)[driver := old(db.drivers)[driver].(status := OnTheWay, currentOrder := Some(orderID))]
                && db.orders == old(db.orders)[orderID := old(db.orders)[orderID].(status := Enroute, assignee := Some(driver))]
      ensures !accepted ==> db == old(db)
    {
      RunThree(db, Assign(orderID, Waiting, Enroute, driver), SetStatus(driver, OnTheWay), SetCurrent(driver, Some(orderID)));
      accepted := Do(Assign(orderID, Waiting, Enroute, driver));
      RunTwo(db, SetStatus(driver, OnTheWay), SetCurrent(driver, Some(orderID)));
      if accepted {
        UpdateDriverStatusType(driver, OnTheWay);
        var _ := Do(SetCurrent(driver, Some(orderID)));
      }
    }

    /** Without a due time the write still happens; after it the code dereferences the missing time. */
    method AcceptScheduledOrder(driver: string, orderID: string) returns (r: Result<()>)
      requires driver in db.drivers
      modifies this
      ensures var time := if orderID in old(db.orders) then old(db.orders)[orderID].scheduledAt else None;
              var req := AcceptScheduled(orderID, time);
              && db == (if Passes(old(db), driver, req) then RunWrites(old(db), Program(driver, req)) else old(db))
              && (r.Ok? <==> Passes(old(db), driver, req) && time.Some?)
      ensures r.Ok? <==>
                && orderID in old(db.orders) && old(db.orders)[orderID].scheduledAt.Some?
                && old(db.orders)[orderID] == Order(Scheduled, Waiting, None, old(db.orders)[orderID].scheduledAt)
                && old(db.drivers)[driver].scheduleId == None
      ensures r.Ok? ==>
                && db.drivers == old(db.drivers)[driver := old(db.drivers)[driver].(
                     hasSchedule := true, scheduledTime := old(db.orders)[orderID].scheduledAt, scheduleId := Some(orderID))]
                && db.orders == old(db.orders)[orderID :=
                     old(db.orders)[orderID].(status := ScheduleAccepted, assignee := Some(driver))]
    {
      if orderID !in db.orders {
        return Err;
      }
      var order := db.orders[orderID];
      if order.orderType != Scheduled || order.assignee.Some? || order.status != Waiting {
        return Err;
      }
      if db.drivers[driver].scheduleId.Some? {
        return Err;
      }
      RunTwo(db, Assign(orderID, Waiting, ScheduleAccepted, driver), SetSchedule(driver, orderID, order.scheduledAt));
      var matched := Do(Assign(orderID, Waiting, ScheduleAccepted, driver));
      if !matched {
        return Err;
      }
      var _ := Do(SetSchedule(driver, orderID, order.scheduledAt));
      return if order.scheduledAt.Some? then Ok(()) else Err;
    }

    method ActivateScheduledOrder(driver: string, orderID: string) returns (r: Result<()>)
      requires driver in db.drivers
      modifies this
      ensures r.Ok? <==> Passes(old(db), driver, Activate(orderID))
      ensures r.Ok? <==>
                && orderID in old(db.orders)
                && old(db.orders)[orderID].orderType == Scheduled && old(db.orders)[orderID].status == ScheduleAccepted
                && old(db.orders)[orderID].assignee == Some(driver)
                && forall c | c in old(db.orders) && old(db.drivers)[driver].currentOrder == Some(c) ::
                     old(db.orders)[c].status != Enroute && old(db.orders)[c].status != DriverArrived
                     && old(db.orders)[c].status != Executing
      ensures db == if r.Ok? then RunWrites(old(db), Program(driver, Activate(orderID))) else old(db)
      ensures r.Ok? ==>
                && db.drivers == old(db.drivers)[driver := old(db.drivers)[driver].(status := OnTheWay)]
                && db.orders == old(db.orders)[orderID := old(db.orders)[orderID].(status := Enroute, assignee := Some(driver))]
    {
      if orderID !in db.orders {
        return Err;
      }
      var order := db.orders[orderID];
      if order.orderType != Scheduled || order.status != ScheduleAccepted || order.assignee != Some(driver) {
        return Err;
      }
      var current := db.drivers[driver].currentOrder;
      if current.Some? && current.value in db.orders && InProgress(db.orders[current.value].status) {
        return Err;
      }
      RunTwo(db, Assign(orderID, ScheduleAccepted, Enroute, driver), SetStatus(driver, OnTheWay));
      var matched := Do(Assign(orderID, ScheduleAccepted, Enroute, driver));
      if !matched {
        return Err;
      }
      UpdateDriverStatusType(driver, OnTheWay);
      return Ok(());
    }

    method HandleDriverArrival(driver: string, orderID: string) returns (r: Result<()>)
      requires driver in db.drivers
      modifies this
      ensures r.Ok? <==> Passes(old(db), driver, Arrive(orderID))
      ensures db == if r.Ok? then RunWrites(old(db), Program(driver, Arrive(orderID))) else old(db)
      ensures r.Ok? ==>
                && db.drivers == old(db.drivers)[driver := old(db.drivers)[driver].(status := AtPickup)]
                && db.orders == old(db.orders)[orderID := old(db.orders)[orderID].(status := DriverArrived)]
    {
      if orderID !in db.orders {
        return Err;
      }
      RunTwo(db, SetStatus(driver, AtPickup), SetOrderStatus(orderID, DriverArrived));
      UpdateDriverStatusType(driver, AtPickup);
      var ok := Do(SetOrderStatus(orderID, DriverArrived));
      return if ok then Ok(()) else Err;
    }

    /** The driver's status moves first, and stays moved when the order does not exist. */
    method PickUpCustomer(driver: string, orderID: string) returns (r: Result<()>)
      requires driver in db.drivers
      modifies this
      ensures r.Ok? <==> orderID in old(db.orders)
      ensures db == RunWrites(old(db), Program(driver, PickUp(orderID)))
      ensures db.drivers == old(db.drivers)[driver := old(db.drivers)[driver].(status := OnTrip)]
      ensures db.orders == if r.Ok? then old(db.orders)[orderID := old(db.orders)[orderID].(status := Executing)] else old(db.orders)
    {
      RunTwo(db, SetStatus(driver, OnTrip), SetOrderStatus(orderID, Executing));
      UpdateDriverStatusType(driver, OnTrip);
      var ok := Do(SetOrderStatus(orderID, Executing));
      return if ok then Ok(()) else Err;
    }

    /** Completing an instant order empties current_order_id and leaves the schedule slot alone; completing a scheduled one
        does the opposite. */
    method CompleteOrder(driver: string, orderID: string) returns (r: Result<()>)
      requires driver in db.drivers
      modifies this
      ensures r.Ok? <==> orderID in old(db.orders)
      ensures r.Ok? ==>
                var (before, doc) := (old(db.drivers)[driver], old(db.orders)[orderID]);
                && db == RunWrites(old(db), Program(driver, Complete(orderID, doc)))
                && db.drivers == old(db.drivers)[driver :=
                     if doc.orderType == Scheduled then Driver(Idle, before.currentOrder, false, None, None)
                     else before.(status := Idle, currentOrder := None)]
                && db.orders == old(db.orders)[orderID := doc.(status := Completed)]
      ensures r.Err? ==> db == old(db)
    {
      if orderID !in db.orders {
        return Err;
      }
      var order := db.orders[orderID];
      ghost var free := Release(driver, order.orderType);
      RunFirst(db, Replace(orderID, order), [SetStatus(driver, Idle), free, SetOrderStatus(orderID, Completed)]);
      assert Program(driver, Complete(orderID, order))
          == [Replace(orderID, order)] + [SetStatus(driver, Idle), free, SetOrderStatus(orderID, Completed)];
      var _ := Do(Replace(orderID, order));
      RunThree(db, SetStatus(driver, Idle), free, SetOrderStatus(orderID, Completed));
      UpdateDriverStatusType(driver, Idle);
      RunTwo(db, free, SetOrderStatus(orderID, Completed));
      if order.orderType == Scheduled {
        var _ := Do(ClearSchedule(driver));
      } else {
        var _ := Do(SetCurrent(driver, None));
      }
      var ok := Do(SetOrderStatus(orderID, Completed));
      return if ok then Ok(()) else Err;
    }
  }
}
