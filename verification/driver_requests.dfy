/** Requests of many drivers, cancellations, administrators and the conversion of scheduled orders, interleaved write by
    write. */
module DriverRequests {
  import opened Model
  import opened DriverSlots

  /** What is left of one request. Only a driver's own requests have an owner. */
  datatype Thread = Thread(owner: Option<string>, todo: seq<Write>)

  datatype State = State(db: Db, threads: seq<Thread>)

  datatype Action =
    | CreateDriver(driver: string, status: DriverStatus)
    | CreateOrder(order: string, orderType: OrderType, scheduledAt: Option<int>)
    | EditOrder(order: string, orderType: OrderType, orderStatus: OrderStatus)
    | Start(driver: string, req: Request)
    | StartCancel(order: string)
    | StartRedispatch(order: string)
    | StartReset(driver: string)
    | StartConvert(order: string)
    | Next(thread: nat)

  /** What is asked of the environment: an order is made a scheduled one, at its creation or by an edit of the report
      (service/order_summary_service.go:222-270), only with a due time; a driver sends no request before the previous one
      is through. */
  datatype Rules = Rules(timed: bool, sequential: bool)

  const Strict := Rules(true, true)

  predicate Idling(s: State, driver: string) {
    forall i | 0 <= i < |s.threads| :: s.threads[i].owner == Some(driver) ==> s.threads[i].todo == []
  }

  predicate Enabled(s: State, a: Action, rules: Rules) {
    match a
    case CreateDriver(driver, _) => driver !in s.db.drivers
    case CreateOrder(order, orderType, scheduledAt) =>
      order !in s.db.orders && (rules.timed ==> Order(orderType, Waiting, None, scheduledAt).Timed())
    case EditOrder(order, orderType, status) =>
      order in s.db.orders && (rules.timed ==> s.db.orders[order].(orderType := orderType).Timed())
    case Start(driver, req) => Passes(s.db, driver, req) && (rules.sequential ==> Idling(s, driver))
    case StartCancel(order) =>
      order in s.db.orders
      && s.db.orders[order].status in {Waiting, ScheduleAccepted, Enroute, DriverArrived}
    case StartRedispatch(order) => order in s.db.orders
    case StartReset(_) => true
    case StartConvert(_) => true
    case Next(i) => i < |s.threads| && s.threads[i].todo != []
  }

  /** Cancelling frees the driver the order had when it was read, by the type it had then. */
  function CancelProgram(order: string, doc: Order): seq<Write> {
    [SetOrderStatus(order, Cancelled)]
    + match doc.assignee
      case None => []
      case Some(driver) => [SetStatus(driver, Idle), Release(driver, doc.orderType)]
  }

  function RedispatchProgram(order: string, doc: Order): seq<Write> {
    [Replace(order, doc.(status := Waiting, assignee := None))]
  }

  function Spawn(s: State, owner: Option<string>, todo: seq<Write>): State {
    s.(threads := s.threads + [Thread(owner, todo)])
  }

  function Apply(s: State, a: Action, rules: Rules): State
    requires Enabled(s, a, rules)
  {
    match a
    case CreateDriver(driver, status) =>
      s.(db := s.db.(drivers := s.db.drivers[driver := Driver(status, None, false, None, None)]))
    case CreateOrder(order, orderType, scheduledAt) =>
      s.(db := s.db.(orders := s.db.orders[order := Order(orderType, Waiting, None, scheduledAt)]))
    case EditOrder(order, orderType, status) =>
      var doc := s.db.orders[order];
      s.(db := s.db.(orders := s.db.orders[order := doc.(orderType := orderType, status := status)]))
    case Start(driver, req) => Spawn(s, Some(driver), Program(driver, req))
    case StartCancel(order) => Spawn(s, None, CancelProgram(order, s.db.orders[order]))
    case StartRedispatch(order) =>
      Spawn(s, None, RedispatchProgram(order, s.db.orders[order]))
    case StartReset(driver) => Spawn(s, None, [ResetAll(driver)])
    case StartConvert(order) => Spawn(s, None, [Convert(order)])
    case Next(i) =>
      var t := s.threads[i];
      var (db, ok) := DoWrite(s.db, t.todo[0]);
      State(db, s.threads[i := t.(todo := if ok then t.todo[1..] else [])])
  }

  const Initial := State(Db(map[], map[]), [])

  ghost predicate Runs(s: State, run: seq<Action>, rules: Rules)
    decreases |run|
  {
    run == [] || (Enabled(s, run[0], rules) && Runs(Apply(s, run[0], rules), run[1..], rules))
  }

  ghost function Final(s: State, run: seq<Action>, rules: Rules): State
    requires Runs(s, run, rules)
    decreases |run|
  {
    if run == [] then s else Final(Apply(s, run[0], rules), run[1..], rules)
  }

  // ----- The three schedule fields stay together

  ghost predicate AllTogether(db: Db) {
    forall d | d in db.drivers :: db.drivers[d].Together()
  }

  predicate TimedWrite(w: Write) {
    (w.SetSchedule? ==> w.time.Some?) && (w.Replace? ==> w.doc.Timed())
  }

  predicate TimedProgram(todo: seq<Write>) {
    forall k | 0 <= k < |todo| :: TimedWrite(todo[k])
  }

  ghost predicate TimedState(s: State) {
    && AllTogether(s.db)
    && (forall o | o in s.db.orders :: s.db.orders[o].Timed())
    && (forall i | 0 <= i < |s.threads| :: TimedProgram(s.threads[i].todo))
  }

  lemma WriteKeepsTimed(db: Db, w: Write)
    requires AllTogether(db) && (forall o | o in db.orders :: db.orders[o].Timed()) && TimedWrite(w)
    ensures var (db', _) := DoWrite(db, w); AllTogether(db') && forall o | o in db'.orders :: db'.orders[o].Timed()
  {
  }

  lemma ApplyKeepsTimed(s: State, a: Action, rules: Rules)
    requires TimedState(s) && Enabled(s, a, rules) && rules.timed
    ensures TimedState(Apply(s, a, rules))
  {
    if a.Next? {
      assert TimedProgram(s.threads[a.thread].todo);
      WriteKeepsTimed(s.db, s.threads[a.thread].todo[0]);
    }
  }

  lemma {:induction false} RunKeepsTimed(s: State, run: seq<Action>, rules: Rules)
    requires TimedState(s) && Runs(s, run, rules) && rules.timed
    ensures TimedState(Final(s, run, rules))
    decreases |run|
  {
    if run != [] {
      ApplyKeepsTimed(s, run[0], rules);
      RunKeepsTimed(Apply(s, run[0], rules), run[1..], rules);
    }
  }

  /** Main result: has_schedule, scheduled_time and current_order_schedule_id are set and cleared together in every
      reachable state, exactly if scheduled orders always have a due time. Requests need not even be sequential. */
  lemma FieldsStayTogether(rules: Rules)
    ensures (forall run | Runs(Initial, run, rules) :: AllTogether(Final(Initial, run, rules).db)) <==> rules.timed
  {
    if rules.timed {
      forall run | Runs(Initial, run, rules) ensures AllTogether(Final(Initial, run, rules).db) {
        RunKeepsTimed(Initial, run, rules);
      }
    } else {
      UntimedOrderSplitsFields(rules);
    }
  }

  lemma Leads(s: State, a: Action, s': State, rest: seq<Action>, rules: Rules)
    requires Enabled(s, a, rules) && Apply(s, a, rules) == s' && Runs(s', rest, rules)
    ensures Runs(s, [a] + rest, rules) && Final(s, [a] + rest, rules) == Final(s', rest, rules)
  {
    assert ([a] + rest)[1..] == rest;
  }

  const FreeDriver := Driver(Idle, None, false, None, None)

  /** Driver d has begun to accept scheduled order o, which has no due time. */
  function Splitting(taken: bool, todo: seq<Write>, done: bool): State {
    State(Db(map["d" := if done then Driver(Idle, None, true, None, Some("o")) else FreeDriver],
             map["o" := if taken then Order(Scheduled, ScheduleAccepted, Some("d"), None)
                        else Order(Scheduled, Waiting, None, None)]),
          [Thread(Some("d"), todo)])
  }

  lemma UntimedOrderIsAccepted(rules: Rules)
    ensures var todo := Program("d", AcceptScheduled("o", None));
            var end := Splitting(true, [], true);
            && Runs(Splitting(false, todo, false), [Next(0)] + ([Next(0)] + []), rules)
            && Final(Splitting(false, todo, false), [Next(0)] + ([Next(0)] + []), rules) == end
            && !AllTogether(end.db)
  {
    var todo := Program("d", AcceptScheduled("o", None));
    assert todo[1..] == [SetSchedule("d", "o", None)] && todo[1..][1..] == [];
    var end := Splitting(true, [], true);
    Leads(Splitting(true, todo[1..], false), Next(0), end, [], rules);
    Leads(Splitting(false, todo, false), Next(0), Splitting(true, todo[1..], false), [Next(0)] + [], rules);
    assert "d" in end.db.drivers && !end.db.drivers["d"].Together();
  }

  lemma UntimedOrderSplitsFields(rules: Rules)
    requires !rules.timed
    ensures exists run :: Runs(Initial, run, rules) && !AllTogether(Final(Initial, run, rules).db)
  {
    var drivers := map["d" := FreeDriver];
    var todo := Program("d", AcceptScheduled("o", None));
    var s1 := State(Db(drivers, map[]), []);
    var s2 := State(Db(drivers, map["o" := Order(Scheduled, Waiting, None, None)]), []);
    UntimedOrderIsAccepted(rules);
    var rest := [Next(0)] + ([Next(0)] + []);
    Leads(s2, Start("d", AcceptScheduled("o", None)), Splitting(false, todo, false), rest, rules);
    rest := [Start("d", AcceptScheduled("o", None))] + rest;
    Leads(s1, CreateOrder("o", Scheduled, None), s2, rest, rules);
    Leads(Initial, CreateDriver("d", Idle), s1, [CreateOrder("o", Scheduled, None)] + rest, rules);
  }

  // ----- The schedule slot only ever empties

  function Slot(db: Db, driver: string): Option<string> {
    if driver in db.drivers then db.drivers[driver].scheduleId else None
  }

  ghost predicate SlotsKept(before: Db, after: Db) {
    forall d :: Slot(before, d).Some? ==> Slot(after, d) == Slot(before, d) || Slot(after, d) == None
  }

  /** A pending fill of a slot is the last write of its owner's request. */
  predicate FillOk(t: Thread, k: nat)
    requires k < |t.todo|
  {
    t.todo[k].SetSchedule? ==> t.owner == Some(t.todo[k].driver) && k == |t.todo| - 1
  }

  ghost predicate ThreadOk(db: Db, t: Thread) {
    forall k: nat | k < |t.todo| ::
      FillOk(t, k) && (t.todo[k].SetSchedule? ==> Slot(db, t.todo[k].driver) == None)
  }

  ghost predicate SlotInv(s: State) {
    && (forall i | 0 <= i < |s.threads| :: ThreadOk(s.db, s.threads[i]))
    && (forall i, j | 0 <= i < j < |s.threads| && s.threads[i].owner.Some? && s.threads[i].owner == s.threads[j].owner ::
          s.threads[i].todo == [] || s.threads[j].todo == [])
  }

  lemma SpawnKeepsSlotInv(s: State, owner: Option<string>, todo: seq<Write>)
    requires SlotInv(s) && ThreadOk(s.db, Thread(owner, todo))
    requires owner.Some? ==> Idling(s, owner.value)
    ensures SlotInv(Spawn(s, owner, todo))
  {
  }

  /** A write that fills no slot leaves every empty slot empty. */
  lemma WriteKeepsEmpty(db: Db, w: Write, driver: string)
    requires Slot(db, driver) == None && (w.SetSchedule? ==> w.driver != driver)
    ensures Slot(DoWrite(db, w).0, driver) == None
  {
  }

  /** The write of one driver's request does not fill the slot another request is about to fill. */
  lemma NextKeepsThreadOk(s: State, i: nat, j: nat)
    requires SlotInv(s) && i < |s.threads| && s.threads[i].todo != [] && j < |s.threads|
    ensures var s' := Apply(s, Next(i), Strict); ThreadOk(s'.db, s'.threads[j])
  {
    var s' := Apply(s, Next(i), Strict);
    var w := s.threads[i].todo[0];
    var t := s.threads[j];
    assert ThreadOk(s.db, s.threads[i]) && ThreadOk(s.db, t);
    assert FillOk(s.threads[i], 0);
    forall k: nat | k < |s'.threads[j].todo|
      ensures FillOk(s'.threads[j], k)
              && (s'.threads[j].todo[k].SetSchedule? ==> Slot(s'.db, s'.threads[j].todo[k].driver) == None)
    {
      var m := if i == j then k + 1 else k;
      assert s'.threads[j].todo[k] == t.todo[m] && FillOk(t, m);
      if t.todo[m].SetSchedule? {
        assert w.SetSchedule? ==> w.driver != t.todo[m].driver;
        WriteKeepsEmpty(s.db, w, t.todo[m].driver);
      }
    }
  }

  lemma ApplyKeepsSlotInv(s: State, a: Action, rules: Rules)
    requires SlotInv(s) && Enabled(s, a, rules) && rules.sequential
    ensures SlotInv(Apply(s, a, rules))
  {
    match a
    case Start(driver, req) => SpawnKeepsSlotInv(s, Some(driver), Program(driver, req));
    case StartCancel(order) => SpawnKeepsSlotInv(s, None, CancelProgram(order, s.db.orders[order]));
    case StartRedispatch(order) =>
      SpawnKeepsSlotInv(s, None, RedispatchProgram(order, s.db.orders[order]));
    case StartReset(driver) => SpawnKeepsSlotInv(s, None, [ResetAll(driver)]);
    case StartConvert(order) => SpawnKeepsSlotInv(s, None, [Convert(order)]);
    case Next(i) =>
      forall j | 0 <= j < |s.threads| ensures var s' := Apply(s, a, rules); ThreadOk(s'.db, s'.threads[j]) {
        NextKeepsThreadOk(s, i, j);
      }
    case _ => EmptyDocumentKeepsSlotInv(s, a, rules);
  }

  lemma EmptyDocumentKeepsSlotInv(s: State, a: Action, rules: Rules)
    requires SlotInv(s) && Enabled(s, a, rules) && (a.CreateDriver? || a.CreateOrder? || a.EditOrder?)
    ensures SlotInv(Apply(s, a, rules))
  {
    var s' := Apply(s, a, rules);
    forall i | 0 <= i < |s'.threads| ensures ThreadOk(s'.db, s'.threads[i]) {
      assert ThreadOk(s.db, s.threads[i]);
      assert forall d | Slot(s.db, d) == None :: Slot(s'.db, d) == None;
    }
  }

  lemma {:induction false} RunKeepsSlotInv(s: State, run: seq<Action>, rules: Rules)
    requires SlotInv(s) && Runs(s, run, rules) && rules.sequential
    ensures SlotInv(Final(s, run, rules))
    decreases |run|
  {
    if run != [] {
      ApplyKeepsSlotInv(s, run[0], rules);
      RunKeepsSlotInv(Apply(s, run[0], rules), run[1..], rules);
    }
  }

  lemma StepKeepsSlots(s: State, a: Action, rules: Rules)
    requires SlotInv(s) && Enabled(s, a, rules)
    ensures SlotsKept(s.db, Apply(s, a, rules).db)
  {
    if a.Next? {
      assert ThreadOk(s.db, s.threads[a.thread]);
      assert FillOk(s.threads[a.thread], 0);
    }
  }

  /** Main result: whatever else goes on, no step replaces the order in a schedule slot by another, exactly if each driver's
      own requests are sequential. */
  lemma SlotsOnlyEmpty(rules: Rules)
    ensures (forall run, a | Runs(Initial, run, rules) && Enabled(Final(Initial, run, rules), a, rules) ::
               SlotsKept(Final(Initial, run, rules).db, Apply(Final(Initial, run, rules), a, rules).db))
            <==> rules.sequential
  {
    if rules.sequential {
      forall run, a | Runs(Initial, run, rules) && Enabled(Final(Initial, run, rules), a, rules)
        ensures SlotsKept(Final(Initial, run, rules).db, Apply(Final(Initial, run, rules), a, rules).db)
      {
        RunKeepsSlotInv(Initial, run, rules);
        StepKeepsSlots(Final(Initial, run, rules), a, rules);
      }
    } else {
      ParallelRequestsReplaceSlot(rules);
    }
  }

  /** Driver d accepts scheduled orders o and p at the same time; the numbers say how many writes each request has
      behind it. */
  function TwoAccepts(started: nat, first: nat, second: nat): State {
    var d := if second == 2 then Driver(Idle, None, true, Some(0), Some("p"))
             else if first == 2 then Driver(Idle, None, true, Some(0), Some("o")) else FreeDriver;
    State(Db(map["d" := d], map["o" := AcceptedIf(first > 0), "p" := AcceptedIf(second > 0)]),
          if started == 0 then []
          else if started == 1 then [Thread(Some("d"), Rest("o", first))]
          else [Thread(Some("d"), Rest("o", first)), Thread(Some("d"), Rest("p", second))])
  }

  function AcceptedIf(accepted: bool): Order {
    if accepted then Order(Scheduled, ScheduleAccepted, Some("d"), Some(0)) else Order(Scheduled, Waiting, None, Some(0))
  }

  function Rest(order: string, done: nat): seq<Write> {
    if done == 0 then Program("d", AcceptScheduled(order, Some(0)))
    else if done == 1 then [SetSchedule("d", order, Some(0))] else []
  }

  lemma RestShrinks(order: string, done: nat)
    requires done < 2
    ensures Rest(order, done) != [] && Rest(order, done)[1..] == Rest(order, done + 1)
  {
  }

  lemma FirstAcceptFinishes(rules: Rules)
    ensures Enabled(TwoAccepts(2, 1, 0), Next(0), rules)
    ensures Apply(TwoAccepts(2, 1, 0), Next(0), rules) == TwoAccepts(2, 2, 0)
  {
    RestShrinks("o", 1);
  }

  lemma SecondAcceptAssigns(rules: Rules)
    ensures Enabled(TwoAccepts(2, 2, 0), Next(1), rules)
    ensures Apply(TwoAccepts(2, 2, 0), Next(1), rules) == TwoAccepts(2, 2, 1)
  {
    RestShrinks("p", 0);
  }

  lemma FirstAcceptAssigns(rules: Rules)
    ensures Enabled(TwoAccepts(2, 0, 0), Next(0), rules)
    ensures Apply(TwoAccepts(2, 0, 0), Next(0), rules) == TwoAccepts(2, 1, 0)
  {
    RestShrinks("o", 0);
  }

  lemma TwoAcceptsInterleave(rules: Rules) returns (run: seq<Action>)
    ensures Runs(TwoAccepts(2, 0, 0), run, rules) && Final(TwoAccepts(2, 0, 0), run, rules) == TwoAccepts(2, 2, 1)
  {
    SecondAcceptAssigns(rules);
    Leads(TwoAccepts(2, 2, 0), Next(1), TwoAccepts(2, 2, 1), [], rules);
    run := [Next(1)] + [];
    FirstAcceptFinishes(rules);
    Leads(TwoAccepts(2, 1, 0), Next(0), TwoAccepts(2, 2, 0), run, rules);
    run := [Next(0)] + run;
    FirstAcceptAssigns(rules);
    Leads(TwoAccepts(2, 0, 0), Next(0), TwoAccepts(2, 1, 0), run, rules);
    run := [Next(0)] + run;
  }

  lemma TwoAcceptsStart(rules: Rules, rest: seq<Action>) returns (run: seq<Action>)
    requires !rules.sequential && Runs(TwoAccepts(2, 0, 0), rest, rules)
    ensures Runs(Initial, run, rules) && Final(Initial, run, rules) == Final(TwoAccepts(2, 0, 0), rest, rules)
  {
    var s1 := State(Db(map["d" := FreeDriver], map[]), []);
    var s2 := State(Db(map["d" := FreeDriver], map["o" := Order(Scheduled, Waiting, None, Some(0))]), []);
    Leads(TwoAccepts(1, 0, 0), Start("d", AcceptScheduled("p", Some(0))), TwoAccepts(2, 0, 0), rest, rules);
    run := [Start("d", AcceptScheduled("p", Some(0)))] + rest;
    Leads(TwoAccepts(0, 0, 0), Start("d", AcceptScheduled("o", Some(0))), TwoAccepts(1, 0, 0), run, rules);
    run := [Start("d", AcceptScheduled("o", Some(0)))] + run;
    Leads(s2, CreateOrder("p", Scheduled, Some(0)), TwoAccepts(0, 0, 0), run, rules);
    run := [CreateOrder("p", Scheduled, Some(0))] + run;
    Leads(s1, CreateOrder("o", Scheduled, Some(0)), s2, run, rules);
    run := [CreateOrder("o", Scheduled, Some(0))] + run;
    Leads(Initial, CreateDriver("d", Idle), s1, run, rules);
    run := [CreateDriver("d", Idle)] + run;
  }

  lemma ParallelRequestsReplaceSlot(rules: Rules)
    requires !rules.sequential
    ensures exists run, a :: Runs(Initial, run, rules) && Enabled(Final(Initial, run, rules), a, rules)
                             && !SlotsKept(Final(Initial, run, rules).db, Apply(Final(Initial, run, rules), a, rules).db)
  {
    var rest := TwoAcceptsInterleave(rules);
    var run := TwoAcceptsStart(rules, rest);
    var s := Final(Initial, run, rules);
    SecondFillReplaces(rules);
    assert !SlotsKept(s.db, Apply(s, Next(1), rules).db);
  }

  lemma SecondFillReplaces(rules: Rules)
    ensures Enabled(TwoAccepts(2, 2, 1), Next(1), rules)
    ensures !SlotsKept(TwoAccepts(2, 2, 1).db, Apply(TwoAccepts(2, 2, 1), Next(1), rules).db)
  {
    var s := TwoAccepts(2, 2, 1);
    assert Slot(s.db, "d") == Some("o") && Slot(Apply(s, Next(1), rules).db, "d") == Some("p");
  }

  // ----- What may change which slot

  datatype Side = ScheduleSlot | CurrentSlot

  /** The fields of one side; the other fields do not count. */
  function SideOf(d: Driver, side: Side): Driver {
    if side == ScheduleSlot then Driver(Idle, None, d.hasSchedule, d.scheduledTime, d.scheduleId)
    else Driver(Idle, d.currentOrder, false, None, None)
  }

  predicate Touches(w: Write, side: Side, driver: string) {
    || w == ResetAll(driver)
    || (side == ScheduleSlot && (w == ClearSchedule(driver) || (w.SetSchedule? && w.driver == driver)))
    || (side == CurrentSlot && w.SetCurrent? && w.driver == driver)
  }

  predicate Untouching(t: Thread, side: Side, driver: string) {
    forall k | 0 <= k < |t.todo| :: !Touches(t.todo[k], side, driver)
  }

  /** The action is no work of the driver on that side: for the schedule slot, no acceptance of a scheduled order, no
      completion or cancellation of one, and no reset; for the current order the same with instant orders. */
  predicate OtherWork(s: State, a: Action, side: Side, driver: string) {
    match a
    case Start(d, req) =>
      d == driver ==>
        && (side == ScheduleSlot ==> !req.AcceptScheduled? && (req.Complete? ==> req.doc.orderType != Scheduled))
        && (side == CurrentSlot ==> !req.Accept? && (req.Complete? ==> req.doc.orderType == Scheduled))
    case StartCancel(order) =>
      order in s.db.orders && s.db.orders[order].assignee == Some(driver) ==>
        (s.db.orders[order].orderType == Scheduled <==> side == CurrentSlot)
    case StartReset(d) => d != driver
    case CreateDriver(d, _) => d != driver
    case _ => true
  }

  ghost predicate OnlyOtherWork(s: State, run: seq<Action>, rules: Rules, side: Side, driver: string)
    requires Runs(s, run, rules)
    decreases |run|
  {
    run == [] || (OtherWork(s, run[0], side, driver) && OnlyOtherWork(Apply(s, run[0], rules), run[1..], rules, side, driver))
  }

  ghost predicate SideIdle(s: State, side: Side, driver: string) {
    driver in s.db.drivers && forall i | 0 <= i < |s.threads| :: Untouching(s.threads[i], side, driver)
  }

  lemma WriteSpares(db: Db, w: Write, side: Side, driver: string)
    requires driver in db.drivers && !Touches(w, side, driver)
    ensures var (db', _) := DoWrite(db, w);
            driver in db'.drivers && SideOf(db'.drivers[driver], side) == SideOf(db.drivers[driver], side)
  {
  }

  lemma StepSpares(s: State, a: Action, rules: Rules, side: Side, driver: string)
    requires Enabled(s, a, rules) && SideIdle(s, side, driver) && OtherWork(s, a, side, driver)
    ensures var s' := Apply(s, a, rules);
            SideIdle(s', side, driver) && SideOf(s'.db.drivers[driver], side) == SideOf(s.db.drivers[driver], side)
  {
    if a.Next? {
      NextSpares(s, a.thread, rules, side, driver);
    }
  }

  lemma NextSpares(s: State, i: nat, rules: Rules, side: Side, driver: string)
    requires Enabled(s, Next(i), rules) && SideIdle(s, side, driver)
    ensures var s' := Apply(s, Next(i), rules);
            SideIdle(s', side, driver) && SideOf(s'.db.drivers[driver], side) == SideOf(s.db.drivers[driver], side)
  {
    var todo := s.threads[i].todo;
    assert Untouching(s.threads[i], side, driver);
    WriteSpares(s.db, todo[0], side, driver);
    assert forall k | 0 <= k < |todo| - 1 :: todo[1..][k] == todo[k + 1];
  }

  /** Whatever is interleaved, and whatever the driver does with instant orders, completing them included, its schedule slot
      keeps its order; and whatever it does with scheduled orders, its current order stays. */
  lemma {:induction false} OtherWorkSparesSlot(s: State, run: seq<Action>, rules: Rules, side: Side, driver: string)
    requires Runs(s, run, rules) && SideIdle(s, side, driver) && OnlyOtherWork(s, run, rules, side, driver)
    ensures var t := Final(s, run, rules);
            driver in t.db.drivers && SideOf(t.db.drivers[driver], side) == SideOf(s.db.drivers[driver], side)
    decreases |run|
  {
    if run != [] {
      StepSpares(s, run[0], rules, side, driver);
      OtherWorkSparesSlot(Apply(s, run[0], rules), run[1..], rules, side, driver);
    }
  }

  // ----- What a cancellation and a reset do, undisturbed

  /** Cancelling an order that a driver has makes the driver idle and empties the slot of the order's type; the driver's other
      slot, and every other driver, stay as they are. */
  lemma CancellationFreesTheDriver(db: Db, order: string, driver: string)
    requires order in db.orders && driver in db.drivers && db.orders[order].assignee == Some(driver)
    ensures var (doc, before) := (db.orders[order], db.drivers[driver]);
            RunWrites(db, CancelProgram(order, doc))
            == Db(db.drivers[driver := if doc.orderType == Scheduled then Driver(Idle, before.currentOrder, false, None, None)
                                       else before.(status := Idle, currentOrder := None)],
                  db.orders[order := doc.(status := Cancelled)])
  {
    var doc := db.orders[order];
    var free := Release(driver, doc.orderType);
    assert CancelProgram(order, doc) == [SetOrderStatus(order, Cancelled), SetStatus(driver, Idle), free];
    RunThree(db, SetOrderStatus(order, Cancelled), SetStatus(driver, Idle), free);
    var cancelled := db.(orders := db.orders[order := doc.(status := Cancelled)]);
    assert DoWrite(db, SetOrderStatus(order, Cancelled)) == (cancelled, true);
    DriverIsFreed(cancelled, driver, doc.orderType);
  }

  lemma DriverIsFreed(db: Db, driver: string, orderType: OrderType)
    requires driver in db.drivers
    ensures RunWrites(db, [SetStatus(driver, Idle), Release(driver, orderType)])
            == db.(drivers := db.drivers[driver :=
                 if orderType == Scheduled then Driver(Idle, db.drivers[driver].currentOrder, false, None, None)
                 else db.drivers[driver].(status := Idle, currentOrder := None)])
  {
    var before := db.drivers[driver];
    var idle := before.(status := Idle);
    var freed := if orderType == Scheduled then Driver(Idle, before.currentOrder, false, None, None)
                 else idle.(currentOrder := None);
    RunTwo(db, SetStatus(driver, Idle), Release(driver, orderType));
    DriverWrite(db, SetStatus(driver, Idle), driver, idle);
    var db1 := db.(drivers := db.drivers[driver := idle]);
    if orderType == Scheduled {
      DriverWrite(db1, ClearSchedule(driver), driver, freed);
    } else {
      DriverWrite(db1, SetCurrent(driver, None), driver, freed);
    }
    assert db1.drivers[driver := freed] == db.drivers[driver := freed];
  }

  lemma DriverWrite(db: Db, w: Write, driver: string, after: Driver)
    requires driver in db.drivers
    requires (w == SetStatus(driver, Idle) && after == db.drivers[driver].(status := Idle))
             || (w == SetCurrent(driver, None) && after == db.drivers[driver].(currentOrder := None))
             || (w == ClearSchedule(driver)
                 && after == db.drivers[driver].(hasSchedule := false, scheduledTime := None, scheduleId := None))
    ensures DoWrite(db, w) == (db.(drivers := db.drivers[driver := after]), true)
  {
  }

  /** An order without a driver is only cancelled. */
  lemma CancellationWithoutDriver(db: Db, order: string)
    requires order in db.orders && db.orders[order].assignee == None
    ensures RunWrites(db, CancelProgram(order, db.orders[order]))
            == db.(orders := db.orders[order := db.orders[order].(status := Cancelled)])
  {
    var w := SetOrderStatus(order, Cancelled);
    assert CancelProgram(order, db.orders[order]) == [w] + [];
    RunFirst(db, w, []);
  }

  /** A redispatched order waits again without a driver; its type and due time, and all drivers, stay. */
  lemma RedispatchFreesTheOrder(db: Db, order: string)
    requires order in db.orders
    ensures var doc := db.orders[order];
            RunWrites(db, RedispatchProgram(order, doc))
            == db.(orders := db.orders[order := Order(doc.orderType, Waiting, None, doc.scheduledAt)])
  {
    var w := Replace(order, db.orders[order].(status := Waiting, assignee := None));
    RunFirst(db, w, []);
    assert RedispatchProgram(order, db.orders[order]) == [w] + [];
  }

  /** Orders are cancelled up to the driver's arrival, and converted only while they wait as scheduled ones. */
  lemma WhenOrdersChange(s: State, order: string, rules: Rules)
    requires order in s.db.orders
    ensures var doc := s.db.orders[order];
            && (Enabled(s, StartCancel(order), rules) <==>
                  doc.status != Executing && doc.status != Completed && doc.status != Cancelled
                  && doc.status != Failed && doc.status != SystemFailed)
            && DoWrite(s.db, Convert(order)).0.orders
               == if doc.status == Waiting && doc.orderType == Scheduled then s.db.orders[order := doc.(orderType := Instant)]
                  else s.db.orders
  {
  }

  /** An operator's reset leaves a driver idle with both slots empty, and touches nobody else. */
  lemma ResetEmptiesBothSlots(db: Db, driver: string)
    requires driver in db.drivers
    ensures RunWrites(db, [ResetAll(driver)]) == db.(drivers := db.drivers[driver := Driver(Idle, None, false, None, None)])
  {
    RunFirst(db, ResetAll(driver), []);
    assert [ResetAll(driver)] + [] == [ResetAll(driver)];
  }

  // ----- A conversion in the middle of a scheduled acceptance

  /** If the order is converted between the checks of AcceptScheduledOrder and its compare-and-set, the acceptance goes
      through, but completing the order later takes the instant branch: the driver's schedule slot still holds
      the completed order. Without the conversion the slot is empty again. */
  lemma ConversionDuringAcceptance(db: Db, driver: string, order: string, time: Option<int>, converted: bool)
    requires Passes(db, driver, AcceptScheduled(order, time))
    ensures var db1 := if converted then DoWrite(db, Convert(order)).0 else db;
            var db2 := RunWrites(db1, Program(driver, AcceptScheduled(order, time)));
            && order in db2.orders && db2.orders[order].assignee == Some(driver)
            && var db3 := RunWrites(db2, Program(driver, Complete(order, db2.orders[order])));
               && order in db3.orders && db3.orders[order].status == Completed
               && Slot(db3, driver) == if converted then Some(order) else None
  {
    var db1 := if converted then DoWrite(db, Convert(order)).0 else db;
    RunTwo(db1, Assign(order, Waiting, ScheduleAccepted, driver), SetSchedule(driver, order, time));
    var db2 := RunWrites(db1, Program(driver, AcceptScheduled(order, time)));
    RunComplete(db2, driver, order);
  }

  lemma RunComplete(db: Db, driver: string, order: string)
    requires order in db.orders
    ensures var doc := db.orders[order];
            var after := RunWrites(db, Program(driver, Complete(order, doc)));
            && after.orders == db.orders[order := doc.(status := Completed)]
            && Slot(after, driver) == if doc.orderType == Scheduled then None else Slot(db, driver)
  {
    var doc := db.orders[order];
    var free := Release(driver, doc.orderType);
    var rest := [SetStatus(driver, Idle), free, SetOrderStatus(order, Completed)];
    assert Program(driver, Complete(order, doc)) == [Replace(order, doc)] + rest;
    RunFirst(db, Replace(order, doc), rest);
    RunThree(DoWrite(db, Replace(order, doc)).0, SetStatus(driver, Idle), free, SetOrderStatus(order, Completed));
    RunTwo(DoWrite(DoWrite(db, Replace(order, doc)).0, SetStatus(driver, Idle)).0, free, SetOrderStatus(order, Completed));
  }
}
