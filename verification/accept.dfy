/** Concurrent AcceptOrder calls (service/driver_service.go) on shared order and driver documents, one database or
    Redis call per step, among everything else that writes those documents: status edits by the web interface and other
    requests, whole-document replacements with documents read earlier, redispatches, acceptance and activation of
    scheduled orders, deletions (service/order_service.go, controller/order_controller.go), cancellations and operators'
    resets of a driver. */
module Accept {
  import opened Model

  /** `stay` counts how often the order has come back to Waiting; no step reads it. */
  datatype OrderDoc = OrderDoc(status: OrderStatus, driver: Option<string>, stay: nat)

  datatype DriverDoc = DriverDoc(status: DriverStatus, currentOrder: Option<string>)

  /** How far a call has got: compare-and-set matched (during which stay), old driver status read, driver status
      in place, current order written. */
  datatype Pc = Started | Won(stay: nat) | StatusRead(stay: nat, before: DriverStatus) | StatusSet(stay: nat) | CurrentSet(stay: nat)

  /** idled and cleared record that somebody else has set the driver idle, or emptied its current order, since the
      call's own status read or write, and since its write of the current order. No step reads them. */
  datatype Call = Call(driver: string, order: string, pc: Pc, idled: bool, cleared: bool)

  /** An accept event, with what the driver's document says when it is published. */
  datatype Published = Published(order: string, driver: string, stay: nat, view: DriverDoc, idled: bool, cleared: bool)

  datatype Win = Win(order: string, stay: nat, driver: string)

  /** An order as some other request once read it. */
  datatype Copy = Copy(order: string, status: OrderStatus, driver: Option<string>)

  /** An activation that has passed its checks and not yet tried its compare-and-set. */
  datatype Activation = Activation(driver: string, order: string)

  datatype State = State(
    orders: map<string, OrderDoc>, drivers: map<string, DriverDoc>, calls: map<nat, Call>,
    copies: map<nat, Copy>, activations: set<Activation>, wins: seq<Win>, events: seq<Published>)

  datatype Action =
    | Start(id: nat, driver: string, order: string)
    | Cas(id: nat)
    | ReadStatus(id: nat)
    | WriteStatus(id: nat)
    | WriteCurrent(id: nat)
    | Publish(id: nat)
    | AcceptScheduled(driver: string, order: string)
    | CheckActivation(driver: string, order: string)
    | Activate(driver: string, order: string)
    | OwnRequest(driver: string, doc: DriverDoc)
    | SetStatus(order: string, status: OrderStatus)
    | ReadOrder(copy: nat, order: string)
    | Replace(copy: nat)
    | Redispatch(copy: nat)
    | Delete(order: string)
    | SetIdle(driver: string)
    | ClearCurrent(driver: string)

  /** What others may do to an order in the middle of an acceptance. While an acceptance of it is unpublished: bring it back
      to Waiting (reopen), or delete it (deletes). While its current stay has a winner: replace it by a document with
      another driver (stale), or activate it for another driver (late). */
  datatype Rules = Rules(reopen: bool, stale: bool, late: bool, deletes: bool)

  const Strict := Rules(false, false, false, false)

  /** A driver's own requests come one after the other. */
  predicate Busy(s: State, driver: string) {
    || (exists id | id in s.calls :: s.calls[id].driver == driver)
    || (exists a | a in s.activations :: a.driver == driver)
  }

  predicate Unpublished(s: State, order: string) {
    exists id | id in s.calls :: s.calls[id].order == order && s.calls[id].pc != Started
  }

  predicate HasWinner(s: State, order: string) {
    order in s.orders && exists w | w in s.wins :: w.order == order && w.stay == s.orders[order].stay
  }

  predicate Returns(s: State, order: string, status: OrderStatus) {
    order in s.orders && s.orders[order].status != Waiting && status == Waiting
  }

  predicate Allowed(s: State, a: Action, rules: Rules) {
    match a
    case SetStatus(order, status) => Returns(s, order, status) && Unpublished(s, order) ==> rules.reopen
    case Redispatch(k) =>
      k in s.copies && Returns(s, s.copies[k].order, Waiting) && Unpublished(s, s.copies[k].order) ==> rules.reopen
    case Replace(k) =>
      k in s.copies ==>
        var c := s.copies[k];
        if Returns(s, c.order, c.status) then Unpublished(s, c.order) ==> rules.reopen
        else HasWinner(s, c.order) && s.orders[c.order].driver != c.driver ==> rules.stale
    case Activate(driver, order) =>
      HasWinner(s, order) && s.orders[order].status == ScheduleAccepted && s.orders[order].driver != Some(driver)
      ==> rules.late
    case Delete(order) => Unpublished(s, order) ==> rules.deletes
    case _ => true
  }

  predicate Enabled(s: State, a: Action, rules: Rules) {
    Allowed(s, a, rules) &&
    match a
    case Start(id, driver, _) => id !in s.calls && driver in s.drivers && !Busy(s, driver)
    case Cas(id) => id in s.calls && s.calls[id].pc.Started?
    case ReadStatus(id) => id in s.calls && s.calls[id].pc.Won?
    case WriteStatus(id) => id in s.calls && s.calls[id].pc.StatusRead?
    case WriteCurrent(id) => id in s.calls && s.calls[id].pc.StatusSet?
    case Publish(id) => id in s.calls && s.calls[id].pc.CurrentSet?
    case AcceptScheduled(driver, order) => order in s.orders && s.orders[order].status == Waiting && !Busy(s, driver)
    case CheckActivation(driver, order) =>
      order in s.orders && s.orders[order].status == ScheduleAccepted && s.orders[order].driver == Some(driver)
      && !Busy(s, driver)
    case Activate(driver, order) => Activation(driver, order) in s.activations
    case OwnRequest(driver, _) => driver in s.drivers && !Busy(s, driver)
    case ReadOrder(_, order) => order in s.orders
    case Replace(k) => k in s.copies
    case Redispatch(k) => k in s.copies
    case SetIdle(driver) => driver in s.drivers
    case ClearCurrent(driver) => driver in s.drivers
    case _ => true
  }

  ghost predicate WellFormed(s: State) {
    forall id | id in s.calls :: s.calls[id].driver in s.drivers
  }

  /** Any update of one order document; without the document nothing is updated. */
  function Put(orders: map<string, OrderDoc>, order: string, status: OrderStatus, driver: Option<string>): map<string, OrderDoc> {
    if order !in orders then orders
    else
      var before := orders[order];
      orders[order := OrderDoc(status, driver,
                               if before.status != Waiting && status == Waiting then before.stay + 1 else before.stay)]
  }

  function Hit(calls: map<nat, Call>, driver: string, idled: bool, cleared: bool): map<nat, Call> {
    map id | id in calls ::
      if calls[id].driver != driver then calls[id]
      else calls[id].(idled := calls[id].idled || idled, cleared := calls[id].cleared || cleared)
  }

  function Apply(s: State, a: Action): State
    requires WellFormed(s) && Enabled(s, a, Rules(true, true, true, true))
  {
    match a
    case Start(id, driver, order) => s.(calls := s.calls[id := Call(driver, order, Started, false, false)])
    case Cas(id) =>
      var c := s.calls[id];
      if c.order !in s.orders || s.orders[c.order].status != Waiting then s.(calls := s.calls - {id})
      else
        var stay := s.orders[c.order].stay;
        s.(orders := Put(s.orders, c.order, Enroute, Some(c.driver)),
           calls := s.calls[id := c.(pc := Won(stay))],
           wins := s.wins + [Win(c.order, stay, c.driver)])
    case ReadStatus(id) =>
      var c := s.calls[id];
      s.(calls := s.calls[id := c.(pc := StatusRead(c.pc.stay, s.drivers[c.driver].status), idled := false)])
    case WriteStatus(id) =>
      var c := s.calls[id];
      if c.pc.before == OnTheWay then s.(calls := s.calls[id := c.(pc := StatusSet(c.pc.stay))])
      else s.(calls := s.calls[id := c.(pc := StatusSet(c.pc.stay), idled := false)],
              drivers := s.drivers[c.driver := s.drivers[c.driver].(status := OnTheWay)])
    case WriteCurrent(id) =>
      var c := s.calls[id];
      s.(drivers := s.drivers[c.driver := s.drivers[c.driver].(currentOrder := Some(c.order))],
         calls := s.calls[id := c.(pc := CurrentSet(c.pc.stay), cleared := false)])
    case Publish(id) =>
      var c := s.calls[id];
      s.(calls := s.calls - {id},
         events := s.events + [Published(c.order, c.driver, c.pc.stay, s.drivers[c.driver], c.idled, c.cleared)])
    case AcceptScheduled(driver, order) =>
      s.(orders := Put(s.orders, order, ScheduleAccepted, Some(driver)),
         wins := s.wins + [Win(order, s.orders[order].stay, driver)])
    case CheckActivation(driver, order) => s.(activations := s.activations + {Activation(driver, order)})
    case Activate(driver, order) =>
      var done := s.(activations := s.activations - {Activation(driver, order)});
      if order in s.orders && s.orders[order].status == ScheduleAccepted then
        done.(orders := Put(s.orders, order, Enroute, Some(driver)))
      else done
    case OwnRequest(driver, doc) => s.(drivers := s.drivers[driver := doc])
    case SetStatus(order, status) =>
      if order in s.orders then s.(orders := Put(s.orders, order, status, s.orders[order].driver)) else s
    case ReadOrder(k, order) =>
      s.(copies := s.copies[k := Copy(order, s.orders[order].status, s.orders[order].driver)])
    case Replace(k) => s.(orders := Put(s.orders, s.copies[k].order, s.copies[k].status, s.copies[k].driver))
    case Redispatch(k) => s.(orders := Put(s.orders, s.copies[k].order, Waiting, None))
    case Delete(order) => s.(orders := s.orders - {order})
    case SetIdle(driver) =>
      s.(drivers := s.drivers[driver := s.drivers[driver].(status := Idle)], calls := Hit(s.calls, driver, true, false))
    case ClearCurrent(driver) =>
      s.(drivers := s.drivers[driver := s.drivers[driver].(currentOrder := None)],
         calls := Hit(s.calls, driver, false, true))
  }

  /** A start: no requests under way, nothing won, orders unassigned. */
  ghost predicate Init(s: State) {
    && s.calls == map[] && s.copies == map[] && s.activations == {} && s.wins == [] && s.events == []
    && forall o | o in s.orders :: s.orders[o].driver == None
  }

  ghost predicate Runs(s: State, run: seq<Action>, rules: Rules)
    decreases |run|
  {
    run == [] || (WellFormed(s) && Enabled(s, run[0], rules) && Runs(Apply(s, run[0]), run[1..], rules))
  }

  ghost function Final(s: State, run: seq<Action>, rules: Rules): State
    requires Runs(s, run, rules)
    decreases |run|
  {
    if run == [] then s else Final(Apply(s, run[0]), run[1..], rules)
  }

  // ----- What holds in every state

  /** At most one caller wins each stay of each order. */
  ghost predicate OneWinnerPerStay(s: State) {
    forall i, j | 0 <= i < j < |s.wins| :: s.wins[i].order != s.wins[j].order || s.wins[i].stay != s.wins[j].stay
  }

  /** Wins are of past stays, or of the current one of an order that has left Waiting. */
  ghost predicate PastWins(s: State) {
    forall w | w in s.wins && w.order in s.orders ::
      var doc := s.orders[w.order];
      w.stay <= doc.stay && (w.stay == doc.stay ==> doc.status != Waiting)
  }

  ghost predicate CallOk(s: State, c: Call)
    requires c.driver in s.drivers
  {
    var doc := s.drivers[c.driver];
    && (c.pc != Started ==> Win(c.order, c.pc.stay, c.driver) in s.wins)
    && (c.pc.StatusRead? && c.pc.before == OnTheWay ==> (doc.status == OnTheWay <==> !c.idled))
    && (c.pc.StatusSet? || c.pc.CurrentSet? ==> (doc.status == OnTheWay <==> !c.idled))
    && (c.pc.CurrentSet? ==> (doc.currentOrder == Some(c.order) <==> !c.cleared))
  }

  /** An accept event names a winner; the winner's document shows the trip, and the order, exactly if nobody else has
      idled the driver, or cleared its order, since the call's own writes. */
  ghost predicate EventOk(s: State, e: Published) {
    && Win(e.order, e.stay, e.driver) in s.wins
    && (e.view.status == OnTheWay <==> !e.idled)
    && (e.view.currentOrder == Some(e.order) <==> !e.cleared)
  }

  ghost predicate Inv(s: State) {
    && WellFormed(s)
    && OneWinnerPerStay(s) && PastWins(s)
    && (forall id | id in s.calls :: CallOk(s, s.calls[id]))
    && (forall i, j | i in s.calls && j in s.calls && i != j :: s.calls[i].driver != s.calls[j].driver)
    && (forall e | e in s.events :: EventOk(s, e))
  }

  /** A step that records a win while the order is Waiting. */
  lemma WinKeepsWinners(s: State, s': State, order: string, driver: string, status: OrderStatus)
    requires OneWinnerPerStay(s) && PastWins(s)
    requires order in s.orders && s.orders[order].status == Waiting && status != Waiting
    requires s'.wins == s.wins + [Win(order, s.orders[order].stay, driver)]
    requires s'.orders == Put(s.orders, order, status, Some(driver))
    ensures OneWinnerPerStay(s') && PastWins(s')
  {
    assert forall w | w in s.wins && w.order == order :: w.stay != s.orders[order].stay;
    assert forall i | 0 <= i < |s.wins| :: s.wins[i] in s.wins;
  }

  /** Any other update of an order. */
  lemma PutKeepsPastWins(s: State, s': State, order: string, status: OrderStatus, driver: Option<string>)
    requires PastWins(s) && s'.wins == s.wins && s'.orders == Put(s.orders, order, status, driver)
    ensures PastWins(s')
  {
  }

  lemma CasKeepsInv(s: State, id: nat, rules: Rules)
    requires Inv(s) && Enabled(s, Cas(id), rules)
    ensures Inv(Apply(s, Cas(id)))
  {
    var s' := Apply(s, Cas(id));
    var c := s.calls[id];
    assert forall w | w in s.wins :: w in s'.wins;
    if c.order in s.orders && s.orders[c.order].status == Waiting {
      WinKeepsWinners(s, s', c.order, c.driver, Enroute);
    }
    forall j | j in s'.calls ensures CallOk(s', s'.calls[j]) {
      assert CallOk(s, s.calls[j]);
    }
  }

  lemma ScheduledKeepsInv(s: State, driver: string, order: string, rules: Rules)
    requires Inv(s) && Enabled(s, AcceptScheduled(driver, order), rules)
    ensures Inv(Apply(s, AcceptScheduled(driver, order)))
  {
    var s' := Apply(s, AcceptScheduled(driver, order));
    assert forall w | w in s.wins :: w in s'.wins;
    WinKeepsWinners(s, s', order, driver, ScheduleAccepted);
    forall j | j in s'.calls ensures CallOk(s', s'.calls[j]) {
      assert CallOk(s, s.calls[j]);
    }
  }

  predicate OrderStep(a: Action) {
    a.SetStatus? || a.Replace? || a.Redispatch? || a.Activate? || a.Delete? || a.ReadOrder? || a.CheckActivation?
  }

  lemma OrderStepKeepsInv(s: State, a: Action, rules: Rules)
    requires Inv(s) && Enabled(s, a, rules) && OrderStep(a)
    ensures Inv(Apply(s, a))
  {
    OrderStepKeepsPastWins(s, a, rules);
    OrderStepKeepsRest(s, a, rules);
    NothingElseKeepsInv(s, Apply(s, a));
  }

  lemma OrderStepKeepsRest(s: State, a: Action, rules: Rules)
    requires WellFormed(s) && Enabled(s, a, rules) && OrderStep(a)
    ensures var s' := Apply(s, a);
            s'.wins == s.wins && s'.events == s.events && s'.calls == s.calls && s'.drivers == s.drivers
  {
  }

  lemma NothingElseKeepsInv(s: State, s': State)
    requires Inv(s) && PastWins(s')
    requires s'.wins == s.wins && s'.events == s.events && s'.calls == s.calls && s'.drivers == s.drivers
    ensures Inv(s')
  {
    forall j | j in s'.calls ensures CallOk(s', s'.calls[j]) {
      assert CallOk(s, s.calls[j]);
    }
  }

  lemma OrderStepKeepsPastWins(s: State, a: Action, rules: Rules)
    requires Inv(s) && Enabled(s, a, rules) && OrderStep(a)
    ensures PastWins(Apply(s, a))
  {
    match a
    case SetStatus(order, status) =>
      if order in s.orders {
        PutKeepsPastWins(s, Apply(s, a), order, status, s.orders[order].driver);
      }
    case Replace(k) => PutKeepsPastWins(s, Apply(s, a), s.copies[k].order, s.copies[k].status, s.copies[k].driver);
    case Redispatch(k) => PutKeepsPastWins(s, Apply(s, a), s.copies[k].order, Waiting, None);
    case Activate(driver, order) =>
      if order in s.orders && s.orders[order].status == ScheduleAccepted {
        PutKeepsPastWins(s, Apply(s, a), order, Enroute, Some(driver));
      }
    case _ =>
  }

  /** A step of one call that writes nothing but its own driver's document. */
  lemma OneCallKeepsInv(s: State, s': State, id: nat, c: Call, doc: DriverDoc)
    requires Inv(s) && id in s.calls && c.driver == s.calls[id].driver && c.driver in s.drivers
    requires s'.orders == s.orders && s'.wins == s.wins && s'.events == s.events
    requires s'.drivers == s.drivers[c.driver := doc] && s'.calls == s.calls[id := c]
    requires CallOk(s', c)
    ensures Inv(s')
  {
    forall j | j in s'.calls ensures CallOk(s', s'.calls[j]) {
      assert j != id ==> CallOk(s, s.calls[j]) && s.calls[j].driver != c.driver;
    }
  }

  lemma DriverStepKeepsInv(s: State, a: Action, id: nat, rules: Rules)
    requires Inv(s) && Enabled(s, a, rules) && (a == ReadStatus(id) || a == WriteStatus(id) || a == WriteCurrent(id))
    ensures Inv(Apply(s, a))
  {
    var s' := Apply(s, a);
    var c := s'.calls[id];
    assert CallOk(s, s.calls[id]);
    assert s.drivers[c.driver := s.drivers[c.driver]] == s.drivers;
    OneCallKeepsInv(s, s', id, c, s'.drivers[c.driver]);
  }

  lemma PublishKeepsInv(s: State, id: nat, rules: Rules)
    requires Inv(s) && Enabled(s, Publish(id), rules)
    ensures Inv(Apply(s, Publish(id)))
  {
    var s' := Apply(s, Publish(id));
    assert CallOk(s, s.calls[id]);
    forall j | j in s'.calls ensures CallOk(s', s'.calls[j]) {
      assert CallOk(s, s.calls[j]);
    }
  }

  lemma SetIdleKeepsInv(s: State, driver: string, rules: Rules)
    requires Inv(s) && Enabled(s, SetIdle(driver), rules)
    ensures Inv(Apply(s, SetIdle(driver)))
  {
    var s' := Apply(s, SetIdle(driver));
    forall j | j in s'.calls ensures CallOk(s', s'.calls[j]) {
      assert CallOk(s, s.calls[j]);
    }
  }

  lemma ClearCurrentKeepsInv(s: State, driver: string, rules: Rules)
    requires Inv(s) && Enabled(s, ClearCurrent(driver), rules)
    ensures Inv(Apply(s, ClearCurrent(driver)))
  {
    var s' := Apply(s, ClearCurrent(driver));
    forall j | j in s'.calls ensures CallOk(s', s'.calls[j]) {
      assert CallOk(s, s.calls[j]);
    }
  }

  lemma OwnStepKeepsInv(s: State, a: Action, rules: Rules)
    requires Inv(s) && Enabled(s, a, rules) && (a.Start? || a.OwnRequest?)
    ensures Inv(Apply(s, a))
  {
    var s' := Apply(s, a);
    assert s'.wins == s.wins && s'.events == s.events && s'.orders == s.orders;
    forall j | j in s'.calls ensures CallOk(s', s'.calls[j]) {
      if j in s.calls {
        assert CallOk(s, s.calls[j]);
      }
    }
  }

  lemma ApplyKeepsInv(s: State, a: Action, rules: Rules)
    requires Inv(s) && Enabled(s, a, rules)
    ensures Inv(Apply(s, a))
  {
    match a
    case Start(_, _, _) => OwnStepKeepsInv(s, a, rules);
    case Cas(id) => CasKeepsInv(s, id, rules);
    case ReadStatus(id) => DriverStepKeepsInv(s, a, id, rules);
    case WriteStatus(id) => DriverStepKeepsInv(s, a, id, rules);
    case WriteCurrent(id) => DriverStepKeepsInv(s, a, id, rules);
    case Publish(id) => PublishKeepsInv(s, id, rules);
    case AcceptScheduled(driver, order) => ScheduledKeepsInv(s, driver, order, rules);
    case OwnRequest(_, _) => OwnStepKeepsInv(s, a, rules);
    case SetIdle(driver) => SetIdleKeepsInv(s, driver, rules);
    case ClearCurrent(driver) => ClearCurrentKeepsInv(s, driver, rules);
    case _ => OrderStepKeepsInv(s, a, rules);
  }

  lemma {:induction false} RunKeepsInv(s: State, run: seq<Action>, rules: Rules)
    requires Inv(s) && Runs(s, run, rules)
    ensures Inv(Final(s, run, rules))
    decreases |run|
  {
    if run != [] {
      ApplyKeepsInv(s, run[0], rules);
      RunKeepsInv(Apply(s, run[0]), run[1..], rules);
    }
  }

  // ----- Winners and assigned drivers

  /** An order whose current stay has a winner is assigned to that winner. */
  ghost predicate WinnerIsAssigned(s: State) {
    forall w | w in s.wins && w.order in s.orders && s.orders[w.order].stay == w.stay ::
      s.orders[w.order].driver == Some(w.driver)
  }

  /** An order with an unpublished acceptance still exists and is in the stay that was won. */
  ghost predicate StillCurrent(s: State) {
    forall id | id in s.calls && s.calls[id].pc != Started ::
      s.calls[id].order in s.orders && s.orders[s.calls[id].order].stay == s.calls[id].pc.stay
  }

  /** A write to an order that has a winner keeps the winner, brings the order back to Waiting, or is against the rules. */
  lemma OrderStepKeepsWinner(s: State, a: Action, rules: Rules, w: Win)
    requires Inv(s) && WinnerIsAssigned(s) && Enabled(s, a, rules) && OrderStep(a) && !rules.stale && !rules.late
    requires w in s.wins && w.order in Apply(s, a).orders && Apply(s, a).orders[w.order].stay == w.stay
    ensures Apply(s, a).orders[w.order].driver == Some(w.driver)
  {
    assert w.order in s.orders && w.stay <= s.orders[w.order].stay;
    assert s.orders[w.order].stay == w.stay;
    assert HasWinner(s, w.order);
  }

  lemma ApplyKeepsWinnerAssigned(s: State, a: Action, rules: Rules)
    requires Inv(s) && WinnerIsAssigned(s) && Enabled(s, a, rules) && !rules.stale && !rules.late
    ensures WinnerIsAssigned(Apply(s, a))
  {
    var s' := Apply(s, a);
    if OrderStep(a) {
      OrderStepKeepsRest(s, a, rules);
      forall w | w in s'.wins && w.order in s'.orders && s'.orders[w.order].stay == w.stay
        ensures s'.orders[w.order].driver == Some(w.driver)
      {
        OrderStepKeepsWinner(s, a, rules, w);
      }
    } else {
      WinKeepsWinnerAssigned(s, a, rules);
    }
  }

  lemma WinKeepsWinnerAssigned(s: State, a: Action, rules: Rules)
    requires Inv(s) && WinnerIsAssigned(s) && Enabled(s, a, rules) && !OrderStep(a)
    ensures WinnerIsAssigned(Apply(s, a))
  {
  }

  lemma OrderStepKeepsStay(s: State, a: Action, rules: Rules, order: string)
    requires Inv(s) && Enabled(s, a, rules) && OrderStep(a) && !rules.reopen && !rules.deletes
    requires Unpublished(s, order) && order in s.orders
    ensures order in Apply(s, a).orders && Apply(s, a).orders[order].stay == s.orders[order].stay
  {
  }

  lemma ApplyKeepsStillCurrent(s: State, a: Action, rules: Rules)
    requires Inv(s) && StillCurrent(s) && Enabled(s, a, rules) && !rules.reopen && !rules.deletes
    ensures StillCurrent(Apply(s, a))
  {
    var s' := Apply(s, a);
    if OrderStep(a) {
      OrderStepKeepsRest(s, a, rules);
      forall id | id in s'.calls && s'.calls[id].pc != Started
        ensures s'.calls[id].order in s'.orders && s'.orders[s'.calls[id].order].stay == s'.calls[id].pc.stay
      {
        assert Unpublished(s, s.calls[id].order);
        OrderStepKeepsStay(s, a, rules, s.calls[id].order);
      }
    } else {
      CallStepKeepsStillCurrent(s, a, rules);
    }
  }

  lemma StaysKept(s: State, a: Action, rules: Rules)
    requires Inv(s) && Enabled(s, a, rules) && !OrderStep(a)
    ensures forall o | o in s.orders :: o in Apply(s, a).orders && Apply(s, a).orders[o].stay == s.orders[o].stay
  {
  }

  lemma CallsKept(s: State, a: Action, rules: Rules, id: nat)
    requires Inv(s) && Enabled(s, a, rules) && !OrderStep(a) && a != Cas(id)
    requires id in Apply(s, a).calls && Apply(s, a).calls[id].pc != Started
    ensures id in s.calls && s.calls[id].pc != Started && Apply(s, a).calls[id].order == s.calls[id].order
    ensures Apply(s, a).calls[id].pc.stay == s.calls[id].pc.stay
  {
  }

  lemma CallStepKeepsStillCurrent(s: State, a: Action, rules: Rules)
    requires Inv(s) && StillCurrent(s) && Enabled(s, a, rules) && !OrderStep(a)
    ensures StillCurrent(Apply(s, a))
  {
    var s' := Apply(s, a);
    StaysKept(s, a, rules);
    forall id | id in s'.calls && s'.calls[id].pc != Started
      ensures s'.calls[id].order in s'.orders && s'.orders[s'.calls[id].order].stay == s'.calls[id].pc.stay
    {
      if a != Cas(id) {
        CallsKept(s, a, rules, id);
      }
    }
  }

  lemma {:induction false} RunKeepsAssigned(s: State, run: seq<Action>, rules: Rules)
    requires Inv(s) && Runs(s, run, rules)
    ensures !rules.stale && !rules.late && WinnerIsAssigned(s) ==> WinnerIsAssigned(Final(s, run, rules))
    ensures !rules.reopen && !rules.deletes && StillCurrent(s) ==> StillCurrent(Final(s, run, rules))
    decreases |run|
  {
    if run != [] {
      ApplyKeepsInv(s, run[0], rules);
      if !rules.stale && !rules.late && WinnerIsAssigned(s) {
        ApplyKeepsWinnerAssigned(s, run[0], rules);
      }
      if !rules.reopen && !rules.deletes && StillCurrent(s) {
        ApplyKeepsStillCurrent(s, run[0], rules);
      }
      RunKeepsAssigned(Apply(s, run[0]), run[1..], rules);
    }
  }

  ghost predicate NamesAssigned(s: State, id: nat)
    requires id in s.calls
  {
    var c := s.calls[id];
    c.order in s.orders && s.orders[c.order].driver == Some(c.driver)
  }

  lemma StrictNamesAssigned(s: State, run: seq<Action>, id: nat)
    requires Init(s) && Runs(s, run, Strict) && Enabled(Final(s, run, Strict), Publish(id), Strict)
    ensures NamesAssigned(Final(s, run, Strict), id)
  {
    RunKeepsInv(s, run, Strict);
    RunKeepsAssigned(s, run, Strict);
    var t := Final(s, run, Strict);
    assert CallOk(t, t.calls[id]);
  }

  // ----- Main results

  /** In every run, whatever others do: each stay of an order in Waiting has at most one winner; every accept event names
      a winner; and it is published with the driver on the way and the order as its current one exactly if nobody
      else has written the driver's document since the call's own writes. */
  lemma AcceptanceIsExclusive(s: State, run: seq<Action>, rules: Rules)
    requires Init(s) && Runs(s, run, rules)
    ensures var t := Final(s, run, rules);
            OneWinnerPerStay(t) && forall e | e in t.events :: EventOk(t, e)
  {
    RunKeepsInv(s, run, rules);
  }

  /** A redispatch opens the order again: Waiting, nobody's, in a stay that nobody has won; so the next call's compare-and-set
      succeeds, whoever won before. */
  lemma RedispatchOpensTheOrder(s: State, copy: nat, id: nat, rules: Rules)
    requires Inv(s) && Enabled(s, Redispatch(copy), rules) && s.copies[copy].order in s.orders
    requires id in s.calls && s.calls[id].pc == Started && s.calls[id].order == s.copies[copy].order
    ensures var (order, s') := (s.copies[copy].order, Apply(s, Redispatch(copy)));
            && order in s'.orders && s'.orders[order].status == Waiting && s'.orders[order].driver == None
            && (forall w | w in s'.wins && w.order == order :: w.stay != s'.orders[order].stay)
            && id in s'.calls && Enabled(s', Cas(id), rules)
            && Apply(s', Cas(id)).orders[order].driver == Some(s.calls[id].driver)
  {
    OrderStepKeepsInv(s, Redispatch(copy), rules);
  }

  /** Of the calls that reach an order while it is Waiting the first wins and every other loses: a call's
      compare-and-set succeeds exactly if the order is Waiting still, and then nobody has won this stay. */
  lemma FirstCasWins(s: State, id: nat, rules: Rules)
    requires Inv(s) && Enabled(s, Cas(id), rules)
    ensures var c := s.calls[id];
            var s' := Apply(s, Cas(id));
            && (id in s'.calls <==> c.order in s.orders && s.orders[c.order].status == Waiting)
            && (id in s'.calls ==> s'.orders[c.order].driver == Some(c.driver)
                                   && (forall d :: Win(c.order, s.orders[c.order].stay, d) !in s.wins))
            && (c.order in s'.orders ==> s'.orders[c.order].status != Waiting)
  {
  }
}
