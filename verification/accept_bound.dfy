/** What an accept event and the order's document may disagree about: the rules under which events name the assigned driver
    are exact, each with a run that breaks them. */
module AcceptBound {
  import opened Model
  import opened Accept

  lemma Leads(s: State, a: Action, s': State, rest: seq<Action>, rules: Rules)
    requires WellFormed(s) && Enabled(s, a, rules) && Apply(s, a) == s' && Runs(s', rest, rules)
    ensures Runs(s, [a] + rest, rules) && Final(s, [a] + rest, rules) == Final(s', rest, rules)
  {
    assert ([a] + rest)[1..] == rest;
  }

  // ----- One whole acceptance, up to the publication

  function WonState(s: State, id: nat, driver: string, order: string): State
    requires order in s.orders
  {
    var stay := s.orders[order].stay;
    State(Put(s.orders, order, Enroute, Some(driver)), s.drivers,
          s.calls[id := Call(driver, order, Won(stay), false, false)], s.copies, s.activations,
          s.wins + [Win(order, stay, driver)], s.events)
  }

  function AcceptedState(s: State, id: nat, driver: string, order: string): State
    requires order in s.orders
  {
    WonState(s, id, driver, order).(
      drivers := s.drivers[driver := DriverDoc(OnTheWay, Some(order))],
      calls := s.calls[id := Call(driver, order, CurrentSet(s.orders[order].stay), false, false)])
  }

  predicate MayAccept(s: State, id: nat, driver: string, order: string) {
    && order in s.orders && s.orders[order].status == Waiting
    && driver in s.drivers && s.drivers[driver] == DriverDoc(Idle, None) && id !in s.calls && !Busy(s, driver)
  }

  lemma Win1(s: State, id: nat, driver: string, order: string, rest: seq<Action>, rules: Rules) returns (run: seq<Action>)
    requires WellFormed(s) && MayAccept(s, id, driver, order) && Runs(WonState(s, id, driver, order), rest, rules)
    ensures Runs(s, run, rules) && Final(s, run, rules) == Final(WonState(s, id, driver, order), rest, rules)
  {
    var s1 := Apply(s, Start(id, driver, order));
    assert s1.calls[id := Call(driver, order, Won(s.orders[order].stay), false, false)] == WonState(s, id, driver, order).calls;
    Leads(s1, Cas(id), WonState(s, id, driver, order), rest, rules);
    run := [Cas(id)] + rest;
    Leads(s, Start(id, driver, order), s1, run, rules);
    run := [Start(id, driver, order)] + run;
  }

  lemma WriteBoth(s: State, id: nat, driver: string, order: string, rest: seq<Action>, rules: Rules) returns (run: seq<Action>)
    requires WellFormed(s) && MayAccept(s, id, driver, order) && Runs(AcceptedState(s, id, driver, order), rest, rules)
    ensures Runs(WonState(s, id, driver, order), run, rules)
    ensures Final(WonState(s, id, driver, order), run, rules) == Final(AcceptedState(s, id, driver, order), rest, rules)
  {
    var stay := s.orders[order].stay;
    var s0 := WonState(s, id, driver, order);
    var s1 := s0.(calls := s.calls[id := Call(driver, order, StatusRead(stay, Idle), false, false)]);
    var s2 := s0.(calls := s.calls[id := Call(driver, order, StatusSet(stay), false, false)],
                  drivers := s.drivers[driver := DriverDoc(OnTheWay, None)]);
    var s3 := AcceptedState(s, id, driver, order);
    assert s2.drivers[driver := s3.drivers[driver]] == s3.drivers && s2.calls[id := s3.calls[id]] == s3.calls;
    Leads(s2, WriteCurrent(id), s3, rest, rules);
    run := [WriteCurrent(id)] + rest;
    assert s1.calls[id := s2.calls[id]] == s2.calls;
    Leads(s1, WriteStatus(id), s2, run, rules);
    run := [WriteStatus(id)] + run;
    assert s0.calls[id := s1.calls[id]] == s1.calls;
    Leads(s0, ReadStatus(id), s1, run, rules);
    run := [ReadStatus(id)] + run;
  }

  lemma AcceptRun(s: State, id: nat, driver: string, order: string, rest: seq<Action>, rules: Rules) returns (run: seq<Action>)
    requires WellFormed(s) && MayAccept(s, id, driver, order) && Runs(AcceptedState(s, id, driver, order), rest, rules)
    ensures Runs(s, run, rules) && Final(s, run, rules) == Final(AcceptedState(s, id, driver, order), rest, rules)
  {
    run := WriteBoth(s, id, driver, order, rest, rules);
    run := Win1(s, id, driver, order, run, rules);
  }

  // ----- Four ways to publish for the wrong driver

  /** At the end of the run a call is about to publish for a driver that the order is not assigned to. */
  ghost predicate Misnames(s: State, run: seq<Action>, id: nat, rules: Rules) {
    && Init(s) && Runs(s, run, rules)
    && Enabled(Final(s, run, rules), Publish(id), rules) && !NamesAssigned(Final(s, run, rules), id)
  }

  const FreeDrivers := map["a" := DriverDoc(Idle, None), "b" := DriverDoc(Idle, None)]

  function Base(status: OrderStatus): State {
    State(map["o" := OrderDoc(status, None, 0)], FreeDrivers, map[], map[], {}, [], [])
  }

  /** Driver a has accepted the order in its given stay and is about to publish. */
  function AboutToPublish(stay: nat, copies: map<nat, Copy>, activations: set<Activation>, before: seq<Win>): State {
    State(map["o" := OrderDoc(Enroute, Some("a"), stay)],
          map["a" := DriverDoc(OnTheWay, Some("o")), "b" := DriverDoc(Idle, None)],
          map[0 := Call("a", "o", CurrentSet(stay), false, false)], copies, activations, before + [Win("o", stay, "a")], [])
  }

  function Open(stay: nat, driver: Option<string>, copies: map<nat, Copy>, activations: set<Activation>, before: seq<Win>): State {
    State(map["o" := OrderDoc(Waiting, driver, stay)], FreeDrivers, map[], copies, activations, before, [])
  }

  lemma FirstAcceptance(stay: nat, driver: Option<string>, copies: map<nat, Copy>, activations: set<Activation>,
                        before: seq<Win>, rest: seq<Action>, rules: Rules)
    returns (run: seq<Action>)
    requires Activation("a", "o") !in activations && (forall a | a in activations :: a.driver == "b")
    requires Runs(AboutToPublish(stay, copies, activations, before), rest, rules)
    ensures Runs(Open(stay, driver, copies, activations, before), run, rules)
    ensures Final(Open(stay, driver, copies, activations, before), run, rules)
            == Final(AboutToPublish(stay, copies, activations, before), rest, rules)
  {
    var s := Open(stay, driver, copies, activations, before);
    var t := AboutToPublish(stay, copies, activations, before);
    assert Put(s.orders, "o", Enroute, Some("a")) == t.orders;
    assert FreeDrivers["a" := DriverDoc(OnTheWay, Some("o"))] == t.drivers;
    assert AcceptedState(s, 0, "a", "o") == t;
    run := AcceptRun(s, 0, "a", "o", rest, rules);
  }

  /** Driver a wins; the web interface sets the order back to Waiting; driver b wins as well. */
  lemma ReopenedOrderMisnames(rules: Rules) returns (run: seq<Action>)
    requires rules.reopen
    ensures Misnames(Open(0, None, map[], {}, []), run, 0, rules)
  {
    var s := AboutToPublish(0, map[], {}, []);
    run := SecondAcceptance(s, rules);
    run := FirstAcceptance(0, None, map[], {}, [], run, rules);
  }

  lemma SecondAcceptance(s: State, rules: Rules) returns (run: seq<Action>)
    requires s == AboutToPublish(0, map[], {}, []) && rules.reopen
    ensures Runs(s, run, rules)
    ensures var t := Final(s, run, rules);
            Enabled(t, Publish(0), rules) && !NamesAssigned(t, 0) && Win("o", 0, "a") in t.wins && Win("o", 1, "b") in t.wins
  {
    var s' := Apply(s, SetStatus("o", Waiting));
    assert s'.orders["o"] == OrderDoc(Waiting, Some("a"), 1);
    run := Win1(s', 1, "b", "o", [], rules);
    SecondWinnerIsAssigned(s');
    Leads(s, SetStatus("o", Waiting), s', run, rules);
    run := [SetStatus("o", Waiting)] + run;
  }

  lemma SecondWinnerIsAssigned(s: State)
    requires "o" in s.orders && s.orders["o"] == OrderDoc(Waiting, Some("a"), 1) && 0 in s.calls
    requires s.calls[0] == Call("a", "o", CurrentSet(0), false, false) && Win("o", 0, "a") in s.wins
    ensures var t := WonState(s, 1, "b", "o");
            && Enabled(t, Publish(0), Strict) && !NamesAssigned(t, 0)
            && Win("o", 0, "a") in t.wins && Win("o", 1, "b") in t.wins
  {
  }

  const StaleCopies := map[7 := Copy("o", Cancelled, None)]

  /** A handler reads the cancelled order; the order is set back to Waiting; driver a wins; the handler writes back what it
      read. */
  lemma StaleDocumentMisnames(rules: Rules) returns (run: seq<Action>)
    requires rules.stale
    ensures Misnames(Base(Cancelled), run, 0, rules) && !WinnerIsAssigned(Final(Base(Cancelled), run, rules))
  {
    var s := AboutToPublish(1, StaleCopies, {}, []);
    var end := Overwritten(s, rules);
    Leads(s, Replace(7), end, [], rules);
    run := FirstAcceptance(1, None, StaleCopies, {}, [], [Replace(7)] + [], rules);
    run := ReadCancelled(run, rules);
  }

  lemma Overwritten(s: State, rules: Rules) returns (end: State)
    requires s == AboutToPublish(1, StaleCopies, {}, []) && rules.stale
    ensures Enabled(s, Replace(7), rules) && end == Apply(s, Replace(7))
    ensures Enabled(end, Publish(0), rules) && !NamesAssigned(end, 0) && !WinnerIsAssigned(end)
  {
    end := Apply(s, Replace(7));
    assert end.orders["o"] == OrderDoc(Cancelled, None, 1) && Win("o", 1, "a") in end.wins;
  }

  lemma ReadCancelled(rest: seq<Action>, rules: Rules) returns (run: seq<Action>)
    requires Runs(Open(1, None, StaleCopies, {}, []), rest, rules)
    ensures Runs(Base(Cancelled), run, rules)
    ensures Final(Base(Cancelled), run, rules) == Final(Open(1, None, StaleCopies, {}, []), rest, rules)
  {
    var s := Base(Cancelled);
    var s1 := s.(copies := StaleCopies);
    var s2 := Open(1, None, StaleCopies, {}, []);
    assert s1.orders["o" := s2.orders["o"]] == s2.orders;
    Leads(s1, SetStatus("o", Waiting), s2, rest, rules);
    run := [SetStatus("o", Waiting)] + rest;
    assert s.copies[7 := StaleCopies[7]] == StaleCopies;
    Leads(s, ReadOrder(7, "o"), s1, run, rules);
    run := [ReadOrder(7, "o")] + run;
  }

  const Scheduled1 := [Win("o", 0, "b")]
  const Activating := {Activation("b", "o")}

  /** Driver b accepts the scheduled order and begins to activate it; the order is set back to Waiting; driver a wins; the
      order's status is set to accepted; b's activation now goes through. */
  lemma LateActivationMisnames(rules: Rules) returns (run: seq<Action>)
    requires rules.late
    ensures Misnames(Open(0, None, map[], {}, []), run, 0, rules)
    ensures !WinnerIsAssigned(Final(Open(0, None, map[], {}, []), run, rules))
  {
    run := LateActivationEnds(AboutToPublish(1, map[], Activating, Scheduled1), rules);
    run := FirstAcceptance(1, Some("b"), map[], Activating, Scheduled1, run, rules);
    run := LateActivationStarts(run, rules);
  }

  lemma LateActivationStarts(rest: seq<Action>, rules: Rules) returns (run: seq<Action>)
    requires Runs(Open(1, Some("b"), map[], Activating, Scheduled1), rest, rules)
    ensures Runs(Open(0, None, map[], {}, []), run, rules)
    ensures Final(Open(0, None, map[], {}, []), run, rules) == Final(Open(1, Some("b"), map[], Activating, Scheduled1), rest, rules)
  {
    var s := Open(0, None, map[], {}, []);
    var s1 := State(map["o" := OrderDoc(ScheduleAccepted, Some("b"), 0)], FreeDrivers, map[], map[], {}, Scheduled1, []);
    var s2 := s1.(activations := Activating);
    var s3 := Open(1, Some("b"), map[], Activating, Scheduled1);
    assert s2.orders["o" := s3.orders["o"]] == s3.orders;
    Leads(s2, SetStatus("o", Waiting), s3, rest, rules);
    run := [SetStatus("o", Waiting)] + rest;
    Leads(s1, CheckActivation("b", "o"), s2, run, rules);
    run := [CheckActivation("b", "o")] + run;
    assert s.orders["o" := s1.orders["o"]] == s1.orders;
    Leads(s, AcceptScheduled("b", "o"), s1, run, rules);
    run := [AcceptScheduled("b", "o")] + run;
  }

  function TakenOver(s: State): State {
    s.(orders := map["o" := OrderDoc(Enroute, Some("b"), 1)], activations := {})
  }

  lemma OtherDriverAssigned(s: State, rules: Rules)
    requires s.orders == map["o" := OrderDoc(ScheduleAccepted, Some("a"), 1)] && s.activations == Activating
    requires Win("o", 1, "a") in s.wins && s.calls == map[0 := Call("a", "o", CurrentSet(1), false, false)]
    requires rules.late && WellFormed(s)
    ensures Enabled(s, Activate("b", "o"), rules) && Apply(s, Activate("b", "o")) == TakenOver(s)
    ensures Enabled(TakenOver(s), Publish(0), rules)
    ensures !NamesAssigned(TakenOver(s), 0) && !WinnerIsAssigned(TakenOver(s))
  {
    assert s.orders["o" := OrderDoc(Enroute, Some("b"), 1)] == TakenOver(s).orders;
  }

  lemma LateActivationEnds(s: State, rules: Rules) returns (run: seq<Action>)
    requires rules.late && s == AboutToPublish(1, map[], Activating, Scheduled1)
    ensures Runs(s, run, rules)
    ensures var t := Final(s, run, rules);
            Enabled(t, Publish(0), rules) && !NamesAssigned(t, 0) && !WinnerIsAssigned(t)
  {
    var s1 := s.(orders := map["o" := OrderDoc(ScheduleAccepted, Some("a"), 1)]);
    var s2 := TakenOver(s1);
    OtherDriverAssigned(s1, rules);
    run := [];
    Leads(s1, Activate("b", "o"), s2, run, rules);
    run := [Activate("b", "o")] + run;
    assert s.orders["o" := s1.orders["o"]] == s1.orders;
    Leads(s, SetStatus("o", ScheduleAccepted), s1, run, rules);
    run := [SetStatus("o", ScheduleAccepted)] + run;
  }

  /** Driver a wins and the order is deleted from the report. */
  lemma DeletedOrderMisnames(rules: Rules) returns (run: seq<Action>)
    requires rules.deletes
    ensures Misnames(Open(0, None, map[], {}, []), run, 0, rules)
  {
    run := Deleted(AboutToPublish(0, map[], {}, []), rules);
    run := FirstAcceptance(0, None, map[], {}, [], run, rules);
  }

  lemma Deleted(s: State, rules: Rules) returns (run: seq<Action>)
    requires rules.deletes && s == AboutToPublish(0, map[], {}, [])
    ensures Runs(s, run, rules)
    ensures Enabled(Final(s, run, rules), Publish(0), rules) && !NamesAssigned(Final(s, run, rules), 0)
  {
    var t := s.(orders := map[]);
    assert s.orders - {"o"} == t.orders;
    Leads(s, Delete("o"), t, [], rules);
    run := [Delete("o")] + [];
  }

  // ----- Main results

  /** In all runs under the rules every accept event names the driver assigned to the order when it is published, exactly if
      the rules forbid all four: bringing the order back to Waiting and deleting it while the acceptance is unpublished,
      and a stale replacement or a late activation of an order that has been won. */
  lemma EventsNameAssignedDriver(rules: Rules)
    ensures (forall s, run, id :: !Misnames(s, run, id, rules)) <==> rules == Strict
  {
    if rules == Strict {
      forall s, run, id ensures !Misnames(s, run, id, rules) {
        if Init(s) && Runs(s, run, rules) && Enabled(Final(s, run, rules), Publish(id), rules) {
          StrictNamesAssigned(s, run, id);
        }
      }
    } else if rules.reopen {
      var run := ReopenedOrderMisnames(rules);
    } else if rules.stale {
      var run := StaleDocumentMisnames(rules);
    } else if rules.late {
      var run := LateActivationMisnames(rules);
    } else {
      var run := DeletedOrderMisnames(rules);
    }
  }

  /** Whatever else happens to orders, redispatches and deletions included, the winner of an order's current stay is its
      assigned driver in every reachable state, exactly if won orders are neither overwritten nor activated late. */
  lemma WinnersAreAssigned(rules: Rules)
    ensures (forall s, run | Init(s) && Runs(s, run, rules) :: WinnerIsAssigned(Final(s, run, rules)))
            <==> !rules.stale && !rules.late
  {
    if !rules.stale && !rules.late {
      forall s, run | Init(s) && Runs(s, run, rules) ensures WinnerIsAssigned(Final(s, run, rules)) {
        RunKeepsAssigned(s, run, rules);
      }
    } else if rules.stale {
      var run := StaleDocumentMisnames(rules);
    } else {
      var run := LateActivationMisnames(rules);
    }
  }

  /** Even under the strict rules an event can be published for a driver who is idle and has no order: a cancellation frees
      the driver between the call's writes and its publication. */
  lemma FreedDriverIsPublished() returns (run: seq<Action>)
    ensures Init(Open(0, None, map[], {}, [])) && Runs(Open(0, None, map[], {}, []), run, Strict)
    ensures Final(Open(0, None, map[], {}, []), run, Strict).events
            == [Published("o", "a", 0, DriverDoc(Idle, None), true, true)]
  {
    run := FreedAndPublished(AboutToPublish(0, map[], {}, []));
    run := FirstAcceptance(0, None, map[], {}, [], run, Strict);
  }

  lemma FreedAndPublished(s: State) returns (run: seq<Action>)
    requires s == AboutToPublish(0, map[], {}, [])
    ensures Runs(s, run, Strict)
    ensures Final(s, run, Strict).events == [Published("o", "a", 0, DriverDoc(Idle, None), true, true)]
  {
    var s1 := Freed(s, DriverDoc(Idle, Some("o")), true, false);
    var s2 := Freed(s, DriverDoc(Idle, None), true, true);
    Idles(s);
    Clears(s1, s2);
    run := PublishNow(s2);
    Leads(s1, ClearCurrent("a"), s2, run, Strict);
    run := [ClearCurrent("a")] + run;
    Leads(s, SetIdle("a"), s1, run, Strict);
    run := [SetIdle("a")] + run;
  }

  lemma Idles(s: State)
    requires s == AboutToPublish(0, map[], {}, [])
    ensures Apply(s, SetIdle("a")) == Freed(s, DriverDoc(Idle, Some("o")), true, false)
  {
    var t := Freed(s, DriverDoc(Idle, Some("o")), true, false);
    assert s.drivers["a" := DriverDoc(Idle, Some("o"))] == t.drivers && Hit(s.calls, "a", true, false) == t.calls;
  }

  lemma Clears(s: State, t: State)
    requires s == Freed(s, DriverDoc(Idle, Some("o")), true, false) && t == Freed(s, DriverDoc(Idle, None), true, true)
    ensures Apply(s, ClearCurrent("a")) == t
  {
    assert s.drivers["a" := DriverDoc(Idle, None)] == t.drivers && Hit(s.calls, "a", false, true) == t.calls;
  }

  lemma PublishNow(s: State) returns (run: seq<Action>)
    requires s == Freed(s, DriverDoc(Idle, None), true, true) && s.events == []
    ensures Runs(s, run, Strict)
    ensures Final(s, run, Strict).events == [Published("o", "a", 0, DriverDoc(Idle, None), true, true)]
  {
    Leads(s, Publish(0), Apply(s, Publish(0)), [], Strict);
    run := [Publish(0)] + [];
  }

  function Freed(s: State, doc: DriverDoc, idled: bool, cleared: bool): State {
    s.(drivers := map["a" := doc, "b" := DriverDoc(Idle, None)],
       calls := map[0 := Call("a", "o", CurrentSet(0), idled, cleared)])
  }
}
