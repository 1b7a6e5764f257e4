/** Turning scheduled orders into instant ones (background/scheduled-dispatcher.go). Every minute a checker run selects due orders and
    starts one goroutine per order; runs overlap freely, in one process and across replicas, and goroutines race
    through one compare-and-set on (status, type). */
module Conversion {
  import opened Model

  const CHECK_INTERVAL_MS := 60000
  const THRESHOLD_MS := 20 * 60000

  datatype Doc = Doc(orderType: OrderType, status: OrderStatus, scheduledAt: Option<int>)

  /** selected and won hold the orders of goroutines that have not yet tried, and that have passed, the
      compare-and-set. timesScheduled counts how often an order was stored as a scheduled one after it was not. */
  datatype State = State(
    now: int, orders: map<string, Doc>, selected: multiset<string>, won: multiset<string>,
    published: multiset<string>, timesScheduled: multiset<string>)

  datatype Action =
    | Tick(ms: nat)
    | Create(order: string, doc: Doc)
    | Select(order: string)
    | CompareAndSet(order: string)
    | Publish(order: string)
    | PublishFails(order: string)
    | SetStatus(order: string, status: OrderStatus)
    | Overwrite(order: string, doc: Doc)

  /** The query of the checker. */
  predicate Due(doc: Doc, now: int) {
    doc.orderType == Scheduled && doc.status == Waiting
    && doc.scheduledAt.Some? && now <= doc.scheduledAt.value <= now + THRESHOLD_MS
  }

  /** Which types a writer other than the conversion may store over which: whole-document replacements store the type that
      was read earlier (service/order_service.go:1201-1214), the report edit any type (service/order_service.go:2116-2165). */
  type Rule = (OrderType, OrderType) -> bool

  predicate Enabled(s: State, a: Action, rule: Rule) {
    match a
    case Tick(_) => true
    case Create(order, _) => order !in s.orders
    case Select(order) => order in s.orders && Due(s.orders[order], s.now)
    case CompareAndSet(order) => order in s.selected && order in s.orders
    case Publish(order) => order in s.won
    case PublishFails(order) => order in s.won
    case SetStatus(order, _) => order in s.orders
    case Overwrite(order, doc) => order in s.orders && rule(s.orders[order].orderType, doc.orderType)
  }

  predicate IsScheduled(s: State, order: string) {
    order in s.orders && s.orders[order].orderType == Scheduled
  }

  /** Storing doc under order uses the order's old type: only a Scheduled that replaces something else counts. */
  function Store(s: State, order: string, doc: Doc): State {
    s.(orders := s.orders[order := doc],
       timesScheduled := if doc.orderType == Scheduled && !IsScheduled(s, order)
                         then s.timesScheduled + multiset{order} else s.timesScheduled)
  }

  predicate Anything(before: OrderType, after: OrderType) {
    true
  }

  /** Status changes by drivers and dispatchers leave the type alone. */
  function Apply(s: State, a: Action): State
    requires Enabled(s, a, Anything)
  {
    match a
    case Tick(ms) => s.(now := s.now + ms)
    case Create(order, doc) => Store(s, order, doc)
    case Select(order) => s.(selected := s.selected + multiset{order})
    case CompareAndSet(order) =>
      var doc := s.orders[order];
      var tried := s.(selected := s.selected - multiset{order});
      if doc.status == Waiting && doc.orderType == Scheduled then
        tried.(orders := s.orders[order := doc.(orderType := Instant)], won := s.won + multiset{order})
      else tried
    case Publish(order) => s.(won := s.won - multiset{order}, published := s.published + multiset{order})
    case PublishFails(order) => s.(won := s.won - multiset{order})
    case SetStatus(order, status) => s.(orders := s.orders[order := s.orders[order].(status := status)])
    case Overwrite(order, doc) => Store(s, order, doc)
  }

  const Initial := State(0, map[], multiset{}, multiset{}, multiset{}, multiset{})

  ghost predicate Runs(s: State, run: seq<Action>, rule: Rule)
    decreases |run|
  {
    run == [] || (Enabled(s, run[0], rule) && Runs(Apply(s, run[0]), run[1..], rule))
  }

  ghost function Final(s: State, run: seq<Action>, rule: Rule): State
    requires Runs(s, run, rule)
    decreases |run|
  {
    if run == [] then s else Final(Apply(s, run[0]), run[1..], rule)
  }

  /** Every publication, every goroutine past the compare-and-set, and being Scheduled now, each use up one time
      the order was stored as scheduled. */
  predicate Paid(s: State, order: string) {
    s.published[order] + s.won[order] + (if IsScheduled(s, order) then 1 else 0) <= s.timesScheduled[order]
  }

  lemma ApplyKeepsPaid(s: State, a: Action, order: string)
    requires Paid(s, order) && Enabled(s, a, Anything)
    ensures Paid(Apply(s, a), order)
  {
    var s' := Apply(s, a);
    match a
    case CompareAndSet(o) =>
      assert o != order ==> IsScheduled(s', order) == IsScheduled(s, order) && s'.won[order] == s.won[order];
    case Publish(o) =>
      assert s'.published[order] + s'.won[order] == s.published[order] + s.won[order];
    case _ =>
  }

  lemma {:induction false} RunKeepsPaid(s: State, run: seq<Action>, rule: Rule, order: string)
    requires Paid(s, order) && Runs(s, run, rule)
    ensures Paid(Final(s, run, rule), order)
    decreases |run|
  {
    if run != [] {
      ApplyKeepsPaid(s, run[0], order);
      RunKeepsPaid(Apply(s, run[0]), run[1..], rule, order);
    }
  }

  /** An order whose type never goes from Instant to Scheduled is stored as scheduled at most once: when it is created. */
  predicate CountedOnce(s: State, order: string) {
    s.timesScheduled[order] <= (if order in s.orders then 1 else 0)
  }

  lemma ApplyKeepsCountedOnce(s: State, a: Action, rule: Rule, order: string)
    requires CountedOnce(s, order) && Enabled(s, a, rule) && !rule(Instant, Scheduled)
    ensures CountedOnce(Apply(s, a), order)
  {
  }

  lemma {:induction false} RunKeepsCountedOnce(s: State, run: seq<Action>, rule: Rule, order: string)
    requires Runs(s, run, rule) && CountedOnce(s, order) && !rule(Instant, Scheduled)
    ensures CountedOnce(Final(s, run, rule), order)
    decreases |run|
  {
    if run != [] {
      ApplyKeepsCountedOnce(s, run[0], rule, order);
      RunKeepsCountedOnce(Apply(s, run[0]), run[1..], rule, order);
    }
  }

  /** However checker runs overlap and whatever is written over the order, conversion publishes an order at most as often
      as the order was stored as a scheduled one, and once less while it is one. */
  lemma PublishedAtMostAsScheduled(run: seq<Action>, rule: Rule, order: string)
    requires Runs(Initial, run, rule)
    ensures var s := Final(Initial, run, rule);
            s.published[order] + (if IsScheduled(s, order) then 1 else 0) <= s.timesScheduled[order]
  {
    RunKeepsPaid(Initial, run, rule, order);
  }

  /** Main result: in all runs whose overwrites obey a rule each order is published by conversion at most once, exactly if
      the rule never stores Scheduled over Instant. All other overwrites are harmless. */
  lemma PublishedAtMostOnce(rule: Rule)
    ensures (forall run, order :: !PublishedAgain(run, rule, order)) <==> !rule(Instant, Scheduled)
  {
    if rule(Instant, Scheduled) {
      var run := OverwritePublishesTwice(rule);
    } else {
      forall run, order ensures !PublishedAgain(run, rule, order) {
        if Runs(Initial, run, rule) {
          RunKeepsPaid(Initial, run, rule, order);
          RunKeepsCountedOnce(Initial, run, rule, order);
        }
      }
    }
  }

  ghost predicate PublishedAgain(run: seq<Action>, rule: Rule, order: string) {
    Runs(Initial, run, rule) && 2 <= Final(Initial, run, rule).published[order]
  }

  const DueDoc := Doc(Scheduled, Waiting, Some(0))

  /** The order was published `times` times before and is now a scheduled one, or on its way to be published again. */
  function Stage(times: nat, orderType: OrderType, selected: multiset<string>, won: multiset<string>): State {
    State(0, map["o" := DueDoc.(orderType := orderType)], selected, won, multiset{}["o" := times],
          multiset{}["o" := if orderType == Scheduled || won != multiset{} then times + 1 else times])
  }

  /** Select, compare-and-set and publish once. */
  lemma ConvertOnce(times: nat, rest: seq<Action>, rule: Rule) returns (run: seq<Action>)
    requires Runs(Stage(times + 1, Instant, multiset{}, multiset{}), rest, rule)
    ensures Runs(Stage(times, Scheduled, multiset{}, multiset{}), run, rule)
    ensures Final(Stage(times, Scheduled, multiset{}, multiset{}), run, rule)
            == Final(Stage(times + 1, Instant, multiset{}, multiset{}), rest, rule)
  {
    var one := multiset{"o"};
    var s0, s1 := Stage(times, Scheduled, multiset{}, multiset{}), Stage(times, Scheduled, one, multiset{});
    var s2, s3 := Stage(times, Instant, multiset{}, one), Stage(times + 1, Instant, multiset{}, multiset{});
    assert Apply(s2, Publish("o")) == s3;
    Leads(s2, Publish("o"), s3, rest, rule);
    run := [Publish("o")] + rest;
    assert s1.orders["o" := s2.orders["o"]] == s2.orders && one - one == multiset{};
    Leads(s1, CompareAndSet("o"), s2, run, rule);
    run := [CompareAndSet("o")] + run;
    Leads(s0, Select("o"), s1, run, rule);
    run := [Select("o")] + run;
  }

  /** The order is converted and published, a document read before is written back, and it is converted again. */
  lemma OverwritePublishesTwice(rule: Rule) returns (run: seq<Action>)
    requires rule(Instant, Scheduled)
    ensures PublishedAgain(run, rule, "o")
  {
    run := ConvertOnce(1, [], rule);
    var s1, s2 := Stage(1, Instant, multiset{}, multiset{}), Stage(1, Scheduled, multiset{}, multiset{});
    assert s1.orders["o" := DueDoc] == s2.orders;
    assert Apply(s1, Overwrite("o", DueDoc)) == s2;
    Leads(s1, Overwrite("o", DueDoc), s2, run, rule);
    run := [Overwrite("o", DueDoc)] + run;
    run := ConvertOnce(0, run, rule);
    var s0 := Stage(0, Scheduled, multiset{}, multiset{});
    assert Apply(Initial, Create("o", DueDoc)) == s0;
    Leads(Initial, Create("o", DueDoc), s0, run, rule);
    run := [Create("o", DueDoc)] + run;
  }

  lemma Leads(s: State, a: Action, s': State, rest: seq<Action>, rule: Rule)
    requires Enabled(s, a, rule) && Apply(s, a) == s' && Runs(s', rest, rule)
    ensures Runs(s, [a] + rest, rule) && Final(s, [a] + rest, rule) == Final(s', rest, rule)
  {
    assert ([a] + rest)[1..] == rest;
  }

  /** Compare-and-sets of the run that found the order Waiting and Scheduled. */
  ghost function Conversions(s: State, run: seq<Action>, rule: Rule, order: string): nat
    requires Runs(s, run, rule)
    decreases |run|
  {
    if run == [] then 0
    else
      (if run[0] == CompareAndSet(order) && s.orders[order].status == Waiting && IsScheduled(s, order) then 1 else 0)
      + Conversions(Apply(s, run[0]), run[1..], rule, order)
  }

  /** At every moment of every run, an order has been published, and is about to be, at most as often as a compare-and-set
      found it Waiting and Scheduled before. */
  lemma {:induction false} PublishedOnlyAfterConversion(s: State, run: seq<Action>, rule: Rule, order: string)
    requires Runs(s, run, rule)
    ensures var t := Final(s, run, rule);
            t.published[order] + t.won[order] <= s.published[order] + s.won[order] + Conversions(s, run, rule, order)
    decreases |run|
  {
    if run != [] {
      PublishedOnlyAfterConversion(Apply(s, run[0]), run[1..], rule, order);
    }
  }

  // ----- Nothing too early or too late

  /** At some moment of the run the order was Waiting, scheduled, and due within the next 20 minutes. */
  ghost predicate WasInWindow(s: State, run: seq<Action>, rule: Rule, order: string)
    requires Runs(s, run, rule)
    decreases |run|
  {
    || (order in s.orders && s.orders[order].orderType == Scheduled && s.orders[order].status == Waiting
        && exists t :: s.orders[order].scheduledAt == Some(t) && s.now <= t <= s.now + 1200000)
    || (run != [] && WasInWindow(Apply(s, run[0]), run[1..], rule, order))
  }

  /** Whatever a run does, an order is only ever selected, converted or published after a moment in which it was in its
      window. */
  lemma {:induction false} ConvertedOnlyInWindow(s: State, run: seq<Action>, rule: Rule, order: string)
    requires Runs(s, run, rule) && s.selected[order] == s.won[order] == s.published[order] == 0
    ensures var t := Final(s, run, rule);
            t.selected[order] + t.won[order] + t.published[order] > 0 ==> WasInWindow(s, run, rule, order)
    decreases |run|
  {
    if run != [] {
      if run[0] == Select(order) {
        assert s.orders[order].scheduledAt == Some(s.orders[order].scheduledAt.value);
        assert WasInWindow(s, run, rule, order);
      } else {
        ConvertedOnlyInWindow(Apply(s, run[0]), run[1..], rule, order);
      }
    }
  }

  /** And in its window it can be selected at every moment. */
  lemma SelectableInWindow(s: State, rule: Rule, order: string, t: int)
    requires order in s.orders && s.orders[order] == Doc(Scheduled, Waiting, Some(t))
    ensures Enabled(s, Select(order), rule) <==> s.now <= t <= s.now + 1200000
  {
  }

  /** A converted order whose publication failed is not published by a later check either, unless somebody stores it as a
      scheduled one again. */
  lemma {:induction false} FailedPublicationIsNotRepeated(s: State, run: seq<Action>, rule: Rule, order: string)
    requires Runs(s, run, rule) && !rule(Instant, Scheduled)
    requires order in s.orders && s.orders[order].orderType == Instant && s.won[order] == 0
    ensures Final(s, run, rule).published[order] == s.published[order]
    decreases |run|
  {
    if run != [] {
      var s' := Apply(s, run[0]);
      assert order in s'.orders && s'.orders[order].orderType == Instant && s'.won[order] == 0;
      assert s'.published[order] == s.published[order];
      FailedPublicationIsNotRepeated(s', run[1..], rule, order);
    }
  }

  /** A goroutine whose publication fails gives up: one pending publication less, none made. */
  lemma FailingGivesUp(s: State, rule: Rule, order: string)
    requires Enabled(s, PublishFails(order), rule)
    ensures var s' := Apply(s, PublishFails(order));
            s'.won[order] + 1 == s.won[order] && s'.published == s.published && s'.orders == s.orders
  {
  }

  // ----- Coverage

  function TickTime(firstTick: int, k: nat): int {
    firstTick + k * CHECK_INTERVAL_MS
  }

  /** The first tick not before t. */
  function FirstTickFrom(firstTick: int, t: int): (k: nat)
    requires firstTick <= t
    ensures t <= TickTime(firstTick, k) < t + CHECK_INTERVAL_MS
  {
    (t - firstTick + CHECK_INTERVAL_MS - 1) / CHECK_INTERVAL_MS
  }

  /** With one tick a minute, an order that is Waiting and Scheduled throughout the 20 minutes before its due time
      is selected by at least 20 ticks in a row. */
  lemma TicksReachEveryOrder(firstTick: int, doc: int -> Doc, due: int, n: nat)
    requires firstTick <= due - THRESHOLD_MS && n < 20
    requires forall t | due - THRESHOLD_MS <= t <= due :: doc(t) == Doc(Scheduled, Waiting, Some(due))
    ensures var t := TickTime(firstTick, FirstTickFrom(firstTick, due - THRESHOLD_MS) + n);
            Due(doc(t), t)
  {
    var k := FirstTickFrom(firstTick, due - THRESHOLD_MS);
    assert TickTime(firstTick, k + n) == TickTime(firstTick, k) + n * CHECK_INTERVAL_MS;
  }
}
