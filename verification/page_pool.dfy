/** The browser pages of the crawler (service/crawler_service.go): three buffered channels as pools, filled by warm-up and
    refill goroutines, emptied by requests. Every method is one step of some goroutine (a channel operation inside a
    select with a default, a page creation, a critical section), so goroutines interleave as calls do. */
module PagePools {
  import opened Model

  datatype Kind = Search | Details | Directions

  /** The browser numbers the pages it creates. */
  type Page = nat

  /** Where a page is: borrower names the request or call that borrowed it. */
  datatype Place = InPool(kind: Kind) | Borrowed(borrower: nat) | BeingPlaced(kind: Kind) | Closed

  const WARMUP_PAGES := 3

  /** A pool holds each page that is in it once. */
  ghost predicate PoolOk(pool: seq<Page>, kind: Kind, where: seq<Place>, capacity: nat) {
    && |pool| <= capacity
    && (forall i, j | 0 <= i < j < |pool| :: pool[i] != pool[j])
    && (forall p | p in pool :: p < |where| && where[p] == InPool(kind))
    && (forall p: Page | p < |where| && where[p] == InPool(kind) :: p in pool)
  }

  ghost predicate Tracks(pools: map<Kind, seq<Page>>, where: seq<Place>, capacity: nat) {
    && (forall k: Kind :: k in pools)
    && (forall k: Kind | k in pools :: PoolOk(pools[k], k, where, capacity))
  }

  lemma CreateKeepsTracks(pools: map<Kind, seq<Page>>, where: seq<Place>, capacity: nat, place: Place)
    requires Tracks(pools, where, capacity) && !place.InPool?
    ensures Tracks(pools, where + [place], capacity)
  {
    forall k: Kind ensures PoolOk(pools[k], k, where + [place], capacity) {
      assert PoolOk(pools[k], k, where, capacity);
    }
  }

  /** Receiving from a pool's channel. */
  lemma ReceiveKeepsTracks(pools: map<Kind, seq<Page>>, where: seq<Place>, capacity: nat, kind: Kind, place: Place)
    requires Tracks(pools, where, capacity) && pools[kind] != [] && !place.InPool?
    ensures pools[kind][0] < |where| && where[pools[kind][0]] == InPool(kind)
    ensures Tracks(pools[kind := pools[kind][1..]], where[pools[kind][0] := place], capacity)
  {
    var page := pools[kind][0];
    assert PoolOk(pools[kind], kind, where, capacity);
    assert page in pools[kind];
    var (rest, pools', where') := (pools[kind][1..], pools[kind := pools[kind][1..]], where[page := place]);
    assert pools[kind] == [page] + rest;
    assert page !in rest by {
      assert forall i | 0 <= i < |rest| :: rest[i] == pools[kind][i + 1];
    }
    forall k: Kind ensures PoolOk(pools'[k], k, where', capacity) {
      assert PoolOk(pools[k], k, where, capacity);
      if k == kind {
        assert forall i | 0 <= i < |rest| :: rest[i] == pools[kind][i + 1];
        assert forall p :: p in pools[kind] <==> p == page || p in rest;
      }
    }
  }

  lemma SendKeepsTracks(pools: map<Kind, seq<Page>>, where: seq<Place>, capacity: nat, kind: Kind, page: Page)
    requires Tracks(pools, where, capacity) && page < |where| && !where[page].InPool? && |pools[kind]| < capacity
    ensures Tracks(pools[kind := pools[kind] + [page]], where[page := InPool(kind)], capacity)
  {
    var (pools', where') := (pools[kind := pools[kind] + [page]], where[page := InPool(kind)]);
    forall k: Kind ensures PoolOk(pools'[k], k, where', capacity) {
      assert PoolOk(pools[k], k, where, capacity);
    }
  }

  lemma CloseKeepsTracks(pools: map<Kind, seq<Page>>, where: seq<Place>, capacity: nat, page: Page)
    requires Tracks(pools, where, capacity) && page < |where| && !where[page].InPool?
    ensures Tracks(pools, where[page := Closed], capacity)
  {
    forall k: Kind ensures PoolOk(pools[k], k, where[page := Closed], capacity) {
      assert PoolOk(pools[k], k, where, capacity);
    }
  }

  class PagePool {
    const capacity: nat
    var pools: map<Kind, seq<Page>>
    var isWarming: bool
    var created: nat

    /** where[p] is the place of page p; every page ever created has one. */
    ghost var where: seq<Place>

    ghost predicate Valid()
      reads this
    {
      |where| == created && Tracks(pools, where, capacity)
    }

    /** Debugging uses one page of a kind at most. */
    constructor (poolSize: nat, isDebug: bool)
      ensures Valid() && where == [] && !isWarming
      ensures capacity == if isDebug && poolSize > 1 then 1 else poolSize
    {
      capacity := if isDebug && poolSize > 1 then 1 else poolSize;
      pools := map[Search := [], Details := [], Directions := []];
      isWarming, created, where := false, 0, [];
      new;
      forall k: Kind ensures k in pools {
        assert k == Search || k == Details || k == Directions;
      }
    }

    method CreatePage(ghost place: Place, ok: bool) returns (page: Option<Page>)
      requires Valid() && !place.InPool?
      modifies this
      ensures Valid() && pools == old(pools) && isWarming == old(isWarming)
      ensures page.Some? <==> ok
      ensures page.Some? ==> page.value == |old(where)| && where == old(where) + [place]
      ensures page.None? ==> where == old(where)
    {
      if !ok {
        return None;
      }
      CreateKeepsTracks(pools, where, capacity, place);
      page := Some(created);
      where := where + [place];
      created := created + 1;
    }

    /** Send to the pool, or close the page when the channel is full. */
    method SendOrClose(page: Page, kind: Kind)
      requires Valid() && page < |where| && (where[page].BeingPlaced? || where[page].Borrowed?)
      modifies this
      ensures Valid() && isWarming == old(isWarming)
      ensures where == old(where)[page := if |old(pools)[kind]| < capacity then InPool(kind) else Closed]
      ensures pools == if |old(pools)[kind]| < capacity then old(pools)[kind := old(pools)[kind] + [page]] else old(pools)
    {
      if |pools[kind]| < capacity {
        SendKeepsTracks(pools, where, capacity, kind, page);
        pools := pools[kind := pools[kind] + [page]];
        where := where[page := InPool(kind)];
      } else {
        CloseKeepsTracks(pools, where, capacity, page);
        where := where[page := Closed];
      }
    }

    /** A borrower gets the oldest pooled page, and a goroutine will refill the pool; or a new page; or none. The page it gets
        was nobody's. */
    method GetPageFromPool(pageType: Option<Kind>, borrower: nat, ok: bool) returns (page: Option<Page>, refill: bool)
      requires Valid()
      modifies this
      ensures Valid() && isWarming == old(isWarming)
      ensures pageType.None? ==> page.None? && !refill && pools == old(pools) && where == old(where)
      ensures pageType.Some? ==>
                && (refill <==> old(pools)[pageType.value] != [])
                && (page.Some? <==> refill || ok)
                && pools == (if refill then old(pools)[pageType.value := old(pools)[pageType.value][1..]] else old(pools))
                && (refill ==>
                      page == Some(old(pools)[pageType.value][0]) && page.value < |old(where)|
                      && old(where)[page.value] == InPool(pageType.value)
                      && where == old(where)[page.value := Borrowed(borrower)])
                && (page.Some? && !refill ==> page.value == |old(where)| && where == old(where) + [Borrowed(borrower)])
                && (page.None? ==> where == old(where))
    {
      if pageType.None? {
        return None, false;
      }
      var pool := pools[pageType.value];
      if pool != [] {
        ReceiveKeepsTracks(pools, where, capacity, pageType.value, Borrowed(borrower));
        pools := pools[pageType.value := pool[1..]];
        where := where[pool[0] := Borrowed(borrower)];
        return Some(pool[0]), true;
      }
      page := CreatePage(Borrowed(borrower), ok);
      refill := false;
    }

    method ReturnPageToPool(page: Page, pageType: Option<Kind>, ghost borrower: nat)
      requires Valid() && page < |where| && where[page] == Borrowed(borrower)
      modifies this
      ensures Valid() && isWarming == old(isWarming)
      ensures where == old(where)[page :=
                if pageType.Some? && |old(pools)[pageType.value]| < capacity then InPool(pageType.value) else Closed]
      ensures pools == if where[page].InPool? then old(pools)[pageType.value := old(pools)[pageType.value] + [page]]
                       else old(pools)
    {
      if pageType.None? {
        CloseKeepsTracks(pools, where, capacity, page);
        where := where[page := Closed];
        return;
      }
      SendOrClose(page, pageType.value);
    }

    /** A second warm-up does not start while one is running. */
    method BeginWarmup() returns (begun: bool)
      requires Valid()
      modifies this`isWarming
      ensures Valid() && isWarming && (begun <==> !old(isWarming))
    {
      begun := !isWarming;
      isWarming := true;
    }

    method EndWarmup()
      requires Valid() && isWarming
      modifies this`isWarming
      ensures Valid() && !isWarming
    {
      isWarming := false;
    }

    method WarmOne(kind: Kind, ok: bool)
      requires Valid()
      modifies this
      ensures Valid() && isWarming == old(isWarming)
      ensures |pools[kind]| == Min(capacity, |old(pools)[kind]| + if ok then 1 else 0)
      ensures old(pools)[kind] <= pools[kind] && pools == old(pools)[kind := pools[kind]]
      ensures where == old(where)
              || where == old(where) + [InPool(kind)] || where == old(where) + [Closed]
    {
      assert PoolOk(pools[kind], kind, where, capacity);
      var page := CreatePage(BeingPlaced(kind), ok);
      if page.Some? {
        SendOrClose(page.value, kind);
      }
    }

    /** One warm-up goroutine, undisturbed: the pool gains the pages that could be created, up to its capacity, and the
        rest are closed again. */
    method WarmupPages(kind: Kind, oks: seq<bool>)
      requires Valid() && |oks| == WARMUP_PAGES
      modifies this
      ensures Valid() && isWarming == old(isWarming)
      ensures |pools[kind]| == Min(capacity, |old(pools)[kind]| + CountTrue(oks))
      ensures old(pools)[kind] <= pools[kind] && pools == old(pools)[kind := pools[kind]]
      ensures old(where) <= where
      ensures forall p: Page | |old(where)| <= p < |where| :: where[p] == InPool(kind) || where[p] == Closed
    {
      assert PoolOk(pools[kind], kind, where, capacity);
      for i := 0 to WARMUP_PAGES
        invariant Valid() && isWarming == old(isWarming)
        invariant |pools[kind]| == Min(capacity, |old(pools)[kind]| + CountTrue(oks[..i]))
        invariant old(pools)[kind] <= pools[kind] && pools == old(pools)[kind := pools[kind]]
        invariant old(where) <= where
        invariant forall p: Page | |old(where)| <= p < |where| :: where[p] == InPool(kind) || where[p] == Closed
      {
        assert oks[..i + 1][..i] == oks[..i];
        WarmOne(kind, oks[i]);
      }
      assert oks[..WARMUP_PAGES] == oks;
    }

    method ClosePool(kind: Kind)
      requires Valid()
      modifies this
      ensures Valid() && pools == old(pools)[kind := []] && |where| == |old(where)|
      ensures forall p: Page | p < |where| :: where[p] == if old(where)[p] == InPool(kind) then Closed else old(where)[p]
    {
      while pools[kind] != []
        invariant Valid() && pools == old(pools)[kind := pools[kind]] && |where| == |old(where)|
        invariant forall p: Page | p < |where| ::
                    where[p] == old(where)[p] || (where[p] == Closed && old(where)[p] == InPool(kind))
        decreases |pools[kind]|
      {
        ReceiveKeepsTracks(pools, where, capacity, kind, Closed);
        var page := pools[kind][0];
        pools := pools[kind := pools[kind][1..]];
        where := where[page := Closed];
      }
      assert PoolOk(pools[kind], kind, where, capacity);
    }

    /** Closing the service closes every pooled page; borrowed pages and pages being placed are not touched. */
    method Close()
      requires Valid()
      modifies this
      ensures Valid() && forall k: Kind :: pools[k] == []
      ensures |where| == |old(where)|
      ensures forall p: Page | p < |where| :: where[p] == if old(where)[p].InPool? then Closed else old(where)[p]
    {
      ClosePool(Search);
      ClosePool(Details);
      ClosePool(Directions);
      forall k: Kind ensures pools[k] == [] {
        assert k == Search || k == Details || k == Directions;
      }
      forall p: Page | p < |where| ensures where[p] == if old(where)[p].InPool? then Closed else old(where)[p] {
        assert old(where)[p].InPool? ==>
            old(where)[p].kind == Search || old(where)[p].kind == Details || old(where)[p].kind == Directions;
      }
    }
  }

  function Min(a: nat, b: nat): nat {
    if a <= b then a else b
  }

  function CountTrue(bs: seq<bool>): nat {
    if bs == [] then 0 else CountTrue(bs[..|bs| - 1]) + if bs[|bs| - 1] then 1 else 0
  }

  // ----- Conservation

  datatype Bucket = Pooled(kind: Kind) | Out | Placing | Gone

  function BucketOf(place: Place): Bucket {
    match place
    case InPool(kind) => Pooled(kind)
    case Borrowed(_) => Out
    case BeingPlaced(_) => Placing
    case Closed => Gone
  }

  ghost function PagesIn(where: seq<Place>, b: Bucket): set<Page> {
    set p: Page | p < |where| && BucketOf(where[p]) == b
  }

  function CountIn(where: seq<Place>, b: Bucket): nat {
    if where == [] then 0
    else CountIn(where[..|where| - 1], b) + if BucketOf(where[|where| - 1]) == b then 1 else 0
  }

  lemma {:induction false} CountIsSize(where: seq<Place>, b: Bucket)
    ensures |PagesIn(where, b)| == CountIn(where, b)
  {
    if where != [] {
      var last := |where| - 1;
      CountIsSize(where[..last], b);
      assert PagesIn(where, b) == PagesIn(where[..last], b) + if BucketOf(where[last]) == b then {last} else {};
    }
  }

  lemma {:induction false} BucketsAddUp(where: seq<Place>)
    ensures |where| == CountIn(where, Pooled(Search)) + CountIn(where, Pooled(Details)) + CountIn(where, Pooled(Directions))
                       + CountIn(where, Out) + CountIn(where, Placing) + CountIn(where, Gone)
  {
    if where != [] {
      var last := where[|where| - 1];
      BucketsAddUp(where[..|where| - 1]);
      assert last.InPool? ==> last.kind == Search || last.kind == Details || last.kind == Directions;
    }
  }

  lemma {:induction false} CountPooled(pool: seq<Page>, pages: set<Page>)
    requires forall i, j | 0 <= i < j < |pool| :: pool[i] != pool[j]
    requires forall p :: p in pages <==> p in pool
    ensures |pages| == |pool|
  {
    if pool != [] {
      CountPooled(pool[1..], pages - {pool[0]});
    }
  }

  /** Main result: in every state the methods can reach, the pages created are the pooled, the borrowed, the ones being
      placed and the closed, each counted once; so the open ones are bounded by the capacities and the borrowers. */
  lemma PagesAddUp(pools: map<Kind, seq<Page>>, where: seq<Place>, capacity: nat)
    requires Tracks(pools, where, capacity)
    ensures |where| == |pools[Search]| + |pools[Details]| + |pools[Directions]|
                       + |PagesIn(where, Out)| + |PagesIn(where, Placing)| + |PagesIn(where, Gone)|
    ensures |where| - |PagesIn(where, Gone)| <= 3 * capacity + |PagesIn(where, Out)| + |PagesIn(where, Placing)|
  {
    BucketsAddUp(where);
    CountIsSize(where, Out);
    CountIsSize(where, Placing);
    CountIsSize(where, Gone);
    CountPool(pools, where, capacity, Search);
    CountPool(pools, where, capacity, Details);
    CountPool(pools, where, capacity, Directions);
  }

  lemma CountPool(pools: map<Kind, seq<Page>>, where: seq<Place>, capacity: nat, kind: Kind)
    requires Tracks(pools, where, capacity)
    ensures CountIn(where, Pooled(kind)) == |pools[kind]| <= capacity
  {
    assert PoolOk(pools[kind], kind, where, capacity);
    CountIsSize(where, Pooled(kind));
    CountPooled(pools[kind], PagesIn(where, Pooled(kind)));
  }
}
