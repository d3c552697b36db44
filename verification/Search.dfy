/** Round-trip search: which pairs it returns, how often, in which order and on which page. */
module Search {
  import opened Entities

  const MINIMUM_LAYOVER: nat := 120 * MINUTE

  datatype Listing = Listing(id: FlightId, flight: Flight)

  datatype FlightPair = FlightPair(outbound: Listing, inbound: Listing, price: Cents)

  /** Days are counted like times; a time of day is a time within its day. */
  datatype SearchRequest = SearchRequest(
    origin: string, destination: string, departureDay: nat, returnDay: nat, airline: Option<string>,
    minPrice: Option<Cents>, maxPrice: Option<Cents>, timeFrom: Option<nat>, timeTo: Option<nat>)

  function Filter<T>(items: seq<T>, keep: T -> bool): seq<T> {
    if items == [] then []
    else Filter(items[..|items| - 1], keep) + if keep(items[|items| - 1]) then [items[|items| - 1]] else []
  }

  predicate Serves(l: Listing, origin: string, destination: string, day: nat, airline: Option<string>) {
    && l.flight.origin == origin && l.flight.destination == destination
    && l.flight.departureAt / DAY == day
    && (airline.None? || l.flight.airline == airline.value)
  }

  predicate Connects(outbound: Listing, inbound: Listing) {
    inbound.flight.departureAt >= outbound.flight.arrivalAt + MINIMUM_LAYOVER
  }

  function Pair(outbound: Listing, inbound: Listing): FlightPair {
    FlightPair(outbound, inbound, outbound.flight.baseFare + inbound.flight.baseFare)
  }

  /** The connecting pairs of one outbound, in the order of the returns. */
  function Row(outbound: Listing, inbounds: seq<Listing>): seq<FlightPair> {
    if inbounds == [] then []
    else
      var n := |inbounds| - 1;
      Row(outbound, inbounds[..n]) + if Connects(outbound, inbounds[n]) then [Pair(outbound, inbounds[n])] else []
  }

  function Pairs(outbounds: seq<Listing>, inbounds: seq<Listing>): seq<FlightPair> {
    if outbounds == [] then []
    else Pairs(outbounds[..|outbounds| - 1], inbounds) + Row(outbounds[|outbounds| - 1], inbounds)
  }

  predicate InPriceRange(price: Cents, min: Option<Cents>, max: Option<Cents>) {
    !(min.Some? && price < min.value) && !(max.Some? && price > max.value)
  }

  function ApplyPriceFilter(pairs: seq<FlightPair>, min: Option<Cents>, max: Option<Cents>): seq<FlightPair> {
    if min.None? && max.None? then pairs else Filter(pairs, (p: FlightPair) => InPriceRange(p.price, min, max))
  }

  predicate IsWithinTimeWindow(candidate: nat, from: Option<nat>, to: Option<nat>) {
    !(from.Some? && candidate < from.value) && !(to.Some? && candidate > to.value)
  }

  predicate InWindow(p: FlightPair, from: Option<nat>, to: Option<nat>) {
    IsWithinTimeWindow(p.outbound.flight.departureAt % DAY, from, to)
  }

  function ApplyWindow(pairs: seq<FlightPair>, from: Option<nat>, to: Option<nat>): seq<FlightPair> {
    if from.None? && to.None? then pairs else Filter(pairs, (p: FlightPair) => InWindow(p, from, to))
  }

  // ---- Sorting by (outbound departure, return departure)

  type Key = (nat, nat)

  function KeyOf(p: FlightPair): Key {
    (p.outbound.flight.departureAt, p.inbound.flight.departureAt)
  }

  predicate AtMost(a: Key, b: Key) {
    a.0 < b.0 || (a.0 == b.0 && a.1 <= b.1)
  }

  /** Behind every pair whose key is at most its own. */
  function Insert(p: FlightPair, sorted: seq<FlightPair>): seq<FlightPair> {
    if sorted == [] || AtMost(KeyOf(sorted[|sorted| - 1]), KeyOf(p)) then sorted + [p]
    else Insert(p, sorted[..|sorted| - 1]) + [sorted[|sorted| - 1]]
  }

  function StableSort(pairs: seq<FlightPair>): seq<FlightPair> {
    if pairs == [] then [] else Insert(pairs[|pairs| - 1], StableSort(pairs[..|pairs| - 1]))
  }

  function SearchRoundTrip(catalog: seq<Listing>, r: SearchRequest): seq<FlightPair> {
    var outbounds := Filter(catalog, (l: Listing) => Serves(l, r.origin, r.destination, r.departureDay, r.airline));
    var inbounds := Filter(catalog, (l: Listing) => Serves(l, r.destination, r.origin, r.returnDay, r.airline));
    StableSort(ApplyWindow(ApplyPriceFilter(Pairs(outbounds, inbounds), r.minPrice, r.maxPrice), r.timeFrom, r.timeTo))
  }

  // ---- What sorting means

  predicate Sorted(s: seq<FlightPair>) {
    forall i, j :: 0 <= i < j < |s| ==> AtMost(KeyOf(s[i]), KeyOf(s[j]))
  }

  /** The pairs of one key, in their order. */
  function OfKey(s: seq<FlightPair>, key: Key): seq<FlightPair> {
    if s == [] then []
    else OfKey(s[..|s| - 1], key) + if KeyOf(s[|s| - 1]) == key then [s[|s| - 1]] else []
  }

  lemma OfKeyNext(s: seq<FlightPair>, p: FlightPair, key: Key)
    ensures OfKey(s + [p], key) == OfKey(s, key) + if KeyOf(p) == key then [p] else []
  {
    assert (s + [p])[..|s|] == s;
  }

  lemma {:induction false} OfKeyEmpty(s: seq<FlightPair>, key: Key)
    ensures OfKey(s, key) == [] <==> forall i :: 0 <= i < |s| ==> KeyOf(s[i]) != key
  {
    if s != [] {
      OfKeyEmpty(s[..|s| - 1], key);
      assert forall i :: 0 <= i < |s| - 1 ==> s[..|s| - 1][i] == s[i];
    }
  }

  predicate Below(s: seq<FlightPair>, key: Key) {
    forall i :: 0 <= i < |s| ==> AtMost(KeyOf(s[i]), key)
  }

  lemma SortedNext(s: seq<FlightPair>, p: FlightPair)
    ensures Sorted(s + [p]) <==> Sorted(s) && Below(s, KeyOf(p))
  {
    hide AtMost, KeyOf;
    var next := s + [p];
    assert forall i :: 0 <= i < |s| ==> next[i] == s[i];
    if Sorted(next) {
      forall i | 0 <= i < |s| ensures AtMost(KeyOf(s[i]), KeyOf(p)) {
        assert AtMost(KeyOf(next[i]), KeyOf(next[|s|]));
      }
    }
  }

  lemma BelowNext(s: seq<FlightPair>, p: FlightPair, key: Key)
    ensures Below(s + [p], key) <==> Below(s, key) && AtMost(KeyOf(p), key)
  {
    hide AtMost, KeyOf;
    var next := s + [p];
    assert next[|s|] == p && forall i :: 0 <= i < |s| ==> next[i] == s[i];
  }

  lemma BelowMore(s: seq<FlightPair>, a: Key, b: Key)
    requires Below(s, a) && AtMost(a, b)
    ensures Below(s, b)
  {
  }

  lemma {:induction false} InsertBelow(p: FlightPair, s: seq<FlightPair>, key: Key)
    ensures Below(Insert(p, s), key) <==> Below(s, key) && AtMost(KeyOf(p), key)
  {
    if s == [] || AtMost(KeyOf(s[|s| - 1]), KeyOf(p)) {
      BelowNext(s, p, key);
    } else {
      var n := |s| - 1;
      InsertBelow(p, s[..n], key);
      BelowNext(Insert(p, s[..n]), s[n], key);
      assert s == s[..n] + [s[n]];
      BelowNext(s[..n], s[n], key);
    }
  }

  lemma {:induction false} InsertIsSorted(p: FlightPair, s: seq<FlightPair>)
    requires Sorted(s)
    ensures Sorted(Insert(p, s)) && multiset(Insert(p, s)) == multiset(s) + multiset{p}
  {
    hide Sorted, Below, KeyOf;
    if s == [] {
      SortedNext([], p);
      EmptyBelow(KeyOf(p));
    } else {
      var n := |s| - 1;
      assert s == s[..n] + [s[n]];
      SortedNext(s[..n], s[n]);
      if AtMost(KeyOf(s[n]), KeyOf(p)) {
        BelowMore(s[..n], KeyOf(s[n]), KeyOf(p));
        BelowNext(s[..n], s[n], KeyOf(p));
        SortedNext(s, p);
      } else {
        InsertIsSorted(p, s[..n]);
        InsertBelow(p, s[..n], KeyOf(s[n]));
        SortedNext(Insert(p, s[..n]), s[n]);
      }
    }
  }

  lemma EmptyBelow(key: Key)
    ensures Below([], key)
  {
  }

  lemma {:induction false} InsertKeepsOrder(p: FlightPair, s: seq<FlightPair>, key: Key)
    requires Sorted(s)
    ensures OfKey(Insert(p, s), key) == OfKey(s + [p], key)
  {
    hide OfKey, KeyOf;
    if s != [] && !AtMost(KeyOf(s[|s| - 1]), KeyOf(p)) {
      var n := |s| - 1;
      InsertKeepsOrder(p, s[..n], key);
      assert s == s[..n] + [s[n]];
      SortedNext(s[..n], s[n]);
      OfKeyNext(s[..n], s[n], key);
      OfKeyNext(Insert(p, s[..n]), s[n], key);
      OfKeyNext(s[..n], p, key);
      OfKeyNext(s, p, key);
    }
  }

  /** The result is sorted, has the same pairs, and keeps the order of pairs with equal keys. */
  lemma {:induction false} SortIsStable(s: seq<FlightPair>)
    ensures Sorted(StableSort(s)) && multiset(StableSort(s)) == multiset(s)
    ensures forall key :: OfKey(StableSort(s), key) == OfKey(s, key)
  {
    if s != [] {
      var n := |s| - 1;
      SortIsStable(s[..n]);
      assert s == s[..n] + [s[n]];
      InsertIsSorted(s[n], StableSort(s[..n]));
      forall key ensures OfKey(StableSort(s), key) == OfKey(s, key) {
        InsertKeepsOrder(s[n], StableSort(s[..n]), key);
        OfKeyNext(StableSort(s[..n]), s[n], key);
        OfKeyNext(s[..n], s[n], key);
      }
    }
  }

  lemma SameEmptiness(a: seq<FlightPair>, b: seq<FlightPair>)
    requires forall key :: OfKey(a, key) == OfKey(b, key)
    ensures a == [] <==> b == []
  {
    hide KeyOf, OfKey;
    if a != [] {
      OfKeyEmpty(a, KeyOf(a[0]));
      OfKeyEmpty(b, KeyOf(a[0]));
    }
    if b != [] {
      OfKeyEmpty(a, KeyOf(b[0]));
      OfKeyEmpty(b, KeyOf(b[0]));
    }
  }

  /** The last key of a sorted list is its greatest, so it is that of both lists. */
  lemma SameLastKey(a: seq<FlightPair>, b: seq<FlightPair>)
    requires a != [] && b != [] && Sorted(a) && Sorted(b) && forall key :: OfKey(a, key) == OfKey(b, key)
    ensures KeyOf(a[|a| - 1]) == KeyOf(b[|b| - 1])
  {
    hide OfKey, KeyOf, AtMost;
    KeyAmong(a, b);
    KeyAmong(b, a);
    var x, y := KeyOf(a[|a| - 1]), KeyOf(b[|b| - 1]);
    LastIsGreatest(b, x);
    LastIsGreatest(a, y);
    AtMostBoth(x, y);
  }

  lemma KeyAmong(a: seq<FlightPair>, b: seq<FlightPair>)
    requires a != [] && forall key :: OfKey(a, key) == OfKey(b, key)
    ensures exists i :: 0 <= i < |b| && KeyOf(b[i]) == KeyOf(a[|a| - 1])
  {
    hide KeyOf, OfKey;
    OfKeyEmpty(a, KeyOf(a[|a| - 1]));
    OfKeyEmpty(b, KeyOf(a[|a| - 1]));
  }

  lemma LastIsGreatest(s: seq<FlightPair>, key: Key)
    requires s != [] && Sorted(s) && exists i :: 0 <= i < |s| && KeyOf(s[i]) == key
    ensures AtMost(key, KeyOf(s[|s| - 1]))
  {
    hide KeyOf;
  }

  lemma AtMostBoth(x: Key, y: Key)
    requires AtMost(x, y) && AtMost(y, x)
    ensures x == y
  {
  }

  /** These properties leave one result: any stable sort of the same pairs is this one. */
  lemma {:induction false} StableSortIsUnique(a: seq<FlightPair>, b: seq<FlightPair>)
    requires Sorted(a) && Sorted(b) && forall key :: OfKey(a, key) == OfKey(b, key)
    ensures a == b
    decreases |a|
  {
    hide OfKey, Sorted, AtMost, KeyOf;
    if a == [] || b == [] {
      SameEmptiness(a, b);
    } else {
      var p, q := a[|a| - 1], b[|b| - 1];
      SameLastKey(a, b);
      var a', b' := a[..|a| - 1], b[..|b| - 1];
      assert a == a' + [p] && b == b' + [q];
      SortedNext(a', p);
      SortedNext(b', q);
      OfKeyNext(a', p, KeyOf(p));
      OfKeyNext(b', q, KeyOf(p));
      LastEqual(OfKey(a', KeyOf(p)), p, OfKey(b', KeyOf(p)), q);
      forall key ensures OfKey(a', key) == OfKey(b', key) {
        OfKeyNext(a', p, key);
        OfKeyNext(b', q, key);
        if KeyOf(p) == key {
          LastEqual(OfKey(a', key), p, OfKey(b', key), q);
        } else {
          assert OfKey(a', key) + [] == OfKey(a', key) && OfKey(b', key) + [] == OfKey(b', key);
        }
      }
      StableSortIsUnique(a', b');
    }
  }

  lemma LastEqual(a: seq<FlightPair>, p: FlightPair, b: seq<FlightPair>, q: FlightPair)
    requires a + [p] == b + [q]
    ensures a == b && p == q
  {
    assert (a + [p])[|a|] == p && (b + [q])[|b|] == q;
    assert (a + [p])[..|a|] == a && (b + [q])[..|b|] == b;
  }

  // ---- Which pairs

  lemma {:induction false} FilterCount<T>(items: seq<T>, keep: T -> bool, x: T)
    ensures multiset(Filter(items, keep))[x] == if keep(x) then multiset(items)[x] else 0
  {
    if items != [] {
      var n := |items| - 1;
      FilterCount(items[..n], keep, x);
      assert items == items[..n] + [items[n]];
    }
  }

  /** Filters commute: applying them one after the other, in either order, keeps
      what satisfies both. */
  lemma {:induction false} FiltersCommute<T>(items: seq<T>, p: T -> bool, q: T -> bool)
    ensures Filter(Filter(items, p), q) == Filter(Filter(items, q), p)
  {
    if items != [] {
      var n := |items| - 1;
      FiltersCommute(items[..n], p, q);
      FilterNext(Filter(items[..n], p), items[n], q);
      FilterNext(Filter(items[..n], q), items[n], p);
      assert Filter(items[..n], p) + [] == Filter(items[..n], p);
      assert Filter(items[..n], q) + [] == Filter(items[..n], q);
    }
  }

  /** The order in which the price and time filters are applied does not matter. */
  lemma FilterOrderIsIrrelevant(pairs: seq<FlightPair>, r: SearchRequest)
    ensures ApplyWindow(ApplyPriceFilter(pairs, r.minPrice, r.maxPrice), r.timeFrom, r.timeTo)
            == ApplyPriceFilter(ApplyWindow(pairs, r.timeFrom, r.timeTo), r.minPrice, r.maxPrice)
  {
    FiltersCommute(pairs, (p: FlightPair) => InPriceRange(p.price, r.minPrice, r.maxPrice),
                   (p: FlightPair) => InWindow(p, r.timeFrom, r.timeTo));
  }

  lemma FilterNext<T>(items: seq<T>, x: T, keep: T -> bool)
    ensures Filter(items + [x], keep) == Filter(items, keep) + if keep(x) then [x] else []
  {
    assert (items + [x])[..|items|] == items;
  }

  lemma CountNext<T>(s: seq<T>, x: T, y: T)
    ensures multiset(s + [x])[y] == multiset(s)[y] + if x == y then 1 else 0
  {
  }

  lemma PairOf(outbound: Listing, inbound: Listing, p: FlightPair)
    ensures Pair(outbound, inbound) == p <==> p == Pair(outbound, p.inbound) && p.inbound == inbound
  {
  }

  lemma RowNext(outbound: Listing, front: seq<Listing>, last: Listing)
    ensures Row(outbound, front + [last]) == Row(outbound, front) + if Connects(outbound, last) then [Pair(outbound, last)] else []
  {
    assert (front + [last])[..|front|] == front;
  }

  lemma {:induction false} RowCount(outbound: Listing, inbounds: seq<Listing>, p: FlightPair)
    ensures multiset(Row(outbound, inbounds))[p] ==
            if p == Pair(outbound, p.inbound) && Connects(outbound, p.inbound) then multiset(inbounds)[p.inbound] else 0
  {
    if inbounds != [] {
      hide Connects, Pair, Row;
      var n := |inbounds| - 1;
      var rest, last := Row(outbound, inbounds[..n]), inbounds[n];
      PairOf(outbound, last, p);
      RowCount(outbound, inbounds[..n], p);
      assert inbounds == inbounds[..n] + [last];
      RowNext(outbound, inbounds[..n], last);
      CountNext(inbounds[..n], last, p.inbound);
      if Connects(outbound, last) {
        CountNext(rest, Pair(outbound, last), p);
      } else {
        assert rest + [] == rest;
      }
    }
  }

  lemma {:induction false} PairsCount(outbounds: seq<Listing>, inbounds: seq<Listing>, p: FlightPair)
    ensures multiset(Pairs(outbounds, inbounds))[p] ==
            if p == Pair(p.outbound, p.inbound) && Connects(p.outbound, p.inbound)
            then multiset(outbounds)[p.outbound] * multiset(inbounds)[p.inbound] else 0
  {
    hide Connects, Row;
    if outbounds != [] {
      var n := |outbounds| - 1;
      var last := outbounds[n];
      PairsCount(outbounds[..n], inbounds, p);
      RowCount(last, inbounds, p);
      assert outbounds == outbounds[..n] + [last];
      CountNext(outbounds[..n], last, p.outbound);
      MoreProduct(multiset(outbounds[..n])[p.outbound], multiset(inbounds)[p.inbound]);
      CountBoth(Pairs(outbounds[..n], inbounds), Row(last, inbounds), p);
    }
  }

  lemma CountBoth<T>(a: seq<T>, b: seq<T>, x: T)
    ensures multiset(a + b)[x] == multiset(a)[x] + multiset(b)[x]
  {
  }

  lemma MoreProduct(a: nat, b: nat)
    ensures (a + 1) * b == a * b + b
  {
  }

  /** The flight goes from the one place to the other on the day, with the airline asked for. */
  ghost predicate Flies(f: Flight, origin: string, destination: string, day: nat, airline: Option<string>) {
    && f.origin == origin && f.destination == destination && f.departureAt / 86_400_000_000 == day
    && (airline.Some? ==> f.airline == airline.value)
  }

  /** Everything the request asks of a pair, field by field: both legs, the sum of the
      fares, two hours between landing and the return, and the inclusive bounds on the
      price and on the outbound's time of day. */
  ghost predicate Wanted(p: FlightPair, r: SearchRequest) {
    && Flies(p.outbound.flight, r.origin, r.destination, r.departureDay, r.airline)
    && Flies(p.inbound.flight, r.destination, r.origin, r.returnDay, r.airline)
    && p.price == p.outbound.flight.baseFare + p.inbound.flight.baseFare
    && p.inbound.flight.departureAt >= p.outbound.flight.arrivalAt + 7_200_000_000
    && (r.minPrice.Some? ==> p.price >= r.minPrice.value) && (r.maxPrice.Some? ==> p.price <= r.maxPrice.value)
    && (r.timeFrom.Some? ==> p.outbound.flight.departureAt % 86_400_000_000 >= r.timeFrom.value)
    && (r.timeTo.Some? ==> p.outbound.flight.departureAt % 86_400_000_000 <= r.timeTo.value)
  }

  /** The stages of the search all keep the pair. */
  predicate Passes(p: FlightPair, r: SearchRequest) {
    && Serves(p.outbound, r.origin, r.destination, r.departureDay, r.airline)
    && Serves(p.inbound, r.destination, r.origin, r.returnDay, r.airline)
    && p == Pair(p.outbound, p.inbound) && Connects(p.outbound, p.inbound)
    && InPriceRange(p.price, r.minPrice, r.maxPrice) && InWindow(p, r.timeFrom, r.timeTo)
  }

  lemma PassesWhenWanted(p: FlightPair, r: SearchRequest)
    ensures Passes(p, r) <==> Wanted(p, r)
  {
    assert p == FlightPair(p.outbound, p.inbound, p.price);
  }

  /** The number of ways to choose the pair's two flights from the catalog. */
  function Ways(catalog: seq<Listing>, p: FlightPair): nat {
    multiset(catalog)[p.outbound] * multiset(catalog)[p.inbound]
  }

  /** Listed before: some listing of the one flight precedes some listing of the other. */
  ghost predicate Earlier(catalog: seq<Listing>, a: Listing, b: Listing) {
    exists i, j :: 0 <= i < j < |catalog| && catalog[i] == a && catalog[j] == b
  }

  /** By outbound departure, then return departure; pairs that agree in both are in the
      order of the catalog, by outbound and then by return. */
  ghost predicate InOrder(catalog: seq<Listing>, p: FlightPair, q: FlightPair) {
    var p1, p2, q1, q2 := p.outbound.flight.departureAt, p.inbound.flight.departureAt,
                          q.outbound.flight.departureAt, q.inbound.flight.departureAt;
    || p1 < q1
    || (p1 == q1 && p2 < q2)
    || (p1 == q1 && p2 == q2 && ListedBefore(catalog, p, q))
  }

  ghost predicate ListedBefore(catalog: seq<Listing>, p: FlightPair, q: FlightPair) {
    || Earlier(catalog, p.outbound, q.outbound)
    || (p.outbound == q.outbound && Earlier(catalog, p.inbound, q.inbound))
  }

  // ---- Order through the stages

  /** Every element is related to every later one. */
  ghost predicate Chained<T(!new)>(s: seq<T>, rel: (T, T) -> bool) {
    forall i, j :: 0 <= i < j < |s| ==> rel(s[i], s[j])
  }

  lemma ChainedNext<T(!new)>(s: seq<T>, x: T, rel: (T, T) -> bool)
    ensures Chained(s + [x], rel) <==> Chained(s, rel) && forall i :: 0 <= i < |s| ==> rel(s[i], x)
  {
    var next := s + [x];
    assert next[|s|] == x && forall i :: 0 <= i < |s| ==> next[i] == s[i];
    if Chained(next, rel) {
      forall i | 0 <= i < |s| ensures rel(s[i], x) {
        assert rel(next[i], next[|s|]);
      }
    }
  }

  lemma {:induction false} FilteredFrom<T(!new)>(items: seq<T>, keep: T -> bool)
    ensures forall x :: x in Filter(items, keep) ==> x in items
  {
    if items != [] {
      FilteredFrom(items[..|items| - 1], keep);
    }
  }

  /** Filtering keeps related elements related. */
  lemma {:induction false} FilterChained<T(!new)>(items: seq<T>, keep: T -> bool, rel: (T, T) -> bool)
    requires Chained(items, rel)
    ensures Chained(Filter(items, keep), rel)
  {
    if items != [] {
      hide Chained;
      var n := |items| - 1;
      assert items == items[..n] + [items[n]];
      ChainedNext(items[..n], items[n], rel);
      FilterChained(items[..n], keep, rel);
      FilteredFrom(items[..n], keep);
      var front := Filter(items[..n], keep);
      assert front + [] == front;
      forall i | 0 <= i < |front| ensures rel(front[i], items[n]) {
        assert front[i] in front;
        var k :| 0 <= k < n && items[..n][k] == front[i];
      }
      ChainedNext(front, items[n], rel);
    }
  }

  lemma {:induction false} InsertedFrom(p: FlightPair, s: seq<FlightPair>)
    ensures forall x :: x in Insert(p, s) <==> x == p || x in s
  {
    if s != [] {
      InsertedFrom(p, s[..|s| - 1]);
      assert s == s[..|s| - 1] + [s[|s| - 1]];
    }
  }

  /** Placing a pair that every earlier one is related to, behind those not after it. */
  lemma {:induction false} InsertChained(p: FlightPair, s: seq<FlightPair>, rel: (FlightPair, FlightPair) -> bool)
    requires Chained(s, rel) && Sorted(s)
    requires forall x :: x in s && AtMost(KeyOf(x), KeyOf(p)) ==> rel(x, p)
    requires forall x :: x in s && !AtMost(KeyOf(x), KeyOf(p)) ==> rel(p, x)
    ensures Chained(Insert(p, s), rel)
  {
    hide Chained, Sorted, AtMost, KeyOf;
    if s == [] {
      ChainedNext([], p, rel);
      EmptyChained(rel);
    } else {
      var n := |s| - 1;
      assert s == s[..n] + [s[n]];
      if AtMost(KeyOf(s[n]), KeyOf(p)) {
        AllBelow(s, KeyOf(p));
        ChainedNext(s, p, rel);
      } else {
        ChainedNext(s[..n], s[n], rel);
        SortedNext(s[..n], s[n]);
        InsertChained(p, s[..n], rel);
        InsertedFrom(p, s[..n]);
        var front := Insert(p, s[..n]);
        forall i | 0 <= i < |front| ensures rel(front[i], s[n]) {
          if front[i] != p {
            assert front[i] in front;
            var k :| 0 <= k < n && s[..n][k] == front[i];
          }
        }
        ChainedNext(front, s[n], rel);
      }
    }
  }

  lemma EmptyChained(rel: (FlightPair, FlightPair) -> bool)
    ensures Chained([], rel)
  {
  }

  lemma AllBelow(s: seq<FlightPair>, key: Key)
    requires s != [] && Sorted(s) && AtMost(KeyOf(s[|s| - 1]), key)
    ensures forall i :: 0 <= i < |s| ==> AtMost(KeyOf(s[i]), key)
  {
  }

  lemma {:induction false} SortedFrom(s: seq<FlightPair>)
    ensures forall x :: x in StableSort(s) <==> x in s
  {
    if s != [] {
      SortedFrom(s[..|s| - 1]);
      assert s == s[..|s| - 1] + [s[|s| - 1]];
      InsertedFrom(s[|s| - 1], StableSort(s[..|s| - 1]));
    }
  }

  /** A stable sort relates by key, and pairs of one key as before. */
  lemma {:induction false} SortChained(s: seq<FlightPair>, before: (FlightPair, FlightPair) -> bool, rel: (FlightPair, FlightPair) -> bool)
    requires Chained(s, before)
    requires forall p, q :: AtMost(KeyOf(p), KeyOf(q)) && (KeyOf(p) == KeyOf(q) ==> before(p, q)) ==> rel(p, q)
    ensures Chained(StableSort(s), rel)
  {
    if s == [] {
      EmptyChained(rel);
    } else {
      var n := |s| - 1;
      assert s == s[..n] + [s[n]];
      ChainedNext(s[..n], s[n], before);
      hide Chained, Sorted, Insert;
      SortChained(s[..n], before, rel);
      SortIsStable(s[..n]);
      SortedFrom(s[..n]);
      var sorted := StableSort(s[..n]);
      forall x | x in sorted ensures before(x, s[n]) {
        var i :| 0 <= i < n && s[..n][i] == x;
        assert s[i] == x;
      }
      InsertChained(s[n], sorted, rel);
    }
  }

  lemma CatalogChained(catalog: seq<Listing>)
    ensures Chained(catalog, (a, b) => Earlier(catalog, a, b))
  {
  }

  lemma {:induction false} RowChained(outbound: Listing, inbounds: seq<Listing>, catalog: seq<Listing>)
    requires Chained(inbounds, (a, b) => Earlier(catalog, a, b))
    ensures Chained(Row(outbound, inbounds), (p, q) => ListedBefore(catalog, p, q))
    ensures forall x :: x in Row(outbound, inbounds) ==> x.outbound == outbound && x.inbound in inbounds
  {
    hide Earlier, Chained;
    var rel := (p: FlightPair, q: FlightPair) => ListedBefore(catalog, p, q);
    if inbounds == [] {
      EmptyChained(rel);
    } else {
      var n := |inbounds| - 1;
      var last := inbounds[n];
      assert inbounds == inbounds[..n] + [last];
      ChainedNext(inbounds[..n], last, (a, b) => Earlier(catalog, a, b));
      RowChained(outbound, inbounds[..n], catalog);
      var front := Row(outbound, inbounds[..n]);
      assert front + [] == front;
      forall i | 0 <= i < |front| ensures rel(front[i], Pair(outbound, last)) {
        var k :| 0 <= k < n && inbounds[..n][k] == front[i].inbound;
      }
      ChainedNext(front, Pair(outbound, last), rel);
    }
  }

  lemma ChainedAppend<T(!new)>(a: seq<T>, b: seq<T>, rel: (T, T) -> bool)
    requires Chained(a, rel) && Chained(b, rel) && forall x, y :: x in a && y in b ==> rel(x, y)
    ensures Chained(a + b, rel)
  {
    var s := a + b;
    forall i, j | 0 <= i < j < |s| ensures rel(s[i], s[j]) {
      if j < |a| {
      } else if i < |a| {
        assert s[i] in a && s[j] in b;
      } else {
        assert s[i] == b[i - |a|] && s[j] == b[j - |a|];
      }
    }
  }

  lemma {:induction false} PairsChained(outbounds: seq<Listing>, inbounds: seq<Listing>, catalog: seq<Listing>)
    requires Chained(outbounds, (a, b) => Earlier(catalog, a, b)) && Chained(inbounds, (a, b) => Earlier(catalog, a, b))
    ensures Chained(Pairs(outbounds, inbounds), (p, q) => ListedBefore(catalog, p, q))
    ensures forall x :: x in Pairs(outbounds, inbounds) ==> x.outbound in outbounds
  {
    hide Earlier, Chained, Row;
    var rel := (p: FlightPair, q: FlightPair) => ListedBefore(catalog, p, q);
    if outbounds == [] {
      EmptyChained(rel);
    } else {
      var n := |outbounds| - 1;
      var last := outbounds[n];
      assert outbounds == outbounds[..n] + [last];
      ChainedNext(outbounds[..n], last, (a, b) => Earlier(catalog, a, b));
      PairsChained(outbounds[..n], inbounds, catalog);
      RowChained(last, inbounds, catalog);
      ChainedAppend(Pairs(outbounds[..n], inbounds), Row(last, inbounds), rel);
    }
  }

  // ---- The result

  lemma RoundTripCounts(catalog: seq<Listing>, r: SearchRequest, p: FlightPair)
    ensures multiset(SearchRoundTrip(catalog, r))[p] == if Passes(p, r) then Ways(catalog, p) else 0
  {
    var leaves := (l: Listing) => Serves(l, r.origin, r.destination, r.departureDay, r.airline);
    var returns' := (l: Listing) => Serves(l, r.destination, r.origin, r.returnDay, r.airline);
    hide Serves, Connects, InPriceRange, InWindow, Sorted, Pairs, StableSort;
    var outbounds, inbounds := Filter(catalog, leaves), Filter(catalog, returns');
    var pairs := Pairs(outbounds, inbounds);
    var priced := ApplyPriceFilter(pairs, r.minPrice, r.maxPrice);
    FilterCount(catalog, leaves, p.outbound);
    FilterCount(catalog, returns', p.inbound);
    PairsCount(outbounds, inbounds, p);
    FilterCount(pairs, (p: FlightPair) => InPriceRange(p.price, r.minPrice, r.maxPrice), p);
    FilterCount(priced, (p: FlightPair) => InWindow(p, r.timeFrom, r.timeTo), p);
    NoBounds(p, r);
    SortIsStable(ApplyWindow(priced, r.timeFrom, r.timeTo));
  }

  lemma NoBounds(p: FlightPair, r: SearchRequest)
    ensures r.minPrice.None? && r.maxPrice.None? ==> InPriceRange(p.price, r.minPrice, r.maxPrice)
    ensures r.timeFrom.None? && r.timeTo.None? ==> InWindow(p, r.timeFrom, r.timeTo)
  {
  }

  /** Every pair satisfying all the request asks is returned once for each way to choose
      its two flights from the catalog, so once when the catalog lists no flight twice;
      no other pair is returned. */
  lemma RoundTripIsExact(catalog: seq<Listing>, r: SearchRequest, p: FlightPair)
    ensures multiset(SearchRoundTrip(catalog, r))[p] == if Wanted(p, r) then Ways(catalog, p) else 0
  {
    hide SearchRoundTrip, Passes, Wanted, Ways;
    RoundTripCounts(catalog, r, p);
    PassesWhenWanted(p, r);
  }

  /** The result is in the order of departures, and of the catalog where these agree. */
  lemma RoundTripIsOrdered(catalog: seq<Listing>, r: SearchRequest)
    ensures var result := SearchRoundTrip(catalog, r);
            forall i, j :: 0 <= i < j < |result| ==> InOrder(catalog, result[i], result[j])
  {
    hide Earlier, Pairs;
    var leaves := (l: Listing) => Serves(l, r.origin, r.destination, r.departureDay, r.airline);
    var returns' := (l: Listing) => Serves(l, r.destination, r.origin, r.returnDay, r.airline);
    var listed := (a: Listing, b: Listing) => Earlier(catalog, a, b);
    var before := (p: FlightPair, q: FlightPair) => ListedBefore(catalog, p, q);
    var pairs := Pairs(Filter(catalog, leaves), Filter(catalog, returns'));
    var priced := ApplyPriceFilter(pairs, r.minPrice, r.maxPrice);
    CatalogChained(catalog);
    FilterChained(catalog, leaves, listed);
    FilterChained(catalog, returns', listed);
    PairsChained(Filter(catalog, leaves), Filter(catalog, returns'), catalog);
    FilterChained(pairs, (p: FlightPair) => InPriceRange(p.price, r.minPrice, r.maxPrice), before);
    FilterChained(priced, (p: FlightPair) => InWindow(p, r.timeFrom, r.timeTo), before);
    SortChained(ApplyWindow(priced, r.timeFrom, r.timeTo), before, (p, q) => InOrder(catalog, p, q));
  }

  // ---- Pages

  function Least(a: nat, b: nat): nat { if a <= b then a else b }

  /** The slice of one page, numbered from 1; a slice past the end is empty. */
  function Page<T>(items: seq<T>, page: nat, size: nat): seq<T>
    requires page >= 1
  {
    var start := Least((page - 1) * size, |items|);
    items[start..Least((page - 1) * size + size, |items|)]
  }

  function FirstPages<T>(items: seq<T>, pages: nat, size: nat): seq<T> {
    if pages == 0 then [] else FirstPages(items, pages - 1, size) + Page(items, pages, size)
  }

  /** The pages, one after the other, are the list, without gap or overlap. */
  lemma {:induction false} PagesCover<T>(items: seq<T>, pages: nat, size: nat)
    ensures FirstPages(items, pages, size) == items[..Least(pages * size, |items|)]
  {
    if pages > 0 {
      PagesCover(items, pages - 1, size);
      assert pages * size == (pages - 1) * size + size;
    }
  }
}
