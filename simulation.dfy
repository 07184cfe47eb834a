/** Monte Carlo evaluation of a routing schedule: bootstrap demand samples per
    store, traffic delays per simulation, route demands, the capacity repair
    that peels stores off over-full routes into dedicated trips, hours per
    route and per trip, the truck count and the piecewise hourly cost. Random
    draws are parameters. Per-simulation tables are indexed [simulation][route]. */
module Simulation {
  import opened Common

  const CAPACITY := 20                 // pallets per truck
  const SECONDS_PER_PALLET := 600
  const NOEL_LEEMING_ROWS := 20        // rows 0..19 of the demand table
  const DAY_COLUMNS := 28              // four weeks of daily demand per store
  const WEEKDAY: seq<nat> := [0, 1, 2, 3, 4, 7, 8, 9, 10, 11, 14, 15, 16, 17, 18, 21, 22, 23, 24, 25]
  const WEEKEND: seq<nat> := [5, 6, 12, 13, 19, 20, 26, 27]
  const GROUPED := "Noel Leeming Grouped Stores"
  const MIN_EXTRA := 20                // minutes of delay per hour, lower bound
  const WEEKDAY_EXTRA_END := 60        // exclusive upper bounds of the delay draw
  const WEEKEND_EXTRA_END := 40

  // ---------------------------------------------------------------------------
  // Demand samples

  /** Weekday column j is day j % 5 of week j / 5. */
  lemma WeekdayColumns()
    ensures forall j :: 0 <= j < |WEEKDAY| ==> WEEKDAY[j] == 7 * (j / 5) + j % 5
  {
  }

  /** Weekend column j is day 5 + j % 2 of week j / 2. */
  lemma WeekendColumns()
    ensures forall j :: 0 <= j < |WEEKEND| ==> WEEKEND[j] == 7 * (j / 2) + 5 + j % 2
  {
  }

  /** The weekday and the weekend columns split the 28 day columns: no column
      repeats or is in both, and every column below 28 is in one of them. */
  lemma DayColumnsDisjoint()
    ensures Distinct(WEEKDAY) && Distinct(WEEKEND)
    ensures forall c :: c in WEEKDAY ==> c !in WEEKEND
  {
    WeekdayColumns();
    WeekendColumns();
    assert forall j :: 0 <= j < |WEEKDAY| ==> WEEKDAY[j] % 7 < 5;
    assert forall j :: 0 <= j < |WEEKEND| ==> WEEKEND[j] % 7 >= 5;
  }

  lemma DayColumnsCover()
    ensures forall c: nat :: c < DAY_COLUMNS <==> c in WEEKDAY || c in WEEKEND
  {
    forall c: nat | c < DAY_COLUMNS ensures c in WEEKDAY || c in WEEKEND {
      DayColumnOf(c);
    }
    DayColumnsBelow();
  }

  lemma DayColumnOf(c: nat)
    requires c < DAY_COLUMNS
    ensures c in WEEKDAY || c in WEEKEND
  {
    var week, day := c / 7, c % 7;
    assert c == 7 * week + day && week < 4;
    if day < 5 {
      var j := 5 * week + day;
      assert j / 5 == week && j % 5 == day;
      WeekdayColumns();
      assert WEEKDAY[j] == c;
    } else {
      var j := 2 * week + day - 5;
      assert j / 2 == week && j % 2 == day - 5;
      WeekendColumns();
      assert WEEKEND[j] == c;
    }
  }

  lemma DayColumnsBelow()
    ensures forall j :: 0 <= j < |WEEKDAY| ==> WEEKDAY[j] < DAY_COLUMNS
    ensures forall j :: 0 <= j < |WEEKEND| ==> WEEKEND[j] < DAY_COLUMNS
  {
  }

  function DayColumns(week: bool): (cols: seq<nat>)
    ensures forall j :: 0 <= j < |cols| ==> cols[j] < DAY_COLUMNS
  {
    if week then WEEKDAY else WEEKEND
  }

  /** Every row of the demand table has the 28 day columns. */
  predicate Shaped(rows: seq<seq<nat>>)
  {
    forall r :: 0 <= r < |rows| ==> |rows[r]| >= DAY_COLUMNS
  }

  /** The cells of the given day columns, row after row. */
  function Flatten(rows: seq<seq<nat>>, cols: seq<nat>): seq<nat>
    requires Shaped(rows) && forall j :: 0 <= j < |cols| ==> cols[j] < DAY_COLUMNS
    decreases |rows|
  {
    if rows == [] then []
    else
      var last := rows[|rows| - 1];
      Flatten(rows[..|rows| - 1], cols) + seq(|cols|, j requires 0 <= j < |cols| => last[cols[j]])
  }

  lemma {:induction false} FlattenSize(rows: seq<seq<nat>>, cols: seq<nat>)
    requires Shaped(rows) && forall j :: 0 <= j < |cols| ==> cols[j] < DAY_COLUMNS
    ensures |Flatten(rows, cols)| == |rows| * |cols|
    decreases |rows|
  {
    if rows != [] {
      var n := |rows| - 1;
      FlattenSize(rows[..n], cols);
      MulSucc(n, |cols|);
    }
  }

  lemma MulSucc(a: nat, c: nat)
    ensures a * c + c == (a + 1) * c
  {
  }

  lemma {:induction false} MulMono(a: nat, b: nat, c: nat)
    requires a <= b
    ensures a * c <= b * c
    decreases b - a
  {
    if a < b {
      MulMono(a, b - 1, c);
      MulSucc(b - 1, c);
    }
  }

  /** Entry r * |cols| + j of the flattened table is row r's cell in column cols[j]. */
  lemma {:induction false} FlattenIndex(rows: seq<seq<nat>>, cols: seq<nat>, r: nat, j: nat)
    requires Shaped(rows) && forall j :: 0 <= j < |cols| ==> cols[j] < DAY_COLUMNS
    requires r < |rows| && j < |cols|
    ensures |Flatten(rows, cols)| == |rows| * |cols|
    ensures r * |cols| + j < |Flatten(rows, cols)| && Flatten(rows, cols)[r * |cols| + j] == rows[r][cols[j]]
    decreases |rows|
  {
    var n := |rows| - 1;
    var init := rows[..n];
    FlattenSize(rows, cols);
    FlattenSize(init, cols);
    MulSucc(r, |cols|);
    if r < n {
      FlattenIndex(init, cols, r, j);
      MulMono(r + 1, n, |cols|);
    }
  }

  function NoelLeemingRows(rows: seq<seq<nat>>): seq<seq<nat>>
  {
    if |rows| <= NOEL_LEEMING_ROWS then rows else rows[..NOEL_LEEMING_ROWS]
  }

  function WarehouseRows(rows: seq<seq<nat>>): seq<seq<nat>>
  {
    if |rows| <= NOEL_LEEMING_ROWS then [] else rows[NOEL_LEEMING_ROWS..]
  }

  /** The store groups behind a store name. */
  datatype Brand = Grouped | NoelLeeming | Warehouse | Mixed

  function BrandOf(store: string): Brand
  {
    if store == GROUPED then Grouped
    else if |store| >= 4 && store[..4] == "Noel" then NoelLeeming
    else if |store| >= 3 && store[..3] == "The" then Warehouse
    else Mixed
  }

  /** The pool indices drawn for one store: first for the store's own pool
      (Noel Leeming for Grouped and Noel Leeming names, Warehouse otherwise),
      second for the additional Noel Leeming draw of Grouped and Mixed names. */
  datatype Indices = Indices(first: seq<nat>, second: seq<nat>)

  predicate TwoDraws(b: Brand)
  {
    b == Grouped || b == Mixed
  }

  /** The draws for a store are n indices into each pool they index. */
  predicate ValidIndices(b: Brand, ix: Indices, n: nat, noel: seq<nat>, warehouse: seq<nat>)
  {
    && |ix.first| == n
    && (forall t :: 0 <= t < n ==> ix.first[t] < if b == Grouped || b == NoelLeeming then |noel| else |warehouse|)
    && (TwoDraws(b) ==> |ix.second| == n && forall t :: 0 <= t < n ==> ix.second[t] < |noel|)
  }

  /** The n demand values of one store, by its brand: two Noel Leeming draws
      summed for the grouped stores, one Noel Leeming draw for a "Noel" name,
      one Warehouse draw for a "The" name, and a Warehouse draw plus a Noel
      Leeming draw for anything else. */
  predicate SampledAs(b: Brand, ix: Indices, n: nat, noel: seq<nat>, warehouse: seq<nat>, values: seq<nat>)
    requires ValidIndices(b, ix, n, noel, warehouse)
  {
    && |values| == n
    && forall t :: 0 <= t < n ==>
         values[t] == match b
           case Grouped => noel[ix.first[t]] + noel[ix.second[t]]
           case NoelLeeming => noel[ix.first[t]]
           case Warehouse => warehouse[ix.first[t]]
           case Mixed => warehouse[ix.first[t]] + noel[ix.second[t]]
  }

  /** getSimulatedDemands: n bootstrap values for every store, drawn from the
      demand table's day columns of the chosen week part. */
  method GetSimulatedDemands(stores: seq<string>, rows: seq<seq<nat>>, n: nat, week: bool, draws: seq<Indices>)
    returns (sim: map<string, seq<nat>>)
    requires Distinct(stores) && Shaped(rows) && |draws| == |stores|
    requires var noel, warehouse := Flatten(NoelLeemingRows(rows), DayColumns(week)), Flatten(WarehouseRows(rows), DayColumns(week));
      forall k :: 0 <= k < |stores| ==> ValidIndices(BrandOf(stores[k]), draws[k], n, noel, warehouse)
    ensures forall s :: s in sim <==> s in stores
    ensures Rectangular(sim, n)
    ensures var noel, warehouse := Flatten(NoelLeemingRows(rows), DayColumns(week)), Flatten(WarehouseRows(rows), DayColumns(week));
      forall k :: 0 <= k < |stores| ==> SampledAs(BrandOf(stores[k]), draws[k], n, noel, warehouse, sim[stores[k]])
  {
    var cols := DayColumns(week);
    var noel := Flatten(NoelLeemingRows(rows), cols);
    var warehouse := Flatten(WarehouseRows(rows), cols);
    sim := map[];
    for k := 0 to |stores|
      invariant forall s :: s in sim <==> s in stores[..k]
      invariant Rectangular(sim, n)
      invariant forall q :: 0 <= q < k ==> SampledAs(BrandOf(stores[q]), draws[q], n, noel, warehouse, sim[stores[q]])
    {
      var values := SampleStore(stores[k], draws[k], n, noel, warehouse);
      assert stores[..k + 1] == stores[..k] + [stores[k]];
      assert forall q :: 0 <= q < k ==> stores[q] != stores[k];
      sim := sim[stores[k] := values];
    }
    assert stores[..|stores|] == stores;
  }

  /** The body of getSimulatedDemands' loop: one store's n values, chosen by
      the tests on its name. */
  method SampleStore(store: string, ix: Indices, n: nat, noel: seq<nat>, warehouse: seq<nat>) returns (values: seq<nat>)
    requires ValidIndices(BrandOf(store), ix, n, noel, warehouse)
    ensures SampledAs(BrandOf(store), ix, n, noel, warehouse, values)
  {
    match BrandOf(store)
    case Grouped =>
      values := seq(n, t requires 0 <= t < n => noel[ix.first[t]] + noel[ix.second[t]]);
    case NoelLeeming =>
      values := seq(n, t requires 0 <= t < n => noel[ix.first[t]]);
    case Warehouse =>
      values := seq(n, t requires 0 <= t < n => warehouse[ix.first[t]]);
    case Mixed =>
      values := seq(n, t requires 0 <= t < n => warehouse[ix.first[t]] + noel[ix.second[t]]);
  }

  /** getSimulatedTime: n delays in minutes per hour, 20 plus an offset drawn
      below 40 on weekdays and below 20 at weekends. */
  function SimulatedTime(n: nat, weekday: bool, offsets: seq<nat>): (extra: seq<int>)
    requires |offsets| == n
    requires forall k :: 0 <= k < n ==> offsets[k] < (if weekday then WEEKDAY_EXTRA_END else WEEKEND_EXTRA_END) - MIN_EXTRA
    ensures |extra| == n
    ensures forall k :: 0 <= k < n ==>
      MIN_EXTRA <= extra[k] < if weekday then WEEKDAY_EXTRA_END else WEEKEND_EXTRA_END
  {
    seq(n, k requires 0 <= k < n => MIN_EXTRA + offsets[k])
  }

  // ---------------------------------------------------------------------------
  // Route demand

  /** Every store has exactly n simulated values. */
  predicate Rectangular(sim: map<string, seq<nat>>, n: nat)
  {
    forall s :: s in sim ==> |sim[s]| == n
  }

  /** Every store between a route's first and last stop has simulated values. */
  predicate RoutesCovered(routes: seq<seq<string>>, sim: map<string, seq<nat>>)
  {
    forall j, x :: 0 <= j < |routes| && x in Mids(routes[j]) ==> x in sim
  }

  /** Simulation i's demand of every store: column i of the simulated table. */
  function Column(sim: map<string, seq<nat>>, i: nat): (d: map<string, nat>)
    ensures forall s :: s in d <==> s in sim && i < |sim[s]|
  {
    map s | s in sim && i < |sim[s]| :: sim[s][i]
  }

  /** The demand of one route: its stores' demands, the centre at either end excluded. */
  method RouteDemand(stops: seq<string>, demand: map<string, nat>) returns (total: nat)
    requires Covered(Mids(stops), demand)
    ensures total == PalletSum(Mids(stops), demand)
  {
    var mids := Mids(stops);
    total := 0;
    for k := 0 to |mids|
      invariant total == PalletSum(mids[..k], demand)
    {
      assert mids[..k + 1] == mids[..k] + [mids[k]];
      PalletSumSnoc(mids[..k], mids[k], demand);
      total := total + demand[mids[k]];
    }
    assert mids[..|mids|] == mids;
  }

  /** calculateDemand: the demand of every route, in route order. */
  method CalculateDemand(routes: seq<seq<string>>, demand: map<string, nat>) returns (demands: seq<nat>)
    requires forall j :: 0 <= j < |routes| ==> Covered(Mids(routes[j]), demand)
    ensures |demands| == |routes|
    ensures forall j :: 0 <= j < |routes| ==> demands[j] == PalletSum(Mids(routes[j]), demand)
  {
    demands := [];
    for j := 0 to |routes|
      invariant |demands| == j
      invariant forall q :: 0 <= q < j ==> demands[q] == PalletSum(Mids(routes[q]), demand)
    {
      var total := RouteDemand(routes[j], demand);
      demands := demands + [total];
    }
  }

  /** simulateDemand: for every simulation, the demand of every route under
      that simulation's store demands. */
  method SimulateDemand(routes: seq<seq<string>>, sim: map<string, seq<nat>>, n: nat) returns (table: seq<seq<nat>>)
    requires n >= 1 && Rectangular(sim, n) && RoutesCovered(routes, sim)
    ensures |table| == n
    ensures forall i :: 0 <= i < n ==> (|table[i]| == |routes| &&
      forall j :: 0 <= j < |routes| ==> table[i][j] == PalletSum(Mids(routes[j]), Column(sim, i)))
  {
    table := [];
    for i := 0 to n
      invariant |table| == i
      invariant forall q :: 0 <= q < i ==> (|table[q]| == |routes| &&
        forall j :: 0 <= j < |routes| ==> table[q][j] == PalletSum(Mids(routes[j]), Column(sim, q)))
    {
      var demands := CalculateDemand(routes, Column(sim, i));
      table := table + [demands];
    }
  }

  /** Demand adds up over a split of the store list. */
  lemma {:induction false} PalletSumAppend(a: seq<string>, b: seq<string>, d: map<string, nat>)
    ensures PalletSum(a + b, d) == PalletSum(a, d) + PalletSum(b, d)
    decreases |b|
  {
    if b == [] {
      assert a + b == a;
    } else {
      var init := b[..|b| - 1];
      PalletSumAppend(a, init, d);
      assert (a + b)[..|a + b| - 1] == a + init;
    }
  }

  /** The centre at both ends of a tour adds nothing to its demand. */
  lemma TourDemand(centre: string, mids: seq<string>, d: map<string, nat>)
    ensures PalletSum(Mids(Tour(centre, mids)), d) == PalletSum(mids, d)
  {
    MidsOfTour(centre, mids);
  }

  // ---------------------------------------------------------------------------
  // Capacity repair

  /** The peel loop of adjustRoutes can run on a route with these stores:
      when it is over capacity, taking all of them off brings it within
      capacity (otherwise the loop would go on to pop the centre). */
  predicate Peelable(stores: seq<string>, demand: int, d: map<string, nat>)
  {
    demand > CAPACITY ==> demand - PalletSum(stores, d) <= CAPACITY
  }

  /** The peel of an over-full route, on its stores (the stops between the
      centres): pop the last store, take its demand off, and go on until the
      demand is at most 20. The kept stores, their demand and the popped
      stores in pop order. */
  function Peel(stores: seq<string>, demand: int, d: map<string, nat>): (seq<string>, int, seq<string>)
    decreases |stores|
  {
    if stores == [] then ([], demand, [])
    else
      var store := stores[|stores| - 1];
      var rest := stores[..|stores| - 1];
      var left := demand - Load(d, store);
      if left <= CAPACITY then (rest, left, [store])
      else
        var r := Peel(rest, left, d);
        (r.0, r.1, [store] + r.2)
  }

  /** One pass of the peel loop on a route that can be peeled: a route that
      is over capacity still has a store to pop, and after the pop it can
      still be peeled. */
  lemma PeelStep(stores: seq<string>, demand: int, d: map<string, nat>)
    requires Peelable(stores, demand, d) && demand > CAPACITY
    ensures |stores| >= 1
    ensures Peelable(stores[..|stores| - 1], demand - Load(d, stores[|stores| - 1]), d)
  {
  }

  /** What the peel loop still has to do from a state of it. */
  function PeelFrom(stores: seq<string>, demand: int, d: map<string, nat>, popped: seq<string>, looping: bool): (seq<string>, int, seq<string>)
  {
    if looping then
      var r := Peel(stores, demand, d);
      (r.0, r.1, popped + r.2)
    else (stores, demand, popped)
  }

  /** One pass of the peel loop leaves what remains to be done unchanged. */
  lemma PeelFromStep(stores: seq<string>, demand: int, d: map<string, nat>, popped: seq<string>)
    requires |stores| >= 1
    ensures var store := stores[|stores| - 1]; var left := demand - Load(d, store);
      PeelFrom(stores, demand, d, popped, true) ==
      PeelFrom(stores[..|stores| - 1], left, d, popped + [store], left > CAPACITY)
  {
    var store := stores[|stores| - 1];
    var left := demand - Load(d, store);
    if left > CAPACITY {
      var more := Peel(stores[..|stores| - 1], left, d).2;
      assert popped + ([store] + more) == (popped + [store]) + more;
    }
  }

  /** Popping the second-to-last stop takes the last store off the route. */
  lemma MidsDrop(stops: seq<string>)
    requires |stops| >= 3
    ensures var m := Mids(stops);
      && |m| == |stops| - 2 && m[|m| - 1] == stops[|stops| - 2]
      && Mids(DropSecondToLast(stops)) == m[..|m| - 1]
  {
    var m := Mids(stops);
    assert Mids(DropSecondToLast(stops)) == stops[1..|stops| - 2] == m[..|m| - 1];
  }

  /** The peel loop of adjustRoutes on a copy of the route's stop list. It
      keeps the two centres and the stores Peel keeps; the source looks every
      popped store up in the demand estimate. */
  method PeelRoute(stops: seq<string>, demand: int, d: map<string, nat>) returns (kept: seq<string>, newDemand: int, popped: seq<string>)
    requires |stops| >= 2 && Peelable(Mids(stops), demand, d) && demand > CAPACITY
    requires Covered(Mids(stops), d)
    ensures |kept| >= 2 && kept[0] == stops[0] && kept[|kept| - 1] == stops[|stops| - 1]
    ensures (Mids(kept), newDemand, popped) == Peel(Mids(stops), demand, d)
  {
    kept, newDemand, popped := stops, demand, [];
    var keepLooping := true;
    assert [] + Peel(Mids(stops), demand, d).2 == Peel(Mids(stops), demand, d).2;
    while keepLooping
      invariant |kept| >= 2 && kept[0] == stops[0] && kept[|kept| - 1] == stops[|stops| - 1]
      invariant keepLooping ==> Peelable(Mids(kept), newDemand, d) && newDemand > CAPACITY
      invariant keepLooping ==> Covered(Mids(kept), d)
      invariant PeelFrom(Mids(kept), newDemand, d, popped, keepLooping) == Peel(Mids(stops), demand, d)
      decreases |kept|, keepLooping
    {
      PeelStep(Mids(kept), newDemand, d);
      PeelFromStep(Mids(kept), newDemand, d, popped);
      MidsDrop(kept);
      var store := kept[|kept| - 2];
      assert store in Mids(kept);
      assert forall x :: x in Mids(DropSecondToLast(kept)) ==> x in Mids(kept);
      kept := DropSecondToLast(kept);
      popped := popped + [store];
      newDemand := newDemand - d[store];
      if newDemand <= CAPACITY {
        keepLooping := false;
      }
    }
  }

  /** A list of at least two stops is its first stop, its stores and its last stop. */
  lemma MidsSplit(stops: seq<string>)
    requires |stops| >= 2
    ensures stops == [stops[0]] + Mids(stops) + [stops[|stops| - 1]]
  {
  }

  /** The peel brings the route within capacity, pops at least one store and
      conserves demand: the route's demand is the kept demand plus the popped
      stores' demands. */
  lemma {:induction false} PeelDemand(stores: seq<string>, demand: int, d: map<string, nat>)
    requires Peelable(stores, demand, d) && demand > CAPACITY
    ensures var r := Peel(stores, demand, d);
      r.1 <= CAPACITY && |r.2| >= 1 && demand == r.1 + PalletSum(r.2, d)
    decreases |stores|
  {
    PeelStep(stores, demand, d);
    var store := stores[|stores| - 1];
    var left := demand - Load(d, store);
    PalletSumOne(store, d);
    if left > CAPACITY {
      PeelDemand(stores[..|stores| - 1], left, d);
      var r := Peel(stores[..|stores| - 1], left, d);
      PalletSumAppend([store], r.2, d);
    }
  }

  /** The peel stops at the first pop that brings the route within capacity:
      putting the last popped store back would take it over capacity again. */
  lemma {:induction false} PeelLastNeeded(stores: seq<string>, demand: int, d: map<string, nat>)
    requires Peelable(stores, demand, d) && demand > CAPACITY
    ensures var r := Peel(stores, demand, d);
      |r.2| >= 1 && r.1 + Load(d, r.2[|r.2| - 1]) > CAPACITY
    decreases |stores|
  {
    PeelStep(stores, demand, d);
    var store := stores[|stores| - 1];
    var left := demand - Load(d, store);
    if left > CAPACITY {
      PeelLastNeeded(stores[..|stores| - 1], left, d);
      var r := Peel(stores[..|stores| - 1], left, d);
      var popped := [store] + r.2;
      assert popped[|popped| - 1] == r.2[|r.2| - 1];
    }
  }

  /** Hence before every earlier pop the route was still over capacity. */
  lemma PeelStopsFirst(stores: seq<string>, demand: int, d: map<string, nat>)
    requires Peelable(stores, demand, d) && demand > CAPACITY
    ensures var popped := Peel(stores, demand, d).2;
      forall t :: 1 <= t < |popped| ==> demand - PalletSum(popped[..t], d) > CAPACITY
  {
    PeelDemand(stores, demand, d);
    PeelLastNeeded(stores, demand, d);
    var popped := Peel(stores, demand, d).2;
    var all := popped[..|popped| - 1];
    assert PalletSum(popped, d) == PalletSum(all, d) + Load(d, popped[|popped| - 1]);
    forall t | 1 <= t < |popped| ensures demand - PalletSum(popped[..t], d) > CAPACITY {
      assert all == popped[..t] + all[t..];
      PalletSumAppend(popped[..t], all[t..], d);
    }
  }

  /** The peel pops stores off the end of the route, the last store first,
      and keeps a prefix of the stores. */
  lemma {:induction false} PeelShape(stores: seq<string>, demand: int, d: map<string, nat>)
    requires Peelable(stores, demand, d) && demand > CAPACITY
    ensures var r := Peel(stores, demand, d);
      && |r.0| + |r.2| == |stores| && r.0 == stores[..|r.0|]
      && forall t :: 0 <= t < |r.2| ==> r.2[t] == stores[|stores| - 1 - t]
    decreases |stores|
  {
    PeelStep(stores, demand, d);
    var store := stores[|stores| - 1];
    var rest := stores[..|stores| - 1];
    var left := demand - Load(d, store);
    if left > CAPACITY {
      PeelShape(rest, left, d);
      var r := Peel(rest, left, d);
      assert rest[..|r.0|] == stores[..|r.0|];
    }
  }

  /** The popped stores are stores of the route. */
  lemma PeelPopsStores(stores: seq<string>, demand: int, d: map<string, nat>)
    requires Peelable(stores, demand, d) && demand > CAPACITY
    ensures forall x :: x in Peel(stores, demand, d).2 ==> x in stores
  {
    PeelShape(stores, demand, d);
    var popped := Peel(stores, demand, d).2;
    forall x | x in popped ensures x in stores {
      var t :| 0 <= t < |popped| && popped[t] == x;
      assert stores[|stores| - 1 - t] == x;
    }
  }

  /** A route peeled of every store keeps none, with the demand left over. */
  lemma PeelAll(stores: seq<string>, demand: int, d: map<string, nat>)
    requires Peelable(stores, demand, d) && demand > CAPACITY
    requires |Peel(stores, demand, d).2| == |stores|
    ensures Peel(stores, demand, d).0 == []
    ensures Peel(stores, demand, d).1 == demand - PalletSum(stores, d)
  {
    PeelShape(stores, demand, d);
    PeelDemand(stores, demand, d);
    var r := Peel(stores, demand, d);
    assert r.2 == Reverse(stores) by {
      forall t | 0 <= t < |r.2| ensures r.2[t] == Reverse(stores)[t] {
        ReverseIndex(stores, t);
      }
    }
    ReverseSum(stores, d);
  }

  function Reverse(s: seq<string>): (r: seq<string>)
    ensures |r| == |s|
    decreases |s|
  {
    if s == [] then [] else [s[|s| - 1]] + Reverse(s[..|s| - 1])
  }

  lemma {:induction false} ReverseIndex(s: seq<string>, t: nat)
    requires t < |s|
    ensures Reverse(s)[t] == s[|s| - 1 - t]
    decreases |s|
  {
    if t > 0 {
      ReverseIndex(s[..|s| - 1], t - 1);
    }
  }

  /** Demand does not depend on the order of the stores. */
  lemma {:induction false} ReverseSum(s: seq<string>, d: map<string, nat>)
    ensures PalletSum(Reverse(s), d) == PalletSum(s, d)
    decreases |s|
  {
    if s != [] {
      var init := s[..|s| - 1];
      ReverseSum(init, d);
      PalletSumAppend([s[|s| - 1]], Reverse(init), d);
      PalletSumOne(s[|s| - 1], d);
    }
  }

  // ---------------------------------------------------------------------------
  // adjustRoutes

  /** The stores the peel takes off a route in one simulation: none when the
      route is within capacity. */
  function Popped(stops: seq<string>, demand: int, d: map<string, nat>): seq<string>
  {
    if demand <= CAPACITY then [] else Peel(Mids(stops), demand, d).2
  }

  /** The route a simulation drives and its demand: an over-full route keeps
      its two ends and the stores the peel keeps. */
  function Adjusted(stops: seq<string>, demand: int, d: map<string, nat>): (seq<string>, int)
    requires |stops| >= 2
  {
    if demand <= CAPACITY then (stops, demand)
    else
      var r := Peel(Mids(stops), demand, d);
      ([stops[0]] + r.0 + [stops[|stops| - 1]], r.1)
  }

  /** Each popped store paired with the centre the route starts from. */
  function Tag(centre: string, popped: seq<string>): (r: seq<(string, string)>)
    ensures |r| == |popped|
    ensures forall k :: 0 <= k < |r| ==> r[k] == (centre, popped[k])
  {
    seq(|popped|, k requires 0 <= k < |popped| => (centre, popped[k]))
  }

  /** Every route of a schedule has two ends and can be peeled under demands. */
  predicate AllPeelable(routes: seq<seq<string>>, demands: seq<int>, d: map<string, nat>)
  {
    |demands| == |routes| &&
    forall j :: 0 <= j < |routes| ==> |routes[j]| >= 2 && Peelable(Mids(routes[j]), demands[j], d)
  }

  lemma AllPeelablePrefix(routes: seq<seq<string>>, demands: seq<int>, d: map<string, nat>, k: nat)
    requires AllPeelable(routes, demands, d) && k <= |routes|
    ensures AllPeelable(routes[..k], demands[..k], d)
  {
    assert forall j :: 0 <= j < k ==> routes[..k][j] == routes[j] && demands[..k][j] == demands[j];
  }

  /** The (centre, store) pairs one simulation takes off its routes, route by
      route and in pop order within a route. */
  function RemovedAll(routes: seq<seq<string>>, demands: seq<int>, d: map<string, nat>): seq<(string, string)>
    requires AllPeelable(routes, demands, d)
    decreases |routes|
  {
    if routes == [] then []
    else
      var k := |routes| - 1;
      AllPeelablePrefix(routes, demands, d, k);
      RemovedAll(routes[..k], demands[..k], d) + Tag(routes[k][0], Popped(routes[k], demands[k], d))
  }

  /** The number of routes over capacity. */
  function CountOver(demands: seq<int>): nat
    decreases |demands|
  {
    if demands == [] then 0
    else CountOver(demands[..|demands| - 1]) + (if demands[|demands| - 1] > CAPACITY then 1 else 0)
  }

  /** No more routes are adjusted than there are routes. */
  lemma {:induction false} CountOverBound(demands: seq<int>)
    ensures CountOver(demands) <= |demands|
    ensures CountOver(demands) == 0 <==> forall j :: 0 <= j < |demands| ==> demands[j] <= CAPACITY
    decreases |demands|
  {
    if demands != [] {
      var init := demands[..|demands| - 1];
      CountOverBound(init);
      assert forall j :: 0 <= j < |init| ==> init[j] == demands[j];
    }
  }

  /** What the adjustment does to one route: it brings it within capacity,
      keeps its two ends and drops only stores that were on it; a route
      within capacity is left alone; an over-full one loses at least one
      store; and the popped stores carry exactly the demand the route sheds. */
  lemma AdjustedFacts(stops: seq<string>, demand: int, d: map<string, nat>)
    requires |stops| >= 2 && Peelable(Mids(stops), demand, d)
    ensures var (kept, left) := Adjusted(stops, demand, d);
      var popped := Popped(stops, demand, d);
      && left <= CAPACITY
      && |kept| >= 2 && kept[0] == stops[0] && kept[|kept| - 1] == stops[|stops| - 1]
      && |kept| + |popped| == |stops|
      && (demand <= CAPACITY ==> kept == stops && left == demand)
      && (demand > CAPACITY <==> |popped| >= 1)
      && (forall x :: x in popped ==> x in Mids(stops))
      && demand == left + PalletSum(popped, d)
  {
    if demand > CAPACITY {
      PeelDemand(Mids(stops), demand, d);
      PeelShape(Mids(stops), demand, d);
      PeelPopsStores(Mids(stops), demand, d);
    }
  }

  /** A route whose demand is its stores' total keeps that relation: the
      adjusted demand is the total of the stores it still visits. */
  lemma {:induction false} PeelConsistent(stores: seq<string>, demand: int, d: map<string, nat>)
    requires demand == PalletSum(stores, d)
    ensures Peel(stores, demand, d).1 == PalletSum(Peel(stores, demand, d).0, d)
    decreases |stores|
  {
    if stores != [] {
      var rest := stores[..|stores| - 1];
      var left := demand - Load(d, stores[|stores| - 1]);
      if left > CAPACITY {
        PeelConsistent(rest, left, d);
      }
    }
  }

  lemma AdjustedConsistent(stops: seq<string>, demand: int, d: map<string, nat>)
    requires |stops| >= 2 && demand == PalletSum(Mids(stops), d)
    ensures Peelable(Mids(stops), demand, d)
    ensures Adjusted(stops, demand, d).1 == PalletSum(Mids(Adjusted(stops, demand, d).0), d)
  {
    if demand > CAPACITY {
      PeelConsistent(Mids(stops), demand, d);
      var r := Peel(Mids(stops), demand, d);
      MidsOfTour(stops[0], r.0);
    }
  }

  /** Every over-full route leaves at least one store out; none is left out
      exactly when no route is over capacity. */
  lemma {:induction false} RemovedCount(routes: seq<seq<string>>, demands: seq<int>, d: map<string, nat>)
    requires AllPeelable(routes, demands, d)
    ensures |RemovedAll(routes, demands, d)| >= CountOver(demands)
    ensures |RemovedAll(routes, demands, d)| == 0 <==> CountOver(demands) == 0
    decreases |routes|
  {
    if routes != [] {
      var k := |routes| - 1;
      AllPeelablePrefix(routes, demands, d, k);
      RemovedCount(routes[..k], demands[..k], d);
      PoppedNonEmpty(routes[k], demands[k], d);
      var before, popped := |RemovedAll(routes[..k], demands[..k], d)|, |Popped(routes[k], demands[k], d)|;
      assert |RemovedAll(routes, demands, d)| == before + popped;
      CountOverLast(demands);
    }
  }

  lemma CountOverLast(demands: seq<int>)
    requires |demands| >= 1
    ensures var k := |demands| - 1;
      CountOver(demands) == CountOver(demands[..k]) + if demands[k] > CAPACITY then 1 else 0
  {
  }

  /** A route loses a store exactly when it is over capacity. */
  lemma PoppedNonEmpty(stops: seq<string>, demand: int, d: map<string, nat>)
    requires |stops| >= 2 && Peelable(Mids(stops), demand, d)
    ensures demand > CAPACITY <==> |Popped(stops, demand, d)| >= 1
  {
    if demand > CAPACITY {
      PeelDemand(Mids(stops), demand, d);
    }
  }

  /** Every removed pair is a route's starting centre with a store of that route. */
  lemma {:induction false} RemovedFromRoutes(routes: seq<seq<string>>, demands: seq<int>, d: map<string, nat>)
    requires AllPeelable(routes, demands, d)
    ensures forall p :: p in RemovedAll(routes, demands, d) ==>
      exists j :: 0 <= j < |routes| && p.0 == routes[j][0] && p.1 in Mids(routes[j])
    decreases |routes|
  {
    if routes != [] {
      var k := |routes| - 1;
      AllPeelablePrefix(routes, demands, d, k);
      RemovedFromRoutes(routes[..k], demands[..k], d);
      AdjustedFacts(routes[k], demands[k], d);
      var tail := Tag(routes[k][0], Popped(routes[k], demands[k], d));
      forall p | p in RemovedAll(routes, demands, d)
        ensures exists j :: 0 <= j < |routes| && p.0 == routes[j][0] && p.1 in Mids(routes[j])
      {
        if p in tail {
          var t :| 0 <= t < |tail| && tail[t] == p;
          assert Popped(routes[k], demands[k], d)[t] in Popped(routes[k], demands[k], d);
        } else {
          var j :| 0 <= j < k && p.0 == routes[..k][j][0] && p.1 in Mids(routes[..k][j]);
          assert routes[..k][j] == routes[j];
        }
      }
    }
  }

  /** The body of adjustRoutes' loop over routes: one route, peeled when over
      capacity, with the pairs it leaves out. */
  method AdjustRoute(stops: seq<string>, demand: int, d: map<string, nat>)
    returns (kept: seq<string>, left: int, removed: seq<(string, string)>)
    requires |stops| >= 2 && Peelable(Mids(stops), demand, d) && Covered(Mids(stops), d)
    ensures (kept, left) == Adjusted(stops, demand, d)
    ensures removed == Tag(stops[0], Popped(stops, demand, d))
  {
    if demand > CAPACITY {
      var popped;
      kept, left, popped := PeelRoute(stops, demand, d);
      MidsSplit(kept);
      removed := Tag(stops[0], popped);
    } else {
      kept, left, removed := stops, demand, [];
    }
  }

  /** The pairs the first j routes leave out. */
  function RemovedPrefix(routes: seq<seq<string>>, demands: seq<int>, d: map<string, nat>, j: nat): seq<(string, string)>
    requires AllPeelable(routes, demands, d) && j <= |routes|
  {
    AllPeelablePrefix(routes, demands, d, j);
    RemovedAll(routes[..j], demands[..j], d)
  }

  /** RemovedAll and CountOver, one more route. */
  lemma RemovedStep(routes: seq<seq<string>>, demands: seq<int>, d: map<string, nat>, j: nat)
    requires AllPeelable(routes, demands, d) && j < |routes|
    ensures RemovedPrefix(routes, demands, d, j + 1) ==
      RemovedPrefix(routes, demands, d, j) + Tag(routes[j][0], Popped(routes[j], demands[j], d))
    ensures CountOver(demands[..j + 1]) == CountOver(demands[..j]) + if demands[j] > CAPACITY then 1 else 0
  {
    assert routes[..j + 1][..j] == routes[..j] && demands[..j + 1][..j] == demands[..j];
  }

  /** The first j routes adjusted. */
  ghost predicate RoutesAdjusted(routes: seq<seq<string>>, demands: seq<int>, d: map<string, nat>, j: nat,
                                 newStores: seq<seq<string>>, newDemands: seq<int>)
    requires AllPeelable(routes, demands, d) && j <= |routes|
  {
    && |newStores| == j && |newDemands| == j
    && forall q :: 0 <= q < j ==> (newStores[q], newDemands[q]) == Adjusted(routes[q], demands[q], d)
  }

  lemma RoutesAdjustedStep(routes: seq<seq<string>>, demands: seq<int>, d: map<string, nat>, j: nat,
                           newStores: seq<seq<string>>, newDemands: seq<int>, kept: seq<string>, left: int)
    requires AllPeelable(routes, demands, d) && j < |routes|
    requires RoutesAdjusted(routes, demands, d, j, newStores, newDemands)
    requires (kept, left) == Adjusted(routes[j], demands[j], d)
    ensures RoutesAdjusted(routes, demands, d, j + 1, newStores + [kept], newDemands + [left])
  {
  }

  /** The body of adjustRoutes' loop over simulations: every route in turn,
      peeled when over capacity. */
  method AdjustSimulation(routes: seq<seq<string>>, demands: seq<int>, d: map<string, nat>)
    returns (newStores: seq<seq<string>>, newDemands: seq<int>, removed: seq<(string, string)>, adjusted: nat)
    requires AllPeelable(routes, demands, d)
    requires forall j :: 0 <= j < |routes| ==> Covered(Mids(routes[j]), d)
    ensures |newStores| == |routes| && |newDemands| == |routes|
    ensures forall j :: 0 <= j < |routes| ==> (newStores[j], newDemands[j]) == Adjusted(routes[j], demands[j], d)
    ensures removed == RemovedAll(routes, demands, d)
    ensures adjusted == CountOver(demands)
  {
    newStores, newDemands, removed, adjusted := [], [], [], 0;
    for j := 0 to |routes|
      invariant RoutesAdjusted(routes, demands, d, j, newStores, newDemands)
      invariant removed == RemovedPrefix(routes, demands, d, j)
      invariant adjusted == CountOver(demands[..j])
    {
      RemovedStep(routes, demands, d, j);
      var kept, left, tagged := AdjustRoute(routes[j], demands[j], d);
      if demands[j] > CAPACITY {
        adjusted := adjusted + 1;
      }
      removed := removed + tagged;
      RoutesAdjustedStep(routes, demands, d, j, newStores, newDemands, kept, left);
      newStores := newStores + [kept];
      newDemands := newDemands + [left];
    }
    assert routes[..|routes|] == routes && demands[..|demands|] == demands;
  }

  // ---------------------------------------------------------------------------
  // The left-out dictionary

  type Pair = (string, string)
  type Entry = (Pair, nat)

  /** The keys of a dictionary's entries, in insertion order. */
  function Keys(entries: seq<Entry>): (ks: seq<Pair>)
    ensures |ks| == |entries|
    ensures forall k :: 0 <= k < |ks| ==> ks[k] == entries[k].0
    decreases |entries|
  {
    if entries == [] then [] else [entries[0].0] + Keys(entries[1..])
  }

  /** Python's `dict[key] = value` on a dictionary held as its entries in
      insertion order: a present key keeps its place and takes the new value,
      a new key goes last. */
  function Put(entries: seq<Entry>, key: Pair, value: nat): seq<Entry>
    decreases |entries|
  {
    if entries == [] then [(key, value)]
    else if entries[0].0 == key then [(key, value)] + entries[1..]
    else [entries[0]] + Put(entries[1..], key, value)
  }

  /** Put keeps the insertion order. */
  lemma {:induction false} PutKeys(entries: seq<Entry>, key: Pair, value: nat)
    ensures Keys(Put(entries, key, value)) == if key in Keys(entries) then Keys(entries) else Keys(entries) + [key]
    decreases |entries|
  {
    if entries != [] {
      var tail := entries[1..];
      if entries[0].0 != key {
        PutKeys(tail, key, value);
        var put := Put(entries, key, value);
        assert put == [entries[0]] + Put(tail, key, value);
        assert put[1..] == Put(tail, key, value);
        assert Keys(put) == [entries[0].0] + Keys(Put(tail, key, value));
        assert Keys(entries) == [entries[0].0] + Keys(tail);
        if key in Keys(tail) {
          assert Keys(put) == Keys(entries);
        } else {
          assert key !in Keys(entries);
          assert Keys(put) == Keys(entries) + [key];
        }
      } else {
        assert Put(entries, key, value)[1..] == tail;
      }
    }
  }

  /** An entry after Put is the new one or an old one under another key. */
  lemma {:induction false} PutEntries(entries: seq<Entry>, key: Pair, value: nat)
    requires Distinct(Keys(entries))
    ensures forall e :: e in Put(entries, key, value) ==> e == (key, value) || (e in entries && e.0 != key)
    decreases |entries|
  {
    if entries != [] {
      var tail := entries[1..];
      if entries[0].0 != key {
        DistinctTail(Keys(entries));
        assert Keys(tail) == Keys(entries)[1..];
        PutEntries(tail, key, value);
      } else {
        forall e | e in tail ensures e.0 != key {
          var k :| 0 <= k < |tail| && tail[k] == e;
          assert Keys(entries)[k + 1] == e.0;
        }
      }
    }
  }

  lemma DistinctTail(s: seq<Pair>)
    requires Distinct(s) && |s| >= 1
    ensures Distinct(s[1..])
  {
    forall j, k | 0 <= j < k < |s| - 1 ensures s[1..][j] != s[1..][k] {
      assert s[1..][j] == s[j + 1] && s[1..][k] == s[k + 1];
    }
  }

  /** The elements of s, each at its first occurrence. */
  function Dedup(s: seq<Pair>): (r: seq<Pair>)
    ensures Distinct(r)
    ensures forall x :: x in r <==> x in s
    decreases |s|
  {
    if s == [] then []
    else
      var init := s[..|s| - 1];
      var x := s[|s| - 1];
      if x in init then Dedup(init) else Dedup(init) + [x]
  }

  /** Python's dict(zip(keys, values)) as its entries in insertion order. */
  function ZipDict(keys: seq<Pair>, values: seq<nat>): seq<Entry>
    requires |keys| == |values|
    decreases |keys|
  {
    if keys == [] then []
    else
      var k := |keys| - 1;
      Put(ZipDict(keys[..k], values[..k]), keys[k], values[k])
  }

  /** dict(zip) keeps each key once, in the order it first appears, and
      when every value is a function of its key, so is every entry. */
  lemma {:induction false} ZipDictFacts(keys: seq<Pair>, values: seq<nat>, d: map<string, nat>)
    requires |keys| == |values|
    requires forall k :: 0 <= k < |keys| ==> values[k] == Load(d, keys[k].1)
    ensures Keys(ZipDict(keys, values)) == Dedup(keys)
    ensures forall e :: e in ZipDict(keys, values) ==> e.1 == Load(d, e.0.1)
    decreases |keys|
  {
    if keys != [] {
      var k := |keys| - 1;
      ZipDictFacts(keys[..k], values[..k], d);
      PutKeys(ZipDict(keys[..k], values[..k]), keys[k], values[k]);
      PutEntries(ZipDict(keys[..k], values[..k]), keys[k], values[k]);
    }
  }

  /** The demand of every removed store, in removal order. */
  function DemandsOf(removed: seq<Pair>, d: map<string, nat>): (values: seq<nat>)
    ensures |values| == |removed|
    ensures forall k :: 0 <= k < |removed| ==> values[k] == Load(d, removed[k].1)
  {
    seq(|removed|, k requires 0 <= k < |removed| => Load(d, removed[k].1))
  }

  /** One simulation's left-out stores: each (centre, store) pair once, with
      the store's demand. */
  function LeftOut(removed: seq<Pair>, d: map<string, nat>): seq<Entry>
  {
    ZipDict(removed, DemandsOf(removed, d))
  }

  /** The left-out dictionary holds each removed pair once, in the order of
      first removal, with its store's demand. */
  lemma LeftOutFacts(removed: seq<Pair>, d: map<string, nat>)
    ensures Keys(LeftOut(removed, d)) == Dedup(removed)
    ensures Distinct(Keys(LeftOut(removed, d)))
    ensures forall e :: e in LeftOut(removed, d) ==> e.0 in removed && e.1 == Load(d, e.0.1)
  {
    ZipDictFacts(removed, DemandsOf(removed, d), d);
    var entries := LeftOut(removed, d);
    forall e | e in entries ensures e.0 in removed {
      var k :| 0 <= k < |entries| && entries[k] == e;
      assert Keys(entries)[k] == e.0;
    }
  }

  /** The loop of adjustRoutes that looks up the demand of every removed store. */
  method RemovedDemands(removed: seq<Pair>, d: map<string, nat>) returns (values: seq<nat>)
    requires forall k :: 0 <= k < |removed| ==> removed[k].1 in d
    ensures values == DemandsOf(removed, d)
  {
    values := [];
    for k := 0 to |removed|
      invariant |values| == k
      invariant forall q :: 0 <= q < k ==> values[q] == Load(d, removed[q].1)
    {
      values := values + [d[removed[k].1]];
    }
  }

  /** Under a rectangular table, every route's stores have a demand in every simulation. */
  lemma ColumnCovers(routes: seq<seq<string>>, sim: map<string, seq<nat>>, n: nat, i: nat)
    requires Rectangular(sim, n) && RoutesCovered(routes, sim) && i < n
    ensures forall j :: 0 <= j < |routes| ==> Covered(Mids(routes[j]), Column(sim, i))
  {
  }

  /** Every removed store has a demand to look up. */
  lemma RemovedCovered(routes: seq<seq<string>>, demands: seq<int>, d: map<string, nat>)
    requires AllPeelable(routes, demands, d)
    requires forall j :: 0 <= j < |routes| ==> Covered(Mids(routes[j]), d)
    ensures forall k :: 0 <= k < |RemovedAll(routes, demands, d)| ==> RemovedAll(routes, demands, d)[k].1 in d
  {
    RemovedFromRoutes(routes, demands, d);
    var removed := RemovedAll(routes, demands, d);
    forall k | 0 <= k < |removed| ensures removed[k].1 in d {
      assert removed[k] in removed;
    }
  }

  /** One simulation's adjusted stop lists. */
  function AdjustedStores(routes: seq<seq<string>>, demands: seq<int>, d: map<string, nat>): (r: seq<seq<string>>)
    requires AllPeelable(routes, demands, d)
    ensures |r| == |routes|
  {
    seq(|routes|, j requires 0 <= j < |routes| => Adjusted(routes[j], demands[j], d).0)
  }

  /** One simulation's adjusted route demands. */
  function AdjustedDemands(routes: seq<seq<string>>, demands: seq<int>, d: map<string, nat>): (r: seq<int>)
    requires AllPeelable(routes, demands, d)
    ensures |r| == |routes|
  {
    seq(|routes|, j requires 0 <= j < |routes| => Adjusted(routes[j], demands[j], d).1)
  }

  /** The body of adjustRoutes' loop over simulations, with the left-out
      dictionary built from the removed pairs. */
  method AdjustColumn(routes: seq<seq<string>>, demands: seq<int>, d: map<string, nat>)
    returns (newStores: seq<seq<string>>, newDemands: seq<int>, left: seq<Entry>, adjusted: nat)
    requires AllPeelable(routes, demands, d)
    requires forall j :: 0 <= j < |routes| ==> Covered(Mids(routes[j]), d)
    ensures newStores == AdjustedStores(routes, demands, d)
    ensures newDemands == AdjustedDemands(routes, demands, d)
    ensures left == LeftOut(RemovedAll(routes, demands, d), d)
    ensures adjusted == CountOver(demands)
  {
    var removed;
    newStores, newDemands, removed, adjusted := AdjustSimulation(routes, demands, d);
    RemovedCovered(routes, demands, d);
    var values := RemovedDemands(removed, d);
    left := ZipDict(removed, values);
  }

  /** The results of adjustRoutes for the first i simulations. */
  ghost predicate AdjustedUpTo(routes: seq<seq<string>>, table: seq<seq<nat>>, sim: map<string, seq<nat>>, i: nat,
                               stores: seq<seq<seq<string>>>, demands: seq<seq<int>>, leftOut: seq<seq<Entry>>, counts: seq<nat>)
    requires i <= |table| && forall q :: 0 <= q < i ==> AllPeelable(routes, table[q], Column(sim, q))
  {
    && |stores| == i && |demands| == i && |leftOut| == i && |counts| == i
    && (forall q :: 0 <= q < i ==> stores[q] == AdjustedStores(routes, table[q], Column(sim, q)))
    && (forall q :: 0 <= q < i ==> demands[q] == AdjustedDemands(routes, table[q], Column(sim, q)))
    && (forall q :: 0 <= q < i ==> leftOut[q] == LeftOut(RemovedAll(routes, table[q], Column(sim, q)), Column(sim, q)))
    && (forall q :: 0 <= q < i ==> counts[q] == CountOver(table[q]))
  }

  /** One more simulation's results extend AdjustedUpTo. */
  lemma AdjustedUpToStep(routes: seq<seq<string>>, table: seq<seq<nat>>, sim: map<string, seq<nat>>, i: nat,
                         stores: seq<seq<seq<string>>>, demands: seq<seq<int>>, leftOut: seq<seq<Entry>>, counts: seq<nat>,
                         newStores: seq<seq<string>>, newDemands: seq<int>, left: seq<Entry>, adjusted: nat)
    requires i < |table| && forall q :: 0 <= q <= i ==> AllPeelable(routes, table[q], Column(sim, q))
    requires AdjustedUpTo(routes, table, sim, i, stores, demands, leftOut, counts)
    requires newStores == AdjustedStores(routes, table[i], Column(sim, i))
    requires newDemands == AdjustedDemands(routes, table[i], Column(sim, i))
    requires left == LeftOut(RemovedAll(routes, table[i], Column(sim, i)), Column(sim, i))
    requires adjusted == CountOver(table[i])
    ensures AdjustedUpTo(routes, table, sim, i + 1, stores + [newStores], demands + [newDemands], leftOut + [left], counts + [adjusted])
  {
  }

  /** adjustRoutes: for every simulation, the adjusted routes and demands,
      the left-out dictionary and the number of routes that were over
      capacity. The source fails for n == 0 (its tables are created in the
      first simulation). */
  method AdjustRoutes(routes: seq<seq<string>>, table: seq<seq<nat>>, sim: map<string, seq<nat>>, n: nat)
    returns (stores: seq<seq<seq<string>>>, demands: seq<seq<int>>, leftOut: seq<seq<Entry>>, counts: seq<nat>)
    requires n >= 1 && |table| == n && Rectangular(sim, n) && RoutesCovered(routes, sim)
    requires forall i :: 0 <= i < n ==> AllPeelable(routes, table[i], Column(sim, i))
    ensures |stores| == n && |demands| == n && |leftOut| == n && |counts| == n
    ensures forall i :: 0 <= i < n ==> stores[i] == AdjustedStores(routes, table[i], Column(sim, i))
    ensures forall i :: 0 <= i < n ==> demands[i] == AdjustedDemands(routes, table[i], Column(sim, i))
    ensures forall i :: 0 <= i < n ==> leftOut[i] == LeftOut(RemovedAll(routes, table[i], Column(sim, i)), Column(sim, i))
    ensures forall i :: 0 <= i < n ==> counts[i] == CountOver(table[i])
  {
    stores, demands, leftOut, counts := [], [], [], [];
    for i := 0 to n
      invariant AdjustedUpTo(routes, table, sim, i, stores, demands, leftOut, counts)
    {
      ColumnCovers(routes, sim, n, i);
      var newStores, newDemands, left, adjusted := AdjustColumn(routes, table[i], Column(sim, i));
      AdjustedUpToStep(routes, table, sim, i, stores, demands, leftOut, counts, newStores, newDemands, left, adjusted);
      stores := stores + [newStores];
      demands := demands + [newDemands];
      leftOut := leftOut + [left];
      counts := counts + [adjusted];
    }
  }

  // ---------------------------------------------------------------------------
  // calculateTime

  /** Hours of one trip: travel seconds, stretched by the traffic delay of
      extra minutes per hour of travel, plus 600 seconds per pallet. */
  function TripHours(travel: int, extra: int, pallets: int): real
  {
    var t := travel as real;
    (t + t / 3600.0 * extra as real * 60.0 + pallets as real * SECONDS_PER_PALLET as real) / 3600.0
  }

  /** The delay scales travel by (60 + extra) / 60 and each pallet takes a
      sixth of an hour: in units of 1/216000 hour, a trip takes
      travel * (60 + extra) + 36000 per pallet. */
  lemma TripHoursClosedForm(travel: int, extra: int, pallets: int)
    ensures 216000.0 * TripHours(travel, extra, pallets) == travel as real * (60 + extra) as real + 36000.0 * pallets as real
  {
  }

  /** More travel, more delay or more pallets never make a trip shorter. */
  lemma TripHoursMonotone(travel: int, extra: int, pallets: int, travel': int, extra': int, pallets': int)
    requires 0 <= travel <= travel' && 0 <= extra <= extra' && pallets <= pallets'
    ensures TripHours(travel, extra, pallets) <= TripHours(travel', extra', pallets')
  {
    TripHoursClosedForm(travel, extra, pallets);
    TripHoursClosedForm(travel', extra', pallets');
    var t, t', f, f' := travel as real, travel' as real, (60 + extra) as real, (60 + extra') as real;
    ProductLe(t, t', f, f');
    var h, h' := TripHours(travel, extra, pallets), TripHours(travel', extra', pallets');
    ScaledLe(h, h', t * f, t' * f', 36000.0 * pallets as real, 36000.0 * pallets' as real);
  }

  lemma ProductLe(a: real, a': real, c: real, c': real)
    requires 0.0 <= a <= a' && 0.0 <= c <= c'
    ensures a * c <= a' * c'
  {
    assert a * c <= a' * c by {
      assert (a' - a) * c >= 0.0;
    }
    assert a' * c <= a' * c' by {
      assert a' * (c' - c) >= 0.0;
    }
  }

  lemma ScaledLe(h: real, h': real, a: real, a': real, b: real, b': real)
    requires 216000.0 * h == a + b && 216000.0 * h' == a' + b'
    requires a <= a' && b <= b'
    ensures h <= h'
  {
  }

  /** The trip time of a route in one simulation. */
  method TravelSeconds(stops: seq<string>, tt: Travel) returns (secs: int)
    requires HasLegs(stops, tt)
    ensures secs == Legs(stops, tt)
  {
    secs := 0;
    if |stops| >= 1 {
      HasLegsPairs(stops, tt);
      for k := 1 to |stops|
        invariant secs == Legs(stops[..k], tt)
      {
        assert stops[..k + 1] == stops[..k] + [stops[k]];
        LegsSnoc(stops[..k], stops[k], tt);
        secs := secs + tt[(stops[k - 1], stops[k])];
      }
      assert stops[..|stops|] == stops;
    }
  }

  /** The hours of every adjusted route of one simulation. */
  function RouteHoursOf(stores: seq<seq<string>>, demands: seq<int>, extra: int, tt: Travel): (hours: seq<real>)
    requires |demands| == |stores|
    ensures |hours| == |stores|
  {
    seq(|stores|, j requires 0 <= j < |stores| => TripHours(Legs(stores[j], tt), extra, demands[j]))
  }

  /** The hours of the dedicated trip to a left-out store: out from the
      centre and back, twice over when the store alone fills more than a
      truck. */
  function LeftOutHours(e: Entry, extra: int, tt: Travel): real
  {
    var t := Legs([e.0.0, e.0.1, e.0.0], tt);
    TripHours(if e.1 > CAPACITY then t + t else t, extra, e.1)
  }

  /** The hours of every left-out trip of one simulation, under the same keys. */
  function LeftOutHoursOf(entries: seq<Entry>, extra: int, tt: Travel): (hours: seq<(Pair, real)>)
    ensures |hours| == |entries|
  {
    seq(|entries|, k requires 0 <= k < |entries| => (entries[k].0, LeftOutHours(entries[k], extra, tt)))
  }

  /** The left-out stores whose demand alone needs a second truck. */
  function DoubleTrips(entries: seq<Entry>): nat
    decreases |entries|
  {
    if entries == [] then 0
    else DoubleTrips(entries[..|entries| - 1]) + (if entries[|entries| - 1].1 > CAPACITY then 1 else 0)
  }

  /** The trucks one simulation needs: one per route, one per left-out
      store and a second one for every left-out store above capacity. */
  function Trucks(routeCount: nat, entries: seq<Entry>): nat
  {
    routeCount + |entries| + DoubleTrips(entries)
  }

  lemma {:induction false} DoubleTripsBound(entries: seq<Entry>)
    ensures DoubleTrips(entries) <= |entries|
    decreases |entries|
  {
    if entries != [] {
      DoubleTripsBound(entries[..|entries| - 1]);
    }
  }

  /** A simulation needs more trucks than routes exactly when it leaves a
      store out, and at most two per left-out store. */
  lemma TrucksBounds(routeCount: nat, entries: seq<Entry>)
    ensures routeCount <= Trucks(routeCount, entries) <= routeCount + 2 * |entries|
    ensures Trucks(routeCount, entries) == routeCount <==> entries == []
  {
    DoubleTripsBound(entries);
  }

  /** Doubling the trip of a store above capacity doubles its travel and
      its delay but not its pallet time. */
  lemma LeftOutDoubled(e: Entry, extra: int, tt: Travel)
    requires e.1 > CAPACITY
    ensures var t := Legs([e.0.0, e.0.1, e.0.0], tt);
      LeftOutHours(e, extra, tt) == TripHours(t, extra, e.1) + TripHours(t, extra, 0)
  {
    var t := Legs([e.0.0, e.0.1, e.0.0], tt);
    TripHoursClosedForm(t + t, extra, e.1);
    TripHoursClosedForm(t, extra, e.1);
    TripHoursClosedForm(t, extra, 0);
    assert (t + t) as real * (60 + extra) as real == t as real * (60 + extra) as real + t as real * (60 + extra) as real;
  }

  /** calculateTime's loop over one simulation's routes. */
  method RouteTimes(stores: seq<seq<string>>, demands: seq<int>, extra: int, tt: Travel) returns (hours: seq<real>)
    requires |demands| == |stores| && forall j :: 0 <= j < |stores| ==> HasLegs(stores[j], tt)
    ensures hours == RouteHoursOf(stores, demands, extra, tt)
  {
    hours := [];
    for j := 0 to |stores|
      invariant |hours| == j
      invariant forall q :: 0 <= q < j ==> hours[q] == TripHours(Legs(stores[q], tt), extra, demands[q])
    {
      var secs := TravelSeconds(stores[j], tt);
      var time := secs as real;
      time := time + time / 3600.0 * extra as real * 60.0;
      time := time + demands[j] as real * SECONDS_PER_PALLET as real;
      hours := hours + [time / 3600.0];
    }
  }

  /** A left-out trip has its two legs in the travel table. */
  predicate TripLegs(entries: seq<Entry>, tt: Travel)
  {
    forall k :: 0 <= k < |entries| ==> (entries[k].0.0, entries[k].0.1) in tt && (entries[k].0.1, entries[k].0.0) in tt
  }

  /** The body of calculateTime's loop over left-out stores: the hours of
      one dedicated trip and the trucks it takes. */
  method LeftOutTrip(e: Entry, extra: int, tt: Travel) returns (hours: real, trucks: nat)
    requires (e.0.0, e.0.1) in tt && (e.0.1, e.0.0) in tt
    ensures hours == LeftOutHours(e, extra, tt)
    ensures trucks == if e.1 > CAPACITY then 2 else 1
  {
    var (centre, store) := e.0;
    var route := [centre, store, centre];
    assert HasLegs(route, tt) by {
      HasLegsPairs(route, tt);
    }
    var secs := TravelSeconds(route, tt);
    trucks := 1;
    var time := secs as real;
    ghost var travel := secs;
    if e.1 > CAPACITY {
      trucks := trucks + 1;
      time := time + time;
      travel := secs + secs;
    }
    assert time == travel as real;
    time := time + time / 3600.0 * extra as real * 60.0;
    time := time + e.1 as real * SECONDS_PER_PALLET as real;
    hours := time / 3600.0;
    assert hours == TripHours(travel, extra, e.1);
  }

  /** calculateTime's loop over one simulation's left-out stores, with the
      trucks they add. */
  method LeftOutTimes(entries: seq<Entry>, extra: int, tt: Travel) returns (hours: seq<(Pair, real)>, trucks: nat)
    requires TripLegs(entries, tt)
    ensures hours == LeftOutHoursOf(entries, extra, tt)
    ensures trucks == |entries| + DoubleTrips(entries)
  {
    hours, trucks := [], 0;
    for k := 0 to |entries|
      invariant |hours| == k
      invariant forall q :: 0 <= q < k ==> hours[q] == (entries[q].0, LeftOutHours(entries[q], extra, tt))
      invariant trucks == k + DoubleTrips(entries[..k])
    {
      assert entries[..k + 1][..k] == entries[..k];
      var h, more := LeftOutTrip(entries[k], extra, tt);
      trucks := trucks + more;
      hours := hours + [(entries[k].0, h)];
    }
    assert entries[..|entries|] == entries;
  }

  /** What calculateTime looks up: the legs of every adjusted route and of
      every left-out trip, with one route list, demand list, dictionary and
      delay per simulation. */
  predicate TimeInputs(stores: seq<seq<seq<string>>>, leftOut: seq<seq<Entry>>, extra: seq<int>, tt: Travel, demands: seq<seq<int>>)
  {
    && |leftOut| == |stores| && |extra| == |stores| && |demands| == |stores|
    && forall i :: 0 <= i < |stores| ==>
         && |demands[i]| == |stores[i]|
         && (forall j :: 0 <= j < |stores[i]| ==> HasLegs(stores[i][j], tt))
         && TripLegs(leftOut[i], tt)
  }

  /** The body of calculateTime's loop over simulations. */
  method TimeColumn(stores: seq<seq<string>>, entries: seq<Entry>, extra: int, tt: Travel, demands: seq<int>)
    returns (hours: seq<real>, tripHours: seq<(Pair, real)>, trucks: nat)
    requires |demands| == |stores| && (forall j :: 0 <= j < |stores| ==> HasLegs(stores[j], tt)) && TripLegs(entries, tt)
    ensures hours == RouteHoursOf(stores, demands, extra, tt)
    ensures tripHours == LeftOutHoursOf(entries, extra, tt)
    ensures trucks == Trucks(|stores|, entries)
  {
    hours := RouteTimes(stores, demands, extra, tt);
    var more;
    tripHours, more := LeftOutTimes(entries, extra, tt);
    trucks := |stores| + more;
  }

  /** calculateTime: for every simulation, the hours of every adjusted
      route, the hours of every left-out trip and the trucks used. */
  method CalculateTime(stores: seq<seq<seq<string>>>, leftOut: seq<seq<Entry>>, extra: seq<int>, tt: Travel, demands: seq<seq<int>>)
    returns (routeHours: seq<seq<real>>, leftHours: seq<seq<(Pair, real)>>, trucks: seq<nat>)
    requires TimeInputs(stores, leftOut, extra, tt, demands)
    ensures |routeHours| == |stores| && |leftHours| == |stores| && |trucks| == |stores|
    ensures forall i :: 0 <= i < |stores| ==> routeHours[i] == RouteHoursOf(stores[i], demands[i], extra[i], tt)
    ensures forall i :: 0 <= i < |stores| ==> leftHours[i] == LeftOutHoursOf(leftOut[i], extra[i], tt)
    ensures forall i :: 0 <= i < |stores| ==> trucks[i] == Trucks(|stores[i]|, leftOut[i])
  {
    routeHours, leftHours, trucks := [], [], [];
    for i := 0 to |stores|
      invariant |routeHours| == i && |leftHours| == i && |trucks| == i
      invariant forall q :: 0 <= q < i ==> routeHours[q] == RouteHoursOf(stores[q], demands[q], extra[q], tt)
      invariant forall q :: 0 <= q < i ==> leftHours[q] == LeftOutHoursOf(leftOut[q], extra[q], tt)
      invariant forall q :: 0 <= q < i ==> trucks[q] == Trucks(|stores[q]|, leftOut[q])
    {
      var hours, tripHours, truck := TimeColumn(stores[i], leftOut[i], extra[i], tt, demands[i]);
      routeHours := routeHours + [hours];
      leftHours := leftHours + [tripHours];
      trucks := trucks + [truck];
    }
  }

  // ---------------------------------------------------------------------------
  // calculateCost

  /** The cost of one trip: 175 an hour for the first four hours, 250 an
      hour beyond them. */
  function TripCost(hours: real): real
  {
    if hours >= 4.0 then (hours - 4.0) * 250.0 + 175.0 * 4.0 else hours * 175.0
  }

  /** The two pieces of the tariff meet at four hours, and between any two
      durations the cost grows at least at the normal and at most at the
      overtime rate; in particular a longer trip never costs less. */
  lemma TripCostSlope(t: real, u: real)
    requires t <= u
    ensures TripCost(4.0) == 175.0 * 4.0
    ensures 175.0 * (u - t) <= TripCost(u) - TripCost(t) <= 250.0 * (u - t)
  {
  }

  /** A trip of non-negative length costs between the normal and the
      overtime rate times its hours. */
  lemma TripCostBounds(t: real)
    requires t >= 0.0
    ensures 175.0 * t <= TripCost(t) <= 250.0 * t
  {
    TripCostSlope(0.0, t);
  }

  /** The cost of a list of route hours. */
  function RoutesCost(hours: seq<real>): real
    decreases |hours|
  {
    if hours == [] then 0.0 else RoutesCost(hours[..|hours| - 1]) + TripCost(hours[|hours| - 1])
  }

  /** The cost of a list of left-out trips. */
  function TripsCost(trips: seq<(Pair, real)>): real
    decreases |trips|
  {
    if trips == [] then 0.0 else TripsCost(trips[..|trips| - 1]) + TripCost(trips[|trips| - 1].1)
  }

  function HoursSum(hours: seq<real>): real
    decreases |hours|
  {
    if hours == [] then 0.0 else HoursSum(hours[..|hours| - 1]) + hours[|hours| - 1]
  }

  /** A schedule's route cost lies between the normal and the overtime rate
      times its total hours. */
  lemma {:induction false} RoutesCostBounds(hours: seq<real>)
    requires forall j :: 0 <= j < |hours| ==> hours[j] >= 0.0
    ensures 175.0 * HoursSum(hours) <= RoutesCost(hours) <= 250.0 * HoursSum(hours)
    decreases |hours|
  {
    if hours != [] {
      var init := hours[..|hours| - 1];
      RoutesCostBounds(init);
      TripCostBounds(hours[|hours| - 1]);
    }
  }

  /** Longer routes never make a simulation cheaper. */
  lemma {:induction false} RoutesCostMonotone(hours: seq<real>, longer: seq<real>)
    requires |hours| == |longer| && forall j :: 0 <= j < |hours| ==> hours[j] <= longer[j]
    ensures RoutesCost(hours) <= RoutesCost(longer)
    decreases |hours|
  {
    if hours != [] {
      var k := |hours| - 1;
      RoutesCostMonotone(hours[..k], longer[..k]);
      TripCostSlope(hours[k], longer[k]);
    }
  }

  /** The cost of one simulation: its routes and its left-out trips. */
  function SimulationCost(hours: seq<real>, trips: seq<(Pair, real)>): real
  {
    RoutesCost(hours) + TripsCost(trips)
  }

  /** calculateCost's loop over one simulation's routes. */
  method RoutesCostLoop(hours: seq<real>) returns (cost: real)
    ensures cost == RoutesCost(hours)
  {
    cost := 0.0;
    for j := 0 to |hours|
      invariant cost == RoutesCost(hours[..j])
    {
      assert hours[..j + 1][..j] == hours[..j];
      if hours[j] >= 4.0 {
        cost := cost + (hours[j] - 4.0) * 250.0 + 175.0 * 4.0;
      } else {
        cost := cost + hours[j] * 175.0;
      }
    }
    assert hours[..|hours|] == hours;
  }

  /** calculateCost's loop over one simulation's left-out trips, added onto
      the routes' cost. */
  method TripsCostLoop(start: real, trips: seq<(Pair, real)>) returns (cost: real)
    ensures cost == start + TripsCost(trips)
  {
    cost := start;
    for k := 0 to |trips|
      invariant cost == start + TripsCost(trips[..k])
    {
      assert trips[..k + 1][..k] == trips[..k];
      var time := trips[k].1;
      if time >= 4.0 {
        cost := cost + (time - 4.0) * 250.0 + 175.0 * 4.0;
      } else {
        cost := cost + time * 175.0;
      }
    }
    assert trips[..|trips|] == trips;
  }

  /** calculateCost: the total cost of every simulation. */
  method CalculateCost(routeHours: seq<seq<real>>, leftHours: seq<seq<(Pair, real)>>) returns (costs: seq<real>)
    requires |leftHours| == |routeHours|
    ensures |costs| == |routeHours|
    ensures forall i :: 0 <= i < |routeHours| ==> costs[i] == SimulationCost(routeHours[i], leftHours[i])
  {
    costs := [];
    for i := 0 to |routeHours|
      invariant |costs| == i
      invariant forall q :: 0 <= q < i ==> costs[q] == SimulationCost(routeHours[q], leftHours[q])
    {
      var cost := RoutesCostLoop(routeHours[i]);
      cost := TripsCostLoop(cost, leftHours[i]);
      costs := costs + [cost];
    }
  }

  // ---------------------------------------------------------------------------
  // runSimulation

  /** Every two locations of a route have a travel time between them. */
  predicate ScheduleTravel(routes: seq<seq<string>>, tt: Travel)
  {
    forall j, a, b :: 0 <= j < |routes| && a in routes[j] && b in routes[j] ==> (a, b) in tt
  }

  /** Every travel time is a duration. */
  predicate NonNegativeTravel(tt: Travel)
  {
    forall key :: key in tt ==> tt[key] >= 0
  }

  /** An adjusted route visits only locations of the original route. */
  lemma AdjustedWithin(stops: seq<string>, demand: int, d: map<string, nat>)
    requires |stops| >= 2 && Peelable(Mids(stops), demand, d)
    ensures forall x :: x in Adjusted(stops, demand, d).0 ==> x in stops
  {
    if demand > CAPACITY {
      var r := Peel(Mids(stops), demand, d);
      PeelShape(Mids(stops), demand, d);
      MidsSplit(stops);
      assert forall x :: x in r.0 ==> x in Mids(stops);
    }
  }

  /** A demand table computed from the stores' demands can be peeled, and
      every adjusted demand is again a pallet count. */
  lemma ColumnConsistent(routes: seq<seq<string>>, demands: seq<int>, d: map<string, nat>)
    requires |demands| == |routes|
    requires forall j :: 0 <= j < |routes| ==> |routes[j]| >= 2 && demands[j] == PalletSum(Mids(routes[j]), d)
    ensures AllPeelable(routes, demands, d)
    ensures forall j :: 0 <= j < |routes| ==> AdjustedDemands(routes, demands, d)[j] >= 0
  {
    forall j | 0 <= j < |routes|
      ensures Peelable(Mids(routes[j]), demands[j], d)
      ensures Adjusted(routes[j], demands[j], d).1 >= 0
    {
      AdjustedConsistent(routes[j], demands[j], d);
    }
  }

  /** What one simulation's adjusted schedule needs from the travel table:
      the legs of every adjusted route and of every left-out trip. */
  lemma ColumnTravel(routes: seq<seq<string>>, demands: seq<int>, d: map<string, nat>, tt: Travel)
    requires AllPeelable(routes, demands, d) && ScheduleTravel(routes, tt)
    ensures forall j :: 0 <= j < |routes| ==> HasLegs(AdjustedStores(routes, demands, d)[j], tt)
    ensures TripLegs(LeftOut(RemovedAll(routes, demands, d), d), tt)
  {
    forall j | 0 <= j < |routes| ensures HasLegs(AdjustedStores(routes, demands, d)[j], tt) {
      AdjustedWithin(routes[j], demands[j], d);
      HasLegsAllPairs(Adjusted(routes[j], demands[j], d).0, tt);
    }
    var removed := RemovedAll(routes, demands, d);
    RemovedFromRoutes(routes, demands, d);
    LeftOutFacts(removed, d);
    var entries := LeftOut(removed, d);
    forall k | 0 <= k < |entries|
      ensures (entries[k].0.0, entries[k].0.1) in tt && (entries[k].0.1, entries[k].0.0) in tt
    {
      assert entries[k] in entries;
      var j :| 0 <= j < |routes| && entries[k].0.0 == routes[j][0] && entries[k].0.1 in Mids(routes[j]);
      MidsSplit(routes[j]);
      assert entries[k].0.0 in routes[j] && entries[k].0.1 in routes[j];
    }
  }

  /** One simulation uses more trucks than routes exactly when one of its
      routes was over capacity. */
  lemma ColumnTrucks(routes: seq<seq<string>>, demands: seq<int>, d: map<string, nat>)
    requires AllPeelable(routes, demands, d)
    ensures var entries := LeftOut(RemovedAll(routes, demands, d), d);
      && CountOver(demands) <= |routes| <= Trucks(|routes|, entries)
      && (Trucks(|routes|, entries) == |routes| <==> CountOver(demands) == 0)
  {
    var removed := RemovedAll(routes, demands, d);
    var entries := LeftOut(removed, d);
    TrucksBounds(|routes|, entries);
    LeftOutFacts(removed, d);
    RemovedCount(routes, demands, d);
    CountOverBound(demands);
    if removed != [] {
      assert removed[0] in Dedup(removed);
    }
    assert entries == [] <==> Keys(entries) == [];
  }

  /** With non-negative travel and a non-negative delay, no trip takes
      negative time. */
  lemma TripHoursNonNegative(travel: int, extra: int, pallets: int)
    requires travel >= 0 && extra >= 0 && pallets >= 0
    ensures TripHours(travel, extra, pallets) >= 0.0
  {
    TripHoursMonotone(0, 0, 0, travel, extra, pallets);
  }

  lemma {:induction false} RoutesCostNonNegative(hours: seq<real>)
    requires forall j :: 0 <= j < |hours| ==> hours[j] >= 0.0
    ensures RoutesCost(hours) >= 0.0
    decreases |hours|
  {
    if hours != [] {
      RoutesCostNonNegative(hours[..|hours| - 1]);
      TripCostBounds(hours[|hours| - 1]);
    }
  }

  lemma {:induction false} TripsCostNonNegative(trips: seq<(Pair, real)>)
    requires forall k :: 0 <= k < |trips| ==> trips[k].1 >= 0.0
    ensures TripsCost(trips) >= 0.0
    decreases |trips|
  {
    if trips != [] {
      TripsCostNonNegative(trips[..|trips| - 1]);
      TripCostBounds(trips[|trips| - 1].1);
    }
  }

  /** A simulation over non-negative travel times never has a negative cost. */
  lemma ColumnCost(stores: seq<seq<string>>, demands: seq<int>, entries: seq<Entry>, extra: int, tt: Travel)
    requires |demands| == |stores| && extra >= 0 && NonNegativeTravel(tt)
    requires forall j :: 0 <= j < |stores| ==> demands[j] >= 0
    ensures SimulationCost(RouteHoursOf(stores, demands, extra, tt), LeftOutHoursOf(entries, extra, tt)) >= 0.0
  {
    var hours := RouteHoursOf(stores, demands, extra, tt);
    forall j | 0 <= j < |stores| ensures hours[j] >= 0.0 {
      LegsNonNegative(stores[j], tt);
      TripHoursNonNegative(Legs(stores[j], tt), extra, demands[j]);
    }
    var trips := LeftOutHoursOf(entries, extra, tt);
    forall k | 0 <= k < |entries| ensures trips[k].1 >= 0.0 {
      var t := Legs([entries[k].0.0, entries[k].0.1, entries[k].0.0], tt);
      LegsNonNegative([entries[k].0.0, entries[k].0.1, entries[k].0.0], tt);
      TripHoursNonNegative(if entries[k].1 > CAPACITY then t + t else t, extra, entries[k].1);
    }
    RoutesCostNonNegative(hours);
    TripsCostNonNegative(trips);
  }

  /** runSimulation: simulate n days of a schedule and cost each one. The
      random draws of the demand and delay samplers are inputs; for every
      simulation the result gives its cost, the trucks it used and the
      number of routes that exceeded a truck's capacity. */
  method RunSimulation(routes: seq<seq<string>>, n: nat, stores: seq<string>, weekday: bool, tt: Travel,
                       rows: seq<seq<nat>>, draws: seq<Indices>, offsets: seq<nat>)
    returns (cost: seq<real>, trucks: seq<nat>, counts: seq<nat>)
    requires n >= 1
    requires Distinct(stores) && Shaped(rows) && |draws| == |stores|
    requires var noel, warehouse := Flatten(NoelLeemingRows(rows), DayColumns(weekday)), Flatten(WarehouseRows(rows), DayColumns(weekday));
      forall k :: 0 <= k < |stores| ==> ValidIndices(BrandOf(stores[k]), draws[k], n, noel, warehouse)
    requires forall j :: 0 <= j < |routes| ==> |routes[j]| >= 2 && forall x :: x in Mids(routes[j]) ==> x in stores
    requires ScheduleTravel(routes, tt)
    requires |offsets| == n
    requires forall k :: 0 <= k < n ==> offsets[k] < (if weekday then WEEKDAY_EXTRA_END else WEEKEND_EXTRA_END) - MIN_EXTRA
    ensures |cost| == n && |trucks| == n && |counts| == n
    ensures forall i :: 0 <= i < n ==> counts[i] <= |routes| <= trucks[i]
    ensures forall i :: 0 <= i < n ==> (trucks[i] == |routes| <==> counts[i] == 0)
    ensures NonNegativeTravel(tt) ==> forall i :: 0 <= i < n ==> cost[i] >= 0.0
  {
    var sim := GetSimulatedDemands(stores, rows, n, weekday, draws);
    var table := SimulateDemand(routes, sim, n);
    forall i | 0 <= i < n
      ensures AllPeelable(routes, table[i], Column(sim, i))
      ensures forall j :: 0 <= j < |routes| ==> AdjustedDemands(routes, table[i], Column(sim, i))[j] >= 0
    {
      ColumnConsistent(routes, table[i], Column(sim, i));
    }
    var adjustedStores, adjustedDemands, leftOut;
    adjustedStores, adjustedDemands, leftOut, counts := AdjustRoutes(routes, table, sim, n);
    var extra := SimulatedTime(n, weekday, offsets);
    forall i | 0 <= i < n
      ensures forall j :: 0 <= j < |routes| ==> HasLegs(adjustedStores[i][j], tt)
      ensures TripLegs(leftOut[i], tt)
    {
      ColumnTravel(routes, table[i], Column(sim, i), tt);
    }
    assert TimeInputs(adjustedStores, leftOut, extra, tt, adjustedDemands);
    var routeHours, leftHours;
    routeHours, leftHours, trucks := CalculateTime(adjustedStores, leftOut, extra, tt, adjustedDemands);
    cost := CalculateCost(routeHours, leftHours);
    forall i | 0 <= i < n
      ensures counts[i] <= |routes| <= trucks[i] && (trucks[i] == |routes| <==> counts[i] == 0)
      ensures NonNegativeTravel(tt) ==> cost[i] >= 0.0
    {
      ColumnTrucks(routes, table[i], Column(sim, i));
      if NonNegativeTravel(tt) {
        ColumnCost(adjustedStores[i], adjustedDemands[i], leftOut[i], extra[i], tt);
      }
    }
  }
}
