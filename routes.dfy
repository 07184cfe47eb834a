/** Candidate-route construction: the travel-time table restricted to one
    depot's locations, the North/South split of locations, the randomised
    greedy nearest-neighbour builder, the pool of primary and second-shift
    candidates it feeds to the set-partitioning solver, and the extraction of
    the solver's chosen routes. Random draws are parameters (Draw). */
module Routes {
  import opened Common

  const DUTY_LIMIT := 14400          // seconds: a four-hour shift
  const CAPACITY := 20               // pallets per truck
  const SECONDS_PER_PALLET := 600
  const ITERATIONS := 1000           // constructions per call of FindStoreSets
  const HOURLY_RATE: real := 175.0
  const SECOND_SHIFT_COST: real := 1500.0
  const VAR_PREFIX_LENGTH := 7       // the solver names a variable "Choose_" + route name

  // ---------------------------------------------------------------------------
  // Travel-time table

  /** A labelled travel-time table: rows are origins, columns destinations. */
  datatype Matrix = Matrix(rows: seq<string>, cols: seq<string>, cell: Travel)

  /** Labels do not repeat, every cell belongs to a row and a column, and every
      row and column meet in a cell. */
  predicate WellFormed(m: Matrix)
  {
    && Distinct(m.rows) && Distinct(m.cols)
    && (forall key :: key in m.cell ==> key.0 in m.rows && key.1 in m.cols)
    && (forall a, b :: a in m.rows && b in m.cols ==> (a, b) in m.cell)
  }

  /** r is m with every row and column whose label is not in labels dropped,
      the remaining entries untouched. */
  ghost predicate RestrictionOf(m: Matrix, labels: seq<string>, r: Matrix)
  {
    && r.rows == Keep(m.rows, labels) && r.cols == Keep(m.cols, labels)
    && (forall key :: key in r.cell <==> key in m.cell && key.0 in labels && key.1 in labels)
    && (forall key :: key in r.cell ==> key in m.cell && r.cell[key] == m.cell[key])
  }

  /** The first loop of getTravelTimes: drop every column whose label is not
      one of the given locations. */
  method DropColumns(labels: seq<string>, m: Matrix) returns (cols: seq<string>, cell: Travel)
    requires forall key :: key in m.cell ==> key.1 in m.cols
    ensures cols == Keep(m.cols, labels)
    ensures forall key :: key in cell <==> key in m.cell && key.1 in labels
    ensures forall key :: key in cell ==> cell[key] == m.cell[key]
  {
    cell := m.cell;
    cols := [];
    for k := 0 to |m.cols|
      invariant cols == Keep(m.cols[..k], labels)
      invariant forall key :: key in cell <==> key in m.cell && (key.1 in labels || key.1 !in m.cols[..k])
      invariant forall key :: key in cell ==> cell[key] == m.cell[key]
    {
      var c := m.cols[k];
      assert m.cols[..k + 1] == m.cols[..k] + [c];
      assert m.cols[..k + 1][..k] == m.cols[..k];
      if c !in labels {
        cell := map key | key in cell && key.1 != c :: cell[key];
      } else {
        cols := cols + [c];
      }
    }
    assert m.cols[..|m.cols|] == m.cols;
  }

  /** The second loop of getTravelTimes: drop every row whose label is not one
      of the given locations. */
  method DropRows(labels: seq<string>, m: Matrix) returns (rows: seq<string>, cell: Travel)
    requires forall key :: key in m.cell ==> key.0 in m.rows
    ensures rows == Keep(m.rows, labels)
    ensures forall key :: key in cell <==> key in m.cell && key.0 in labels
    ensures forall key :: key in cell ==> cell[key] == m.cell[key]
  {
    cell := m.cell;
    rows := [];
    for k := 0 to |m.rows|
      invariant rows == Keep(m.rows[..k], labels)
      invariant forall key :: key in cell <==> key in m.cell && (key.0 in labels || key.0 !in m.rows[..k])
      invariant forall key :: key in cell ==> cell[key] == m.cell[key]
    {
      var row := m.rows[k];
      assert m.rows[..k + 1] == m.rows[..k] + [row];
      assert m.rows[..k + 1][..k] == m.rows[..k];
      if row !in labels {
        cell := map key | key in cell && key.0 != row :: cell[key];
      } else {
        rows := rows + [row];
      }
    }
    assert m.rows[..|m.rows|] == m.rows;
  }

  /** getTravelTimes: drop every column, then every row, whose label is not
      one of the given locations. */
  method GetTravelTimes(labels: seq<string>, m: Matrix) returns (r: Matrix)
    requires WellFormed(m)
    ensures RestrictionOf(m, labels, r)
  {
    var cols, colCell := DropColumns(labels, m);
    var rows, cell := DropRows(labels, Matrix(m.rows, cols, colCell));
    r := Matrix(rows, cols, cell);
  }

  /** The restricted table is again well formed. */
  lemma RestrictionWellFormed(m: Matrix, labels: seq<string>, r: Matrix)
    requires WellFormed(m) && RestrictionOf(m, labels, r)
    ensures WellFormed(r)
  {
    KeepDistinct(m.rows, labels);
    KeepDistinct(m.cols, labels);
  }

  // ---------------------------------------------------------------------------
  // North / South split

  /** One line of the distances file: a location and its distances to the
      South centre (first column) and the North centre (second column). */
  datatype DistanceRow = DistanceRow(name: string, toSouth: real, toNorth: real)

  predicate SouthRule(row: DistanceRow)
  {
    row.toSouth < row.toNorth && row.toSouth != 0.0
  }

  predicate NorthRule(row: DistanceRow)
  {
    row.toSouth > row.toNorth && row.toNorth != 0.0
  }

  predicate SideRule(row: DistanceRow, south: bool)
  {
    if south then SouthRule(row) else NorthRule(row)
  }

  /** The names of the rows that go to one side, in file order. */
  function Side(rows: seq<DistanceRow>, south: bool): seq<string>
    decreases |rows|
  {
    if rows == [] then []
    else
      var row := rows[|rows| - 1];
      var rest := Side(rows[..|rows| - 1], south);
      if SideRule(row, south) then rest + [row.name] else rest
  }

  /** BothCentresOpen: each location goes to the nearer centre, unless it is
      equally far from both or is one of the centres (distance zero). */
  method BothCentresOpen(rows: seq<DistanceRow>) returns (north: seq<string>, south: seq<string>)
    ensures south == Side(rows, true) && north == Side(rows, false)
  {
    north, south := [], [];
    var i := 0;
    while i < |rows|
      invariant 0 <= i <= |rows|
      invariant south == Side(rows[..i], true) && north == Side(rows[..i], false)
    {
      assert rows[..i + 1][..i] == rows[..i];
      if rows[i].toSouth < rows[i].toNorth && rows[i].toSouth != 0.0 {
        south := south + [rows[i].name];
      } else if rows[i].toSouth > rows[i].toNorth && rows[i].toNorth != 0.0 {
        north := north + [rows[i].name];
      }
      i := i + 1;
    }
    assert rows[..|rows|] == rows;
  }

  /** A name is on a side exactly when some row with that name meets that
      side's rule. */
  lemma {:induction false} SideMembers(rows: seq<DistanceRow>, south: bool, x: string)
    ensures x in Side(rows, south) <==>
      exists k :: 0 <= k < |rows| && rows[k].name == x && SideRule(rows[k], south)
    decreases |rows|
  {
    if rows != [] {
      var init := rows[..|rows| - 1];
      SideMembers(init, south, x);
      if exists k :: 0 <= k < |init| && init[k].name == x && SideRule(init[k], south) {
        var k :| 0 <= k < |init| && init[k].name == x && SideRule(init[k], south);
        assert rows[k] == init[k];
      }
      if exists k :: 0 <= k < |rows| && rows[k].name == x && SideRule(rows[k], south) {
        var k :| 0 <= k < |rows| && rows[k].name == x && SideRule(rows[k], south);
        if k < |init| { assert init[k] == rows[k]; }
      }
    }
  }

  predicate DistinctNames(rows: seq<DistanceRow>)
  {
    forall j, k :: 0 <= j < k < |rows| ==> rows[j].name != rows[k].name
  }

  /** With one row per location, no location is sent to both centres. */
  lemma SidesDisjoint(rows: seq<DistanceRow>, x: string)
    requires DistinctNames(rows)
    ensures !(x in Side(rows, true) && x in Side(rows, false))
  {
    SideMembers(rows, true, x);
    SideMembers(rows, false, x);
    forall j, k | 0 <= j < |rows| && 0 <= k < |rows| && rows[j].name == x && rows[k].name == x
      ensures j == k
    {
    }
  }

  /** A location equally far from both centres, or one of the centres itself
      (a zero distance, all distances being non-negative), goes to neither. */
  lemma TiesAndCentresExcluded(rows: seq<DistanceRow>, k: nat)
    requires DistinctNames(rows) && k < |rows|
    requires rows[k].toSouth >= 0.0 && rows[k].toNorth >= 0.0
    requires rows[k].toSouth == rows[k].toNorth || rows[k].toSouth == 0.0 || rows[k].toNorth == 0.0
    ensures rows[k].name !in Side(rows, true) && rows[k].name !in Side(rows, false)
  {
    SideMembers(rows, true, rows[k].name);
    SideMembers(rows, false, rows[k].name);
  }

  // ---------------------------------------------------------------------------
  // Ranking of candidate next stores

  predicate AllRows(m: Matrix, s: seq<string>)
  {
    forall x :: x in s ==> x in m.rows
  }

  /** The sort key of a candidate: its entry in the column of `current`. */
  function Key(m: Matrix, current: string, x: string): int
  {
    LegTime(m.cell, x, current)
  }

  /** The rows left after dropping the current store and the centre. */
  function Candidates(rows: seq<string>, current: string, centre: string): seq<string>
    decreases |rows|
  {
    if rows == [] then []
    else
      var x := rows[|rows| - 1];
      var rest := Candidates(rows[..|rows| - 1], current, centre);
      if x != current && x != centre then rest + [x] else rest
  }

  lemma {:induction false} CandidatesMembers(rows: seq<string>, current: string, centre: string, x: string)
    ensures x in Candidates(rows, current, centre) <==> x in rows && x != current && x != centre
    decreases |rows|
  {
    if rows != [] {
      var init := rows[..|rows| - 1];
      CandidatesMembers(init, current, centre, x);
      assert rows == init + [rows[|rows| - 1]];
    }
  }

  /** Insert x before the first element with a strictly larger key, so that
      equal keys keep their order. */
  function InsertByKey(x: string, s: seq<string>, m: Matrix, current: string): seq<string>
    decreases |s|
  {
    if s == [] then [x]
    else if Key(m, current, x) < Key(m, current, s[0]) then [x] + s
    else [s[0]] + InsertByKey(x, s[1..], m, current)
  }

  /** Insertion sort on the key; stable, as ties keep their input order. */
  function SortByKey(s: seq<string>, m: Matrix, current: string): seq<string>
    decreases |s|
  {
    if s == [] then []
    else InsertByKey(s[0], SortByKey(s[1..], m, current), m, current)
  }

  lemma {:induction false} InsertPermutes(x: string, s: seq<string>, m: Matrix, current: string)
    ensures multiset(InsertByKey(x, s, m, current)) == multiset(s) + multiset{x}
    decreases |s|
  {
    if s != [] {
      assert s == [s[0]] + s[1..];
      InsertPermutes(x, s[1..], m, current);
    }
  }

  lemma {:induction false} SortPermutes(s: seq<string>, m: Matrix, current: string)
    ensures multiset(SortByKey(s, m, current)) == multiset(s)
    decreases |s|
  {
    if s != [] {
      assert s == [s[0]] + s[1..];
      SortPermutes(s[1..], m, current);
      InsertPermutes(s[0], SortByKey(s[1..], m, current), m, current);
    }
  }

  predicate Ascending(m: Matrix, current: string, s: seq<string>)
  {
    forall j, k :: 0 <= j < k < |s| ==> Key(m, current, s[j]) <= Key(m, current, s[k])
  }

  predicate AllAtLeast(m: Matrix, current: string, s: seq<string>, lo: int)
  {
    forall y :: y in s ==> lo <= Key(m, current, y)
  }

  lemma AscendingTail(m: Matrix, current: string, s: seq<string>)
    requires Ascending(m, current, s) && s != []
    ensures AllAtLeast(m, current, s, Key(m, current, s[0]))
    ensures Ascending(m, current, s[1..])
  {
    forall y | y in s ensures Key(m, current, s[0]) <= Key(m, current, y) {
      var k :| 0 <= k < |s| && s[k] == y;
      if k > 0 { assert Key(m, current, s[0]) <= Key(m, current, s[k]); }
    }
  }

  lemma AscendingCons(m: Matrix, current: string, h: string, t: seq<string>, lo: int)
    requires Ascending(m, current, t) && AllAtLeast(m, current, t, lo) && Key(m, current, h) <= lo
    ensures Ascending(m, current, [h] + t)
  {
    var r := [h] + t;
    forall j, k | 0 <= j < k < |r| ensures Key(m, current, r[j]) <= Key(m, current, r[k]) {
      assert r[k] == t[k - 1] && r[k] in t;
      if j > 0 { assert r[j] == t[j - 1]; }
    }
  }

  lemma InsertAtLeast(x: string, s: seq<string>, m: Matrix, current: string, lo: int)
    requires AllAtLeast(m, current, s, lo) && lo <= Key(m, current, x)
    ensures AllAtLeast(m, current, InsertByKey(x, s, m, current), lo)
  {
    var r := InsertByKey(x, s, m, current);
    InsertPermutes(x, s, m, current);
    forall y | y in r ensures lo <= Key(m, current, y) {
      assert y in multiset(r);
    }
  }

  lemma {:induction false} InsertKeepsAscending(x: string, s: seq<string>, m: Matrix, current: string)
    requires Ascending(m, current, s)
    ensures Ascending(m, current, InsertByKey(x, s, m, current))
    decreases |s|
  {
    if s != [] {
      AscendingTail(m, current, s);
      var lo := Key(m, current, s[0]);
      if Key(m, current, x) < lo {
        AscendingCons(m, current, x, s, lo);
      } else {
        InsertKeepsAscending(x, s[1..], m, current);
        assert AllAtLeast(m, current, s[1..], lo);
        InsertAtLeast(x, s[1..], m, current, lo);
        AscendingCons(m, current, s[0], InsertByKey(x, s[1..], m, current), lo);
      }
    }
  }

  lemma {:induction false} SortAscending(s: seq<string>, m: Matrix, current: string)
    ensures Ascending(m, current, SortByKey(s, m, current))
    decreases |s|
  {
    if s != [] {
      SortAscending(s[1..], m, current);
      InsertKeepsAscending(s[0], SortByKey(s[1..], m, current), m, current);
    }
  }

  /** The candidates for the store after `current`, ordered by their travel
      time to `current` (the entry in row candidate, column current). */
  function Ranked(m: Matrix, current: string, centre: string): seq<string>
  {
    SortByKey(Candidates(m.rows, current, centre), m, current)
  }

  /** The ranking holds exactly the rows other than the current store and the centre. */
  lemma RankedMembers(m: Matrix, current: string, centre: string, x: string)
    ensures x in Ranked(m, current, centre) <==> x in m.rows && x != current && x != centre
  {
    var c := Candidates(m.rows, current, centre);
    SortPermutes(c, m, current);
    CandidatesMembers(m.rows, current, centre, x);
    assert x in Ranked(m, current, centre) <==> x in multiset(Ranked(m, current, centre));
    assert x in c <==> x in multiset(c);
  }

  /** The ranking lists every candidate once, ascending in the travel time
      from candidate to current store. */
  lemma RankedAscending(m: Matrix, current: string, centre: string)
    ensures multiset(Ranked(m, current, centre)) == multiset(Candidates(m.rows, current, centre))
    ensures Ascending(m, current, Ranked(m, current, centre))
  {
    SortPermutes(Candidates(m.rows, current, centre), m, current);
    SortAscending(Candidates(m.rows, current, centre), m, current);
  }

  // ---------------------------------------------------------------------------
  // Route construction

  /** The inputs of one call of FindStoreSets: the centre, the demand table's
      store labels in order with their pallet estimates, and the travel table. */
  datatype Inputs = Inputs(centre: string, stores: seq<string>, demand: map<string, nat>, m: Matrix)

  /** Every pair of rows of the travel table has an entry (the table is
      square over its labels). */
  predicate Complete(m: Matrix)
  {
    forall a, b :: a in m.rows && b in m.rows ==> (a, b) in m.cell
  }

  /** The travel table covers the centre and every store; every location other
      than the centre has a demand estimate. */
  predicate Valid(inp: Inputs)
  {
    && Complete(inp.m)
    && inp.centre in inp.m.rows
    && (forall s :: s in inp.stores ==> s in inp.m.rows && s in inp.demand)
    && (forall x :: x in inp.m.rows && x != inp.centre ==> x in inp.demand)
  }

  /** Under Valid, every leg of a tour through known locations has an entry. */
  lemma TourLegs(inp: Inputs, mids: seq<string>)
    requires Valid(inp) && AllRows(inp.m, mids)
    ensures HasLegs(Tour(inp.centre, mids), inp.m.cell)
  {
    var t := Tour(inp.centre, mids);
    assert forall x :: x in t ==> x in inp.m.rows;
    HasLegsAllPairs(t, inp.m.cell);
  }

  /** RouteLength of the tour centre, mids, centre carrying `pallets`. */
  function RouteSeconds(inp: Inputs, mids: seq<string>, pallets: nat): int
  {
    Legs(Tour(inp.centre, mids), inp.m.cell) + SECONDS_PER_PALLET * pallets
  }

  /** The random choices one construction consumes: the index of the seed
      store, the stop limit numStore and, per extension attempt, which of the
      three nearest candidates is drawn. */
  datatype Draw = Draw(seed: nat, maxStops: nat, picks: seq<nat>)

  predicate ValidDraw(inp: Inputs, d: Draw)
  {
    && d.seed < |inp.stores|
    && 2 <= d.maxStops <= 5
    && |d.picks| + 1 >= d.maxStops
    && forall j :: 0 <= j < |d.picks| ==> d.picks[j] <= 2
  }

  /** The guard of the builder's loop: below the stop limit and within the duty limit. */
  predicate Continues(inp: Inputs, d: Draw, mids: seq<string>, pallets: nat)
  {
    |mids| < d.maxStops && RouteSeconds(inp, mids, pallets) <= DUTY_LIMIT
  }

  /** The candidate drawn after mids: entry picks[|mids|-1] of the ranking from
      the last store; None when that entry does not exist (or no pick is left,
      which the stop limit rules out). */
  function Drawn(inp: Inputs, d: Draw, mids: seq<string>): (r: Option<string>)
    ensures r.Some? ==> |mids| >= 1 && r.value in inp.m.rows && r.value != inp.centre && r.value != mids[|mids| - 1]
  {
    if 1 <= |mids| <= |d.picks| then
      var ranked := Ranked(inp.m, mids[|mids| - 1], inp.centre);
      var k := d.picks[|mids| - 1];
      if k < |ranked| then (RankedMembers(inp.m, mids[|mids| - 1], inp.centre, ranked[k]); Some(ranked[k])) else None
    else None
  }

  /** The acceptance test of a drawn candidate: not yet on the route, the
      extended route within the duty limit with the pallets loaded so far, and
      the pallets within capacity. */
  predicate Accepts(inp: Inputs, mids: seq<string>, pallets: nat, next: string)
  {
    && next !in Tour(inp.centre, mids)
    && RouteSeconds(inp, mids + [next], pallets) <= DUTY_LIMIT
    && pallets + Load(inp.demand, next) <= CAPACITY
  }

  /** What the builder's loop does in a state (mids, pallets). */
  datatype Outcome = Fail | Stop | Take(next: string)

  /** One pass of the builder's loop: Stop when the loop guard fails or the
      drawn candidate is refused, Take when it is accepted, Fail when the draw
      indexes past the ranking (the source raises IndexError there). */
  function Decide(inp: Inputs, d: Draw, mids: seq<string>, pallets: nat): Outcome
  {
    if !Continues(inp, d, mids, pallets) then Stop
    else match Drawn(inp, d, mids)
      case None => Fail
      case Some(next) => if Accepts(inp, mids, pallets, next) then Take(next) else Stop
  }

  /** The accepted candidate passed every test of the loop body. */
  lemma TakeFacts(inp: Inputs, d: Draw, mids: seq<string>, pallets: nat)
    requires Valid(inp) && Decide(inp, d, mids, pallets).Take?
    ensures var next := Decide(inp, d, mids, pallets).next;
      && Continues(inp, d, mids, pallets) && Drawn(inp, d, mids) == Some(next)
      && next in inp.m.rows && next in inp.demand && next != inp.centre && next !in mids
      && RouteSeconds(inp, mids + [next], pallets) <= DUTY_LIMIT
      && pallets + Load(inp.demand, next) <= CAPACITY
  {
    var next := Decide(inp, d, mids, pallets).next;
    assert forall x :: x in mids ==> x in Tour(inp.centre, mids);
  }

  /** Decide as a rule for Run. */
  function Rule(inp: Inputs, d: Draw): (seq<string>, nat) -> Outcome
  {
    (mids: seq<string>, pallets: nat) => Decide(inp, d, mids, pallets)
  }

  /** rule agrees with Decide wherever Decide is consulted. */
  ghost predicate Decides(inp: Inputs, d: Draw, rule: (seq<string>, nat) -> Outcome)
  {
    forall mids: seq<string>, pallets: nat {:trigger Decide(inp, d, mids, pallets)} ::
      rule(mids, pallets) == Decide(inp, d, mids, pallets)
  }

  lemma RuleDecides(inp: Inputs, d: Draw)
    ensures Decides(inp, d, Rule(inp, d))
  {
  }

  /** A rule that agrees with Decide stops once the duty limit is passed. */
  lemma DecidesStop(inp: Inputs, d: Draw, rule: (seq<string>, nat) -> Outcome, mids: seq<string>, pallets: nat)
    requires Decides(inp, d, rule) && RouteSeconds(inp, mids, pallets) > DUTY_LIMIT
    ensures rule(mids, pallets) == Stop
  {
    assert Decide(inp, d, mids, pallets) == Stop;
  }

  /** The builder's loop driven by a rule: from (mids, pallets), stop at the
      stop limit, otherwise do what the rule says; each accepted store adds its
      demand to the pallet total. */
  function Run(rule: (seq<string>, nat) -> Outcome, demand: map<string, nat>, limit: nat,
               mids: seq<string>, pallets: nat): (r: Option<(seq<string>, nat)>)
    ensures r.Some? ==> var fin := r.value.0;
      && |mids| <= |fin| && fin[..|mids|] == mids
      && |fin| <= if |mids| < limit then limit else |mids|
    decreases limit - |mids|
  {
    if |mids| >= limit then Some((mids, pallets))
    else match rule(mids, pallets)
      case Fail => None
      case Stop => Some((mids, pallets))
      case Take(next) =>
        var r := Run(rule, demand, limit, mids + [next], pallets + Load(demand, next));
        assert r.Some? ==> r.value.0[..|mids|] == r.value.0[..|mids| + 1][..|mids|];
        r
  }

  /** One pass of Run below the limit. */
  lemma RunStep(rule: (seq<string>, nat) -> Outcome, demand: map<string, nat>, limit: nat, mids: seq<string>, pallets: nat)
    requires |mids| < limit
    ensures Run(rule, demand, limit, mids, pallets) ==
      match rule(mids, pallets)
      case Fail => None
      case Stop => Some((mids, pallets))
      case Take(next) => Run(rule, demand, limit, mids + [next], pallets + Load(demand, next))
  {
  }

  /** The step Run takes once the rule has answered Take or Stop. */
  lemma RunAfter(rule: (seq<string>, nat) -> Outcome, demand: map<string, nat>, limit: nat,
                 mids: seq<string>, pallets: nat, outcome: Outcome)
    requires |mids| < limit && outcome == rule(mids, pallets) && !outcome.Fail?
    ensures Run(rule, demand, limit, mids, pallets) ==
      if outcome.Take? then Run(rule, demand, limit, mids + [outcome.next], pallets + Load(demand, outcome.next))
      else Some((mids, pallets))
  {
  }

  /** One construction: the seed store and its demand, then the loop. */
  function Build(inp: Inputs, d: Draw): Option<(seq<string>, nat)>
    requires ValidDraw(inp, d)
  {
    var seed := inp.stores[d.seed];
    Run(Rule(inp, d), inp.demand, d.maxStops, [seed], Load(inp.demand, seed))
  }

  /** Construction cannot continue from (mids, pallets): the loop guard fails,
      or the drawn candidate is refused (there is no retry). */
  predicate Halted(inp: Inputs, d: Draw, mids: seq<string>, pallets: nat)
  {
    || !Continues(inp, d, mids, pallets)
    || (Drawn(inp, d, mids).Some? && !Accepts(inp, mids, pallets, Drawn(inp, d, mids).value))
  }

  /** The loop stops exactly in the halted states. */
  lemma HaltedStop(inp: Inputs, d: Draw, mids: seq<string>, pallets: nat)
    ensures Halted(inp, d, mids, pallets) <==> Decide(inp, d, mids, pallets) == Stop
  {
  }

  /** mids is a trail of the rule: every store after the first was taken by
      the rule below the limit, with the demand of the stores before it loaded. */
  predicate Trail(rule: (seq<string>, nat) -> Outcome, demand: map<string, nat>, limit: nat, mids: seq<string>)
    decreases |mids|
  {
    && 1 <= |mids|
    && (|mids| == 1 ||
        var init := mids[..|mids| - 1];
        && Trail(rule, demand, limit, init) && |init| < limit
        && rule(init, PalletSum(init, demand)) == Take(mids[|mids| - 1]))
  }

  /** A store the rule takes extends a trail. */
  lemma TrailExtend(rule: (seq<string>, nat) -> Outcome, demand: map<string, nat>, limit: nat, mids: seq<string>, next: string)
    requires Trail(rule, demand, limit, mids) && |mids| < limit
    requires rule(mids, PalletSum(mids, demand)) == Take(next)
    ensures Trail(rule, demand, limit, mids + [next])
    ensures PalletSum(mids + [next], demand) == PalletSum(mids, demand) + Load(demand, next)
  {
    SnocInit(mids, next);
    PalletSumSnoc(mids, next, demand);
  }

  /** Run from the first store reaches every state of a trail: the loop is
      deterministic given the rule. */
  lemma {:induction false} TrailRun(rule: (seq<string>, nat) -> Outcome, demand: map<string, nat>, limit: nat, mids: seq<string>)
    requires Trail(rule, demand, limit, mids)
    ensures Run(rule, demand, limit, [mids[0]], Load(demand, mids[0])) == Run(rule, demand, limit, mids, PalletSum(mids, demand))
    decreases |mids|
  {
    if |mids| == 1 {
      assert mids == [mids[0]];
      PalletSumOne(mids[0], demand);
    } else {
      var init, last := mids[..|mids| - 1], mids[|mids| - 1];
      TrailRun(rule, demand, limit, init);
      assert init[0] == mids[0];
      InitLast(mids);
      PalletSumSnoc(init, last, demand);
    }
  }

  /** A construction reaches every state of a trail from its seed store. */
  lemma TrailBuild(inp: Inputs, d: Draw, mids: seq<string>)
    requires ValidDraw(inp, d) && Trail(Rule(inp, d), inp.demand, d.maxStops, mids) && mids[0] == inp.stores[d.seed]
    ensures Build(inp, d) == Run(Rule(inp, d), inp.demand, d.maxStops, mids, PalletSum(mids, inp.demand))
  {
    TrailRun(Rule(inp, d), inp.demand, d.maxStops, mids);
  }

  /** Run from a trail ends on a longer trail, stopped at the limit or by the
      rule, carrying its stores' demand. */
  lemma {:induction false} RunTrail(rule: (seq<string>, nat) -> Outcome, demand: map<string, nat>, limit: nat, mids: seq<string>)
    requires Trail(rule, demand, limit, mids) && Run(rule, demand, limit, mids, PalletSum(mids, demand)).Some?
    ensures var (fin, p) := Run(rule, demand, limit, mids, PalletSum(mids, demand)).value;
      && Trail(rule, demand, limit, fin) && p == PalletSum(fin, demand)
      && (|fin| >= limit || rule(fin, p) == Stop)
    decreases limit - |mids|
  {
    if |mids| < limit {
      RunStep(rule, demand, limit, mids, PalletSum(mids, demand));
      match rule(mids, PalletSum(mids, demand))
      case Stop =>
      case Take(next) =>
        TrailExtend(rule, demand, limit, mids, next);
        RunTrail(rule, demand, limit, mids + [next]);
    }
  }

  /** Every store of a trail after the first was taken by the rule at its prefix. */
  lemma {:induction false} TrailSteps(rule: (seq<string>, nat) -> Outcome, demand: map<string, nat>, limit: nat, mids: seq<string>, j: nat)
    requires Trail(rule, demand, limit, mids) && 1 <= j < |mids|
    ensures rule(mids[..j], PalletSum(mids[..j], demand)) == Take(mids[j])
    decreases |mids|
  {
    var init := mids[..|mids| - 1];
    if j < |init| {
      TrailSteps(rule, demand, limit, init, j);
      assert init[..j] == mids[..j];
    }
  }

  /** The stores of a trail are distinct, and none after the first is the
      centre, when the rule only takes new stores other than the centre. */
  lemma {:induction false} TrailDistinct(rule: (seq<string>, nat) -> Outcome, demand: map<string, nat>, limit: nat, mids: seq<string>, centre: string)
    requires Trail(rule, demand, limit, mids)
    requires forall m: seq<string>, p: nat :: rule(m, p).Take? ==> rule(m, p).next !in m && rule(m, p).next != centre
    ensures Distinct(mids) && forall j :: 1 <= j < |mids| ==> mids[j] != centre
    decreases |mids|
  {
    if |mids| > 1 {
      var init, last := mids[..|mids| - 1], mids[|mids| - 1];
      TrailDistinct(rule, demand, limit, init, centre);
      assert last !in init && last != centre by {
        assert rule(init, PalletSum(init, demand)).Take?;
      }
      assert forall j :: 0 <= j < |init| ==> mids[j] == init[j];
    }
  }

  /** Every store of a trail is a row of the table with a demand estimate,
      when the first one is and the rule only takes such stores. */
  lemma {:induction false} TrailRows(rule: (seq<string>, nat) -> Outcome, demand: map<string, nat>, limit: nat, mids: seq<string>, m: Matrix)
    requires Trail(rule, demand, limit, mids) && mids[0] in m.rows && mids[0] in demand
    requires forall s: seq<string>, p: nat :: rule(s, p).Take? ==> rule(s, p).next in m.rows && rule(s, p).next in demand
    ensures AllRows(m, mids) && Covered(mids, demand)
    decreases |mids|
  {
    if |mids| > 1 {
      var init, last := mids[..|mids| - 1], mids[|mids| - 1];
      TrailRows(rule, demand, limit, init, m);
      assert rule(init, PalletSum(init, demand)).Take?;
      InitLast(mids);
    }
  }

  /** A trail of more than one store is within capacity when the rule only
      takes stores that fit. */
  lemma TrailCapacity(rule: (seq<string>, nat) -> Outcome, demand: map<string, nat>, limit: nat, mids: seq<string>)
    requires Trail(rule, demand, limit, mids) && |mids| > 1
    requires forall s: seq<string>, p: nat :: rule(s, p).Take? ==> p + Load(demand, rule(s, p).next) <= CAPACITY
    ensures PalletSum(mids, demand) <= CAPACITY
  {
    var init, last := mids[..|mids| - 1], mids[|mids| - 1];
    assert rule(init, PalletSum(init, demand)).Take?;
    InitLast(mids);
    PalletSumSnoc(init, last, demand);
  }

  /** The builder's rule takes only new known stores other than the centre,
      that fit in the truck. */
  lemma RuleFacts(inp: Inputs, d: Draw)
    requires Valid(inp)
    ensures forall s: seq<string>, p: nat :: Rule(inp, d)(s, p).Take? ==>
      var next := Rule(inp, d)(s, p).next;
      && next !in s && next != inp.centre && next in inp.m.rows && next in inp.demand
      && p + Load(inp.demand, next) <= CAPACITY
  {
    forall s: seq<string>, p: nat | Rule(inp, d)(s, p).Take?
      ensures var next := Rule(inp, d)(s, p).next;
        && next !in s && next != inp.centre && next in inp.m.rows && next in inp.demand
        && p + Load(inp.demand, next) <= CAPACITY
    {
      TakeFacts(inp, d, s, p);
    }
  }

  /** What one construction yields: a tour from the centre through the seed
      store and at most numStore distinct known stores, none of which (after
      the seed) is the centre; every store after the seed taken by the loop
      body at its prefix; a stop only where the loop could not continue; and
      a pallet total equal to the stores' demand that exceeds capacity only
      for a lone seed store. */
  lemma BuildProps(inp: Inputs, d: Draw)
    requires Valid(inp) && ValidDraw(inp, d) && Build(inp, d).Some?
    ensures var (mids, p) := Build(inp, d).value;
      && 1 <= |mids| <= d.maxStops
      && mids[0] == inp.stores[d.seed]
      && Distinct(mids) && (forall j :: 1 <= j < |mids| ==> mids[j] != inp.centre)
      && AllRows(inp.m, mids) && Covered(mids, inp.demand)
      && (forall j :: 1 <= j < |mids| ==>
            Decide(inp, d, mids[..j], PalletSum(mids[..j], inp.demand)) == Take(mids[j]))
      && Halted(inp, d, mids, p)
      && p == PalletSum(mids, inp.demand)
      && (|mids| > 1 ==> p <= CAPACITY)
  {
    var seed := inp.stores[d.seed];
    var rule := Rule(inp, d);
    PalletSumOne(seed, inp.demand);
    assert Trail(rule, inp.demand, d.maxStops, [seed]);
    RunTrail(rule, inp.demand, d.maxStops, [seed]);
    var (mids, p) := Build(inp, d).value;
    assert mids[0] == seed by { assert mids[..1] == [seed]; }
    RuleFacts(inp, d);
    TrailRows(rule, inp.demand, d.maxStops, mids, inp.m);
    TrailDistinct(rule, inp.demand, d.maxStops, mids, inp.centre);
    if |mids| > 1 {
      TrailCapacity(rule, inp.demand, d.maxStops, mids);
    }
    forall j | 1 <= j < |mids|
      ensures Decide(inp, d, mids[..j], PalletSum(mids[..j], inp.demand)) == Take(mids[j])
    {
      TrailSteps(rule, inp.demand, d.maxStops, mids, j);
    }
    HaltedStop(inp, d, mids, p);
  }

  // ---------------------------------------------------------------------------
  // The stop list edited in place

  /** The route under construction, the list that the builder and RouteLength
      edit in place. */
  class StopList {
    var stops: seq<string>

    constructor (initial: seq<string>)
      ensures stops == initial
    {
      stops := initial;
    }

    /** list.insert(-1, x) */
    method Insert(x: string)
      modifies this
      ensures stops == InsertBeforeLast(old(stops), x)
    {
      stops := InsertBeforeLast(stops, x);
    }

    /** del list[-2] */
    method Delete()
      requires |stops| >= 2
      modifies this
      ensures stops == DropSecondToLast(old(stops))
    {
      stops := DropSecondToLast(stops);
    }
  }

  function Extended(stops: seq<string>, next: Option<string>): seq<string>
  {
    match next
    case None => stops
    case Some(x) => InsertBeforeLast(stops, x)
  }

  lemma InsertIntoTour(centre: string, mids: seq<string>, x: string)
    ensures InsertBeforeLast(Tour(centre, mids), x) == Tour(centre, mids + [x])
  {
  }

  /** RouteLength: the legs of the list (with nextStore inserted before its
      last element, when given) plus 600 s per pallet; the caller's list is
      as it was afterwards. */
  method RouteLength(list: StopList, times: Travel, pallets: nat, next: Option<string>) returns (secs: int)
    requires next.Some? ==> |list.stops| >= 1
    requires HasLegs(Extended(list.stops, next), times)
    modifies list
    ensures list.stops == old(list.stops)
    ensures secs == Legs(Extended(old(list.stops), next), times) + SECONDS_PER_PALLET * pallets
  {
    var travelTime := 0;
    if next.Some? {
      DropInsert(list.stops, next.value);
      list.Insert(next.value);
    }
    var s := list.stops;
    if |s| >= 1 {
      var k := 1;
      while k < |s|
        invariant 1 <= k <= |s| && list.stops == s
        invariant travelTime == Legs(s[..k], times)
      {
        assert s[..k + 1][..k] == s[..k];
        HasLegsPrefix(s, times, k + 1);
        travelTime := travelTime + times[(s[k - 1], s[k])];
        k := k + 1;
      }
      assert s[..|s|] == s;
    }
    travelTime := travelTime + pallets * SECONDS_PER_PALLET;
    if next.Some? {
      list.Delete();
    }
    secs := travelTime;
  }

  /** Where the builder's loop stands: the list holds the tour from the centre
      through mids, all of them known locations, and current is the last store. */
  ghost predicate OnTour(inp: Inputs, stops: seq<string>, current: string, mids: seq<string>)
  {
    1 <= |mids| && AllRows(inp.m, mids) && stops == Tour(inp.centre, mids) && current == mids[|mids| - 1]
  }

  /** One pass of the body of the builder's loop: draw a candidate from the
      ranking of the current store, test it with RouteLength and the
      capacity, and when it passes insert it before the closing centre, add
      its demand and make it the current store. */
  method Attempt(inp: Inputs, d: Draw, ghost rule: (seq<string>, nat) -> Outcome, list: StopList,
                 current: string, pallets: nat, ghost mids: seq<string>)
    returns (outcome: Outcome, newCurrent: string, newPallets: nat, ghost newMids: seq<string>)
    requires Valid(inp) && ValidDraw(inp, d) && Decides(inp, d, rule) && Continues(inp, d, mids, pallets)
    requires OnTour(inp, list.stops, current, mids)
    modifies list
    ensures outcome == rule(mids, pallets)
    ensures !outcome.Fail? ==> OnTour(inp, list.stops, newCurrent, newMids)
    ensures newMids == (if outcome.Take? then mids + [outcome.next] else mids)
    ensures newPallets == (if outcome.Take? then pallets + Load(inp.demand, outcome.next) else pallets)
  {
    newCurrent, newPallets, newMids := current, pallets, mids;
    var ranked := Ranked(inp.m, current, inp.centre);
    var k := d.picks[|list.stops| - 3];
    if k >= |ranked| {
      assert Decide(inp, d, mids, pallets) == Fail;
      return Fail, newCurrent, newPallets, newMids;
    }
    var next := ranked[k];
    assert Drawn(inp, d, mids) == Some(next);
    InsertIntoTour(inp.centre, mids, next);
    TourLegs(inp, mids + [next]);
    var extended := RouteLength(list, inp.m.cell, pallets, Some(next));
    assert extended == RouteSeconds(inp, mids + [next], pallets);
    if next !in list.stops && extended <= DUTY_LIMIT && pallets + inp.demand[next] <= CAPACITY {
      list.Insert(next);
      newPallets := pallets + inp.demand[next];
      newCurrent := next;
      newMids := mids + [next];
      outcome := Take(next);
      TakeFacts(inp, d, mids, pallets);
      SnocInit(mids, next);
    } else {
      outcome := Stop;
    }
    assert outcome == Decide(inp, d, mids, pallets);
  }

    /** The invariant of the builder's loop: the list holds the tour so far,
      secs is its RouteLength, and target, the outcome of the whole
      construction, is what the rest of the loop yields (or the tour so far
      once the loop has been told to stop). */
  ghost predicate Growing(inp: Inputs, d: Draw, rule: (seq<string>, nat) -> Outcome,
                          target: Option<(seq<string>, nat)>, stops: seq<string>, current: string,
                          secs: int, keepLooping: bool, mids: seq<string>, pallets: nat)
  {
    && OnTour(inp, stops, current, mids)
    && secs == RouteSeconds(inp, mids, pallets)
    && target == if keepLooping then Run(rule, inp.demand, d.maxStops, mids, pallets) else Some((mids, pallets))
  }

  /** A pass of the loop that the rule lets continue keeps Growing. */
  lemma GrowingStep(inp: Inputs, d: Draw, rule: (seq<string>, nat) -> Outcome, target: Option<(seq<string>, nat)>,
                    mids: seq<string>, pallets: nat, outcome: Outcome,
                    stops: seq<string>, current: string, secs: int, newMids: seq<string>, newPallets: nat)
    requires target == Run(rule, inp.demand, d.maxStops, mids, pallets)
    requires |mids| < d.maxStops && outcome == rule(mids, pallets) && !outcome.Fail?
    requires newMids == (if outcome.Take? then mids + [outcome.next] else mids)
    requires newPallets == (if outcome.Take? then pallets + Load(inp.demand, outcome.next) else pallets)
    requires OnTour(inp, stops, current, newMids) && secs == RouteSeconds(inp, newMids, newPallets)
    ensures Growing(inp, d, rule, target, stops, current, secs, outcome.Take?, newMids, newPallets)
  {
    RunAfter(rule, inp.demand, d.maxStops, mids, pallets, outcome);
  }

  /** The RouteLength of the guard of the builder's loop, on the tour so far. */
  method MeasureTour(inp: Inputs, list: StopList, pallets: nat, ghost mids: seq<string>) returns (secs: int)
    requires Valid(inp) && AllRows(inp.m, mids) && list.stops == Tour(inp.centre, mids)
    modifies list
    ensures list.stops == old(list.stops)
    ensures secs == RouteSeconds(inp, mids, pallets)
  {
    TourLegs(inp, mids);
    assert Extended(list.stops, None) == list.stops;
    secs := RouteLength(list, inp.m.cell, pallets, None);
  }

  /** One pass of the builder's loop followed by the RouteLength of its guard. */
  method Step(inp: Inputs, d: Draw, ghost rule: (seq<string>, nat) -> Outcome, ghost target: Option<(seq<string>, nat)>,
              list: StopList, current: string, secs: int, pallets: nat, ghost mids: seq<string>)
    returns (outcome: Outcome, newCurrent: string, newSecs: int, newPallets: nat, ghost newMids: seq<string>)
    requires Valid(inp) && ValidDraw(inp, d) && Decides(inp, d, rule)
    requires Growing(inp, d, rule, target, list.stops, current, secs, true, mids, pallets)
    requires |mids| < d.maxStops && secs <= DUTY_LIMIT
    modifies list
    ensures outcome.Fail? ==> target == None
    ensures !outcome.Fail? ==> Growing(inp, d, rule, target, list.stops, newCurrent, newSecs, outcome.Take?, newMids, newPallets)
    ensures |newMids| == |mids| + (if outcome.Take? then 1 else 0)
  {
    outcome, newCurrent, newPallets, newMids := Attempt(inp, d, rule, list, current, pallets, mids);
    if outcome.Fail? {
      RunStep(rule, inp.demand, d.maxStops, mids, pallets);
      return outcome, newCurrent, secs, newPallets, newMids;
    }
    newSecs := MeasureTour(inp, list, newPallets, newMids);
    GrowingStep(inp, d, rule, target, mids, pallets, outcome, list.stops, newCurrent, newSecs, newMids, newPallets);
  }

  /** The builder's loop from the seed store: the tour it leaves in the list
      and the pallet total are those of Run under the given rule, or null when
      the rule fails. */
  method GrowRoute(inp: Inputs, d: Draw, ghost rule: (seq<string>, nat) -> Outcome) returns (list: StopList?, pallets: nat)
    requires Valid(inp) && ValidDraw(inp, d) && Decides(inp, d, rule)
    ensures var seed := inp.stores[d.seed]; var r := Run(rule, inp.demand, d.maxStops, [seed], Load(inp.demand, seed));
      && (list == null) == r.None?
      && (list != null ==>
            && fresh(list) && list.stops == Tour(inp.centre, r.value.0)
            && pallets == r.value.1 && HasLegs(list.stops, inp.m.cell))
  {
    var seed := inp.stores[d.seed];
    list := new StopList([inp.centre, seed, inp.centre]);
    pallets := inp.demand[seed];
    var current := seed;
    var keepLooping := true;
    ghost var mids := [seed];
    ghost var target := Run(rule, inp.demand, d.maxStops, mids, pallets);
    var secs := MeasureTour(inp, list, pallets, mids);
    while |list.stops| - 2 < d.maxStops && secs <= DUTY_LIMIT && keepLooping
      invariant fresh(list) && Growing(inp, d, rule, target, list.stops, current, secs, keepLooping, mids, pallets)
      decreases d.maxStops - |mids|, keepLooping
    {
      var outcome;
      outcome, current, secs, pallets, mids := Step(inp, d, rule, target, list, current, secs, pallets, mids);
      if outcome.Fail? {
        return null, pallets;
      }
      keepLooping := outcome.Take?;
    }
    if keepLooping && |mids| < d.maxStops {
      DecidesStop(inp, d, rule, mids, pallets);
    }
    TourLegs(inp, mids);
  }

  /** The inner loop of FindStoreSets for one construction: the tour it
      leaves in the list and the pallet total, or null when a draw indexes
      past the ranking. */
  method BuildRoute(inp: Inputs, d: Draw) returns (list: StopList?, pallets: nat)
    requires Valid(inp) && ValidDraw(inp, d)
    ensures (list == null) == Build(inp, d).None?
    ensures list != null ==>
      && fresh(list) && list.stops == Tour(inp.centre, Build(inp, d).value.0)
      && pallets == Build(inp, d).value.1 && HasLegs(list.stops, inp.m.cell)
  {
    RuleDecides(inp, d);
    list, pallets := GrowRoute(inp, d, Rule(inp, d));
  }

  // ---------------------------------------------------------------------------
  // The candidate pool

  /** The store rows of one incidence column: 1 where the store is on the tour. */
  function Incidence(stores: seq<string>, tour: seq<string>): (r: seq<int>)
    ensures |r| == |stores|
    ensures forall k :: 0 <= k < |stores| ==> (r[k] == 1 <==> stores[k] in tour) && (r[k] == 0 <==> stores[k] !in tour)
  {
    seq(|stores|, k requires 0 <= k < |stores| => if stores[k] in tour then 1 else 0)
  }

  /** Cost of a primary-shift route: its duration in hours at $175 an hour. */
  function PrimaryCost(secs: int): real
  {
    (secs as real) / 3600.0 * HOURLY_RATE
  }

  /** Pool names, costs, store lists and incidence columns, in entry order. */
  datatype Pool = Pool(names: seq<string>, costs: seq<real>, stops: seq<seq<string>>, columns: seq<seq<int>>)

  /** routeName + str(i), with "b" appended for the second-shift variant. */
  function EntryName(routeName: string, i: nat, second: bool): string
  {
    routeName + NatToString(i) + (if second then "b" else "")
  }

  /** The primary and the second-shift entry of construction i appended to
      the pool: same tour, same incidence column, their own cost. */
  function AddPair(inp: Inputs, routeName: string, i: nat, built: (seq<string>, nat), p: Pool): Pool
  {
    var tour := Tour(inp.centre, built.0);
    var column := Incidence(inp.stores, tour);
    Pool(p.names + [EntryName(routeName, i, false), EntryName(routeName, i, true)],
         p.costs + [PrimaryCost(RouteSeconds(inp, built.0, built.1)), SECOND_SHIFT_COST],
         p.stops + [tour, tour],
         p.columns + [column, column])
  }

  predicate ValidDraws(inp: Inputs, draws: seq<Draw>)
  {
    forall i :: 0 <= i < |draws| ==> ValidDraw(inp, draws[i])
  }

  /** The result of every construction, in draw order. */
  function Builds(inp: Inputs, draws: seq<Draw>): (r: seq<Option<(seq<string>, nat)>>)
    requires ValidDraws(inp, draws)
    ensures |r| == |draws| && forall i :: 0 <= i < |draws| ==> r[i] == Build(inp, draws[i])
  {
    seq(|draws|, i requires 0 <= i < |draws| && ValidDraws(inp, draws) => Build(inp, draws[i]))
  }

  /** The pool registered from a sequence of construction results, or None
      once one of them failed. */
  function PoolFrom(inp: Inputs, routeName: string, built: seq<Option<(seq<string>, nat)>>): Option<Pool>
    decreases |built|
  {
    if built == [] then Some(Pool([], [], [], []))
    else
      var n := |built| - 1;
      match PoolFrom(inp, routeName, built[..n])
      case None => None
      case Some(p) =>
        match built[n]
        case None => None
        case Some(b) => Some(AddPair(inp, routeName, n, b, p))
  }

  /** One construction i of FindStoreSets: build the tour, measure it with
      RouteLength and register it under routeName+str(i) at its hourly cost
      and under routeName+str(i)+"b" at the second-shift cost, both with its
      incidence column; None when the construction fails. */
  method AddConstruction(inp: Inputs, routeName: string, i: nat, d: Draw, pool: Pool) returns (r: Option<Pool>)
    requires Valid(inp) && ValidDraw(inp, d)
    ensures r == match Build(inp, d)
      case None => None
      case Some(b) => Some(AddPair(inp, routeName, i, b, pool))
  {
    var list, totalPallets := BuildRoute(inp, d);
    if list == null {
      return None;
    }
    var tour := list.stops;
    var route := Incidence(inp.stores, tour);
    assert Extended(tour, None) == tour;
    var secs := RouteLength(list, inp.m.cell, totalPallets, None);
    ghost var b := Build(inp, d).value;
    assert secs == RouteSeconds(inp, b.0, b.1);
    assert EntryName(routeName, i, false) == routeName + NatToString(i);
    assert EntryName(routeName, i, true) == routeName + NatToString(i) + "b";
    r := Some(Pool(pool.names + [routeName + NatToString(i), routeName + NatToString(i) + "b"],
                   pool.costs + [PrimaryCost(secs), SECOND_SHIFT_COST],
                   pool.stops + [tour, tour],
                   pool.columns + [route, route]));
  }

  /** Registering one more construction result extends the pool by its pair. */
  lemma PoolStep(inp: Inputs, routeName: string, built: seq<Option<(seq<string>, nat)>>, i: nat)
    requires i < |built|
    ensures PoolFrom(inp, routeName, built[..i + 1]) ==
      match PoolFrom(inp, routeName, built[..i])
      case None => None
      case Some(p) =>
        match built[i]
        case None => None
        case Some(b) => Some(AddPair(inp, routeName, i, b, p))
  {
    assert built[..i + 1][..i] == built[..i];
  }

  /** FindStoreSets: 1000 constructions, each registered as a primary entry
      routeName+i and a second-shift entry routeName+i+"b". */
  method FindStoreSets(inp: Inputs, routeName: string, draws: seq<Draw>) returns (pool: Option<Pool>)
    requires Valid(inp) && |draws| == ITERATIONS && ValidDraws(inp, draws)
    ensures pool == PoolFrom(inp, routeName, Builds(inp, draws))
  {
    ghost var built := Builds(inp, draws);
    var acc := Pool([], [], [], []);
    var i := 0;
    while i < |draws|
      invariant 0 <= i <= |draws|
      invariant PoolFrom(inp, routeName, built[..i]) == Some(acc)
    {
      PoolStep(inp, routeName, built, i);
      var next := AddConstruction(inp, routeName, i, draws[i], acc);
      if next.None? {
        PoolFails(inp, routeName, built, i);
        return None;
      }
      acc := next.value;
      i := i + 1;
    }
    assert built[..|draws|] == built;
    pool := Some(acc);
  }

  /** A failed construction leaves no pool. */
  lemma {:induction false} PoolFails(inp: Inputs, routeName: string, built: seq<Option<(seq<string>, nat)>>, i: nat)
    requires i < |built| && built[i].None?
    ensures PoolFrom(inp, routeName, built) == None
    decreases |built|
  {
    var n := |built| - 1;
    if i < n {
      assert built[..n][i] == built[i];
      PoolFails(inp, routeName, built[..n], i);
    }
  }

  /** The pool exists exactly when every construction succeeds. */
  lemma {:induction false} PoolExists(inp: Inputs, routeName: string, built: seq<Option<(seq<string>, nat)>>)
    ensures PoolFrom(inp, routeName, built).Some? <==> forall i :: 0 <= i < |built| ==> built[i].Some?
    decreases |built|
  {
    if built != [] {
      var n := |built| - 1;
      PoolExists(inp, routeName, built[..n]);
      if exists i :: 0 <= i < |built| && built[i].None? {
        var i :| 0 <= i < |built| && built[i].None?;
        PoolFails(inp, routeName, built, i);
      } else {
        assert forall i :: 0 <= i < n ==> built[..n][i] == built[i];
      }
    }
  }

  /** Every construction adds two entries to each of the pool's lists. */
  lemma {:induction false} PoolSizes(inp: Inputs, routeName: string, built: seq<Option<(seq<string>, nat)>>)
    requires PoolFrom(inp, routeName, built).Some?
    ensures var p := PoolFrom(inp, routeName, built).value;
      |p.names| == |p.costs| == |p.stops| == |p.columns| == 2 * |built|
    decreases |built|
  {
    if built != [] {
      PoolSizes(inp, routeName, built[..|built| - 1]);
    }
  }

  /** Entry k of the pool is named after construction k / 2, with "b" on the
      odd (second-shift) entries. */
  lemma {:induction false} PoolNames(inp: Inputs, routeName: string, built: seq<Option<(seq<string>, nat)>>)
    requires PoolFrom(inp, routeName, built).Some?
    ensures var p := PoolFrom(inp, routeName, built).value;
      && |p.names| == 2 * |built|
      && forall k :: 0 <= k < |p.names| ==> p.names[k] == EntryName(routeName, k / 2, k % 2 == 1)
    decreases |built|
  {
    PoolSizes(inp, routeName, built);
    if built != [] {
      var n := |built| - 1;
      PoolNames(inp, routeName, built[..n]);
      var q := PoolFrom(inp, routeName, built[..n]).value;
      var p := PoolFrom(inp, routeName, built).value;
      assert p.names == q.names + [EntryName(routeName, n, false), EntryName(routeName, n, true)];
      forall k | 0 <= k < |p.names| ensures p.names[k] == EntryName(routeName, k / 2, k % 2 == 1) {
        if k < 2 * n {
          assert p.names[k] == q.names[k];
        } else if k == 2 * n {
          assert k / 2 == n && k % 2 == 0;
        } else {
          assert k == 2 * n + 1 && k / 2 == n && k % 2 == 1;
        }
      }
    }
  }

  /** Entries 2i and 2i+1 of the pool come from construction i. */
  lemma {:induction false} PoolEntry(inp: Inputs, routeName: string, built: seq<Option<(seq<string>, nat)>>, i: nat)
    requires PoolFrom(inp, routeName, built).Some? && i < |built|
    ensures var p := PoolFrom(inp, routeName, built).value;
      && |p.costs| == |p.stops| == |p.columns| == 2 * |built|
      && built[i].Some?
      && var (mids, pallets) := built[i].value;
         var tour := Tour(inp.centre, mids);
         && p.stops[2 * i] == tour && p.stops[2 * i + 1] == tour
         && p.columns[2 * i] == Incidence(inp.stores, tour) && p.columns[2 * i + 1] == Incidence(inp.stores, tour)
         && p.costs[2 * i] == PrimaryCost(RouteSeconds(inp, mids, pallets))
         && p.costs[2 * i + 1] == SECOND_SHIFT_COST
    decreases |built|
  {
    PoolSizes(inp, routeName, built);
    var n := |built| - 1;
    if i < n {
      PoolEntry(inp, routeName, built[..n], i);
      assert built[..n][i] == built[i];
      var q := PoolFrom(inp, routeName, built[..n]).value;
      var p := PoolFrom(inp, routeName, built).value;
      assert p == AddPair(inp, routeName, n, built[n].value, q);
      assert p.stops[2 * i] == q.stops[2 * i] && p.stops[2 * i + 1] == q.stops[2 * i + 1];
      assert p.columns[2 * i] == q.columns[2 * i] && p.columns[2 * i + 1] == q.columns[2 * i + 1];
      assert p.costs[2 * i] == q.costs[2 * i] && p.costs[2 * i + 1] == q.costs[2 * i + 1];
    }
  }

  /** Every pool entry of construction i: a tour from the centre through the
      seed store and at most numStore distinct stores; the primary entry costs
      the tour's hours at $175, with 600 s per pallet of the stores' total
      demand; the second-shift entry costs $1500; and, the centre not being
      one of the stores, the column marks exactly the stores on the tour. */
  lemma PoolEntryProps(inp: Inputs, routeName: string, draws: seq<Draw>, i: nat)
    requires Valid(inp) && ValidDraws(inp, draws) && i < |draws|
    requires PoolFrom(inp, routeName, Builds(inp, draws)).Some?
    ensures var p := PoolFrom(inp, routeName, Builds(inp, draws)).value;
      && |p.names| == |p.stops| == |p.columns| == |p.costs| == 2 * |draws|
      && var tour := p.stops[2 * i]; var mids := Mids(tour);
         && |p.columns[2 * i]| == |inp.stores|
         && |tour| >= 3 && tour[0] == inp.centre && tour[|tour| - 1] == inp.centre
         && p.stops[2 * i + 1] == tour && p.columns[2 * i + 1] == p.columns[2 * i]
         && mids[0] == inp.stores[draws[i].seed] && |mids| <= draws[i].maxStops && Distinct(mids)
         && AllRows(inp.m, mids) && Covered(mids, inp.demand)
         && (|mids| > 1 ==> PalletSum(mids, inp.demand) <= CAPACITY)
         && p.costs[2 * i] == PrimaryCost(RouteSeconds(inp, mids, PalletSum(mids, inp.demand)))
         && p.costs[2 * i + 1] == SECOND_SHIFT_COST
         && (inp.centre !in inp.stores ==>
               forall k :: 0 <= k < |inp.stores| ==> (p.columns[2 * i][k] == 1 <==> inp.stores[k] in mids))
  {
    PoolSizes(inp, routeName, Builds(inp, draws));
    PoolEntry(inp, routeName, Builds(inp, draws), i);
    BuildProps(inp, draws[i]);
    var (mids, pallets) := Build(inp, draws[i]).value;
    MidsOfTour(inp.centre, mids);
  }

  /** Different (construction, shift) pairs get different names. */
  lemma EntryNamesDistinct(routeName: string, i: nat, a: bool, j: nat, b: bool)
    requires i != j || a != b
    ensures EntryName(routeName, i, a) != EntryName(routeName, j, b)
  {
    var si, sj := NatToString(i), NatToString(j);
    var na, nb := EntryName(routeName, i, a), EntryName(routeName, j, b);
    if a == b {
      if na == nb {
        var ta, tb := na[|routeName|..], nb[|routeName|..];
        if a {
          assert ta == si + "b" && tb == sj + "b";
          assert ta[..|ta| - 1] == si && tb[..|tb| - 1] == sj;
        } else {
          assert ta == si && tb == sj;
        }
        NatToStringInjective(i, j);
      }
    } else if a {
      assert na[|na| - 1] == 'b';
      assert nb[|nb| - 1] == sj[|sj| - 1];
    } else {
      assert nb[|nb| - 1] == 'b';
      assert na[|na| - 1] == si[|si| - 1];
    }
  }

  /** The pool's names are pairwise distinct. */
  lemma PoolNamesDistinct(inp: Inputs, routeName: string, built: seq<Option<(seq<string>, nat)>>)
    requires PoolFrom(inp, routeName, built).Some?
    ensures Distinct(PoolFrom(inp, routeName, built).value.names)
  {
    var names := PoolFrom(inp, routeName, built).value.names;
    PoolNames(inp, routeName, built);
    forall x, y | 0 <= x < y < |names| ensures names[x] != names[y] {
      EntryNamesDistinct(routeName, x / 2, x % 2 == 1, y / 2, y % 2 == 1);
    }
  }

  // ---------------------------------------------------------------------------
  // Chosen routes

  /** A solver variable: its name ("Choose_" + the pool name) and whether its
      value is 1. */
  datatype Variable = Variable(name: string, chosen: bool)

  /** v.name[7:], the pool name behind a variable. */
  function RouteNameOf(v: Variable): string
  {
    if |v.name| >= VAR_PREFIX_LENGTH then v.name[VAR_PREFIX_LENGTH..] else ""
  }

  /** The chosen variables, in variable order. */
  function Chosen(vars: seq<Variable>): (r: seq<Variable>)
    ensures forall v :: v in r <==> v in vars && v.chosen
    ensures |r| <= |vars|
    decreases |vars|
  {
    if vars == [] then []
    else
      var rest := Chosen(vars[..|vars| - 1]);
      if vars[|vars| - 1].chosen then rest + [vars[|vars| - 1]] else rest
  }

  /** The stores whose entry in an incidence column is non-zero, in row order. */
  function NonZeroStores(rowLabels: seq<string>, column: seq<int>): seq<string>
    requires |column| == |rowLabels|
    decreases |rowLabels|
  {
    if rowLabels == [] then []
    else
      var n := |rowLabels| - 1;
      var rest := NonZeroStores(rowLabels[..n], column[..n]);
      if column[n] != 0 then rest + [rowLabels[n]] else rest
  }

  /** A store is listed exactly when some row with its label is marked. */
  lemma {:induction false} NonZeroStoresMarked(rowLabels: seq<string>, column: seq<int>)
    requires |column| == |rowLabels|
    ensures forall x :: x in NonZeroStores(rowLabels, column) <==>
      exists k :: 0 <= k < |rowLabels| && rowLabels[k] == x && column[k] != 0
    decreases |rowLabels|
  {
    if rowLabels != [] {
      var n := |rowLabels| - 1;
      NonZeroStoresMarked(rowLabels[..n], column[..n]);
      assert forall k :: 0 <= k < n ==> rowLabels[..n][k] == rowLabels[k] && column[..n][k] == column[k];
    }
  }

  predicate ColumnsFor(vars: seq<Variable>, rowLabels: seq<string>, columns: map<string, seq<int>>)
  {
    forall v :: v in vars && v.chosen ==> RouteNameOf(v) in columns && |columns[RouteNameOf(v)]| == |rowLabels|
  }

  /** getOptimalRoutes: for every chosen variable, in order, the stores its
      route's incidence column marks. */
  method GetOptimalRoutes(vars: seq<Variable>, rowLabels: seq<string>, columns: map<string, seq<int>>)
    returns (routes: seq<seq<string>>)
    requires ColumnsFor(vars, rowLabels, columns)
    ensures |routes| == |Chosen(vars)|
    ensures forall j :: 0 <= j < |routes| ==>
      routes[j] == NonZeroStores(rowLabels, columns[RouteNameOf(Chosen(vars)[j])])
  {
    routes := [];
    for i := 0 to |vars|
      invariant |routes| == |Chosen(vars[..i])|
      invariant forall j :: 0 <= j < |routes| ==>
        Chosen(vars[..i])[j] in vars && Chosen(vars[..i])[j].chosen &&
        routes[j] == NonZeroStores(rowLabels, columns[RouteNameOf(Chosen(vars[..i])[j])])
    {
      assert vars[..i + 1][..i] == vars[..i];
      var v := vars[i];
      if v.chosen {
        var route := NonZeroStores(rowLabels, columns[RouteNameOf(v)]);
        routes := routes + [route];
      }
    }
    assert vars[..|vars|] == vars;
  }

  /** The loop of getOptimalRouteNamesandStores: the chosen variables' names
      and, alongside, the store lists of the pool routes they name. */
  method ChosenNamesAndStores(vars: seq<Variable>, storeRoutes: map<string, seq<string>>)
    returns (names: seq<string>, routes: seq<seq<string>>)
    requires forall v :: v in vars && v.chosen ==> RouteNameOf(v) in storeRoutes
    ensures |names| == |routes| == |Chosen(vars)|
    ensures forall j :: 0 <= j < |names| ==>
      names[j] == Chosen(vars)[j].name && routes[j] == storeRoutes[RouteNameOf(Chosen(vars)[j])]
  {
    names := [];
    routes := [];
    for i := 0 to |vars|
      invariant |names| == |routes| == |Chosen(vars[..i])|
      invariant forall j :: 0 <= j < |names| ==>
        Chosen(vars[..i])[j] in vars && Chosen(vars[..i])[j].chosen &&
        names[j] == Chosen(vars[..i])[j].name && routes[j] == storeRoutes[RouteNameOf(Chosen(vars[..i])[j])]
    {
      assert vars[..i + 1][..i] == vars[..i];
      var v := vars[i];
      if v.chosen {
        names := names + [v.name];
        routes := routes + [storeRoutes[RouteNameOf(v)]];
      }
    }
    assert vars[..|vars|] == vars;
  }

  /** getOptimalRouteNamesandStores: the chosen variables' names, in order,
      each with the store list of the pool route it names. */
  method GetOptimalRouteNamesAndStores(vars: seq<Variable>, storeRoutes: map<string, seq<string>>)
    returns (schedule: seq<Route>)
    requires forall v :: v in vars && v.chosen ==> RouteNameOf(v) in storeRoutes
    ensures |schedule| == |Chosen(vars)|
    ensures forall j :: 0 <= j < |schedule| ==>
      schedule[j] == Route(Chosen(vars)[j].name, storeRoutes[RouteNameOf(Chosen(vars)[j])])
  {
    var names, routes := ChosenNamesAndStores(vars, storeRoutes);
    schedule := seq(|names|, j requires 0 <= j < |names| => Route(names[j], routes[j]));
  }
}
