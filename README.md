# Warehouse routing: candidate routes and Monte Carlo evaluation

This project models the two computational parts of a truck-routing study for
a chain of Warehouse and Noel Leeming stores served from two distribution
centres. Both parts are written in Dafny and their properties are proved.

- **Candidate-route construction** (`Routes.py`, module `Routes` in
  `routes.dfy`). This part covers:
  - the travel-time table restricted to one depot's locations;
  - the North/South split of locations;
  - `RouteLength`, which temporarily inserts a store into the caller's list
    and deletes it again;
  - the randomised greedy nearest-neighbour builder;
  - the pool of primary and second-shift (`'b'`) candidates handed to the
    set-partitioning solver;
  - reading the solver's chosen routes back out.

  `StopList` is a class over the stop list that `RouteLength` and the
  builder change in place.
- **Schedule evaluation** (`simulation.py`, module `Simulation` in
  `simulation.dfy`). This part covers:
  - bootstrap demand samples chosen by store name;
  - traffic delays;
  - route demands per simulation;
  - the capacity repair that pops stores off the end of an over-full route
    into dedicated left-out trips;
  - route and trip hours, and the truck count;
  - the piecewise hourly cost;
  - the `runSimulation` pipeline that chains these steps.

`common.dfy` (module `Common`) holds what both parts share: routes as stop
lists, leg sums over a travel table, pallet sums, list-edit helpers and the
decimal spelling of route numbers.

A few representation choices hold throughout:

- Every random draw is a parameter:
  - `Draw` gives the seed index, `numStore` and the 0..2 picks;
  - `Indices` gives the bootstrap pool indices;
  - the delay offsets are passed as a sequence.
- Travel times are integer seconds. Hours and dollars are `real`. Pallets are
  `nat`, and a route demand that the repair decrements is `int`.
- Each per-simulation table is indexed `[simulation][route]`.
- A Python dictionary built by `dict(zip(...))` is a list of entries in
  insertion order.

## Model

| member | source | states |
|---|---|---|
| Common.DropInsert | Routes.py:142-151 | deleting the second-to-last stop undoes inserting a store before the final centre |
| Common.HasLegsPairs | Routes.py:145-146 | a stop list has legs in the table exactly when every consecutive pair has a travel time |
| Common.LegsSnoc | Routes.py:145-146 | appending a stop adds exactly the travel time of the leg into it |
| Common.KeepDistinct | Routes.py:111-118 | filtering a label list keeps it free of repeats |
| Common.NatToStringInjective | Routes.py:218 | `str(i)` of different iteration numbers differ |
| Routes.DropColumns | Routes.py:111-113 | keeps exactly the columns whose labels are in the set, in order, with cells unchanged |
| Routes.DropRows | Routes.py:116-118 | keeps exactly the rows whose labels are in the set, in order, with cells unchanged |
| Routes.GetTravelTimes | Routes.py:86-120 | result is the restriction of the matrix to the label set |
| Routes.RestrictionWellFormed | Routes.py:108-120 | the restriction of a well-formed matrix is well-formed |
| Routes.BothCentresOpen | Routes.py:31-45 | South and North are the rows that meet each side's rule, in input order |
| Routes.SideMembers | Routes.py:36-41 | a name is on a side iff some row with that name meets the rule (d0<d1 and d0≠0 for South, d0>d1 and d1≠0 for North) |
| Routes.SidesDisjoint | Routes.py:37-40 | no location is on both sides |
| Routes.TiesAndCentresExcluded | Routes.py:37-40 | a tie or a zero distance (a centre itself) puts the row on neither side |
| Routes.CandidatesMembers | Routes.py:197 | the ranking pool is every row except the current store and the centre, so already visited stores stay in it |
| Routes.SortPermutes | Routes.py:197 | sorting by travel time is a permutation |
| Routes.SortAscending | Routes.py:197 | sorting orders by the (candidate, current) travel time |
| Routes.RankedMembers | Routes.py:197 | membership of the ranking |
| Routes.RankedAscending | Routes.py:197 | the ranking is a sorted permutation of the pool |
| Routes.TourLegs | Routes.py:145-146 | every tour through known locations has all its legs in a complete table |
| Routes.Drawn | Routes.py:198 | the drawn candidate is a known location other than the centre and the current store |
| Routes.TakeFacts | Routes.py:194-205 | an accepted candidate passed the loop guard and every test of line 201-202: not on the route, duration with the pallets so far within 14400 s, pallets within 20 |
| Routes.DecidesStop | Routes.py:194 | a route over the duty limit stops growing |
| Routes.Run | Routes.py:193-209 | construction only extends the route and respects the stop limit |
| Routes.HaltedStop | Routes.py:194-209 | construction halts exactly when the guard fails or the drawn candidate is refused |
| Routes.TrailRun | Routes.py:186-209 | running from any visited state gives the same result as from the seed |
| Routes.RunTrail | Routes.py:186-209 | the finished route was reached by accepted steps, its pallets are its stores' total, and it stopped at the limit or on a refusal |
| Routes.TrailSteps | Routes.py:201-205 | every store after the seed was the accepted candidate of the state before it |
| Routes.TrailDistinct | Routes.py:201 | the stores of a route are distinct and no later one is the centre |
| Routes.TrailRows | Routes.py:197-204 | every store of a route has a travel row and a demand estimate |
| Routes.TrailCapacity | Routes.py:202-204 | a route of two or more stores carries at most 20 pallets |
| Routes.RuleFacts | Routes.py:197-204 | the builder only ever accepts known, unvisited, non-centre stores within capacity |
| Routes.BuildProps | Routes.py:186-209 | a built route starts at the seed, has between 1 and numStore distinct non-centre stores, carries its stores' total, is within 20 pallets unless it is the seed alone, and halted as the loop does |
| Routes.StopList.constructor | Routes.py:187 | the list starts as the given stops |
| Routes.StopList.Insert | Routes.py:143 | `insert(-1, x)` puts x just before the last stop |
| Routes.StopList.Delete | Routes.py:151 | `del stores[-2]` removes the second-to-last stop |
| Routes.InsertIntoTour | Routes.py:203 | inserting before the final centre extends the stores of the tour |
| Routes.RouteLength | Routes.py:122-153 | the leg sum of the list (with nextStore inserted before its last stop when given) plus 600 s per pallet, with the caller's list as it was |
| Routes.Attempt | Routes.py:196-209 | one pass on the stop list and its accumulators does what the reference step decides |
| Routes.GrowingStep | Routes.py:194-209 | the state after a pass still leads to the reference result |
| Routes.MeasureTour | Routes.py:194 | the loop guard's duration of the current tour |
| Routes.Step | Routes.py:194-209 | a pass plus the guard's re-measurement keeps the loop in step with the reference |
| Routes.GrowRoute | Routes.py:185-209 | the while loop builds exactly the reference route from the seed, or reports the IndexError |
| Routes.BuildRoute | Routes.py:185-209 | one construction: the tour centre, stores, centre and its pallets, or failure |
| Routes.AddConstruction | Routes.py:213-229 | one iteration of the outer loop appends its two pool entries, or fails |
| Routes.PoolStep | Routes.py:213-229 | the pool after one more iteration |
| Routes.FindStoreSets | Routes.py:155-234 | the 1000-iteration loop builds exactly the reference pool of the draws |
| Routes.PoolFails | Routes.py:198 | one failing construction aborts the whole call |
| Routes.PoolExists | Routes.py:198 | a pool exists iff every construction succeeds |
| Routes.PoolSizes | Routes.py:216-232 | names, costs, stop lists and columns all have 2n entries |
| Routes.PoolNames | Routes.py:218-227 | entry 2i is named routeName+str(i) and entry 2i+1 routeName+str(i)+"b" |
| Routes.PoolEntry | Routes.py:213-229 | both entries of iteration i share its tour and its incidence column, cost RouteLength/3600×175 and 1500 |
| Routes.PoolEntryProps | Routes.py:186-229 | every pool entry is a centre-to-centre tour through the seed with at most numStore distinct stores, within 20 pallets when it has two or more stores, costed as above, whose column marks exactly its stores |
| Routes.EntryNamesDistinct | Routes.py:218-227 | different (iteration, shift) pairs get different names |
| Routes.PoolNamesDistinct | Routes.py:231-232 | the pool's names are pairwise distinct |
| Routes.Chosen | Routes.py:256-259 | the chosen variables, in variable order |
| Routes.NonZeroStoresMarked | Routes.py:265-266 | a store is listed iff its row in the column is non-zero |
| Routes.GetOptimalRoutes | Routes.py:236-271 | for each chosen variable, in order, the stores its column marks, in row order |
| Routes.ChosenNamesAndStores | Routes.py:290-298 | the chosen variables' names and the stop lists of `name[7:]` |
| Routes.GetOptimalRouteNamesAndStores | Routes.py:274-309 | the chosen routes, in variable order, each with its name and stored stop list |
| Simulation.WeekdayColumns | simulation.py:38 | the weekday columns are days 0..4 of each of four weeks |
| Simulation.WeekendColumns | simulation.py:42 | the weekend columns are days 5 and 6 of each of four weeks |
| Simulation.DayColumnsDisjoint | simulation.py:37-44 | neither column set repeats, and no column is in both |
| Simulation.DayColumnsCover | simulation.py:37-44 | together the two sets are exactly the columns 0..27 |
| Simulation.DayColumns | simulation.py:37-44 | every selected column exists in the 28-column table |
| Simulation.FlattenSize | simulation.py:39-44 | the flattened pool has rows × columns values |
| Simulation.FlattenIndex | simulation.py:39-44 | flattened value r·|cols|+j is row r's cell in column cols[j] |
| Simulation.GetSimulatedDemands | simulation.py:11-69 | every store, and only they, gets n values, sampled by its name's rule from rows 0..19 (Noel Leeming) or 20.. (Warehouse) |
| Simulation.SampleStore | simulation.py:48-63 | Grouped sums two Noel Leeming draws, "Noel" one Noel Leeming draw, "The" one Warehouse draw, anything else a Warehouse plus a Noel Leeming draw |
| Simulation.SimulatedTime | simulation.py:94-99 | n delays in [20, 60) on weekdays and [20, 40) at weekends |
| Simulation.RouteDemand | simulation.py:120-123 | a route's demand is the total over `stores[1:-1]` |
| Simulation.CalculateDemand | simulation.py:101-127 | the demand of every route, in route order |
| Simulation.SimulateDemand | simulation.py:129-158 | for every simulation and route, the total of that simulation's demands over the route's stores |
| Simulation.PalletSumAppend | simulation.py:121-122 | demand adds up over a split of the stores |
| Simulation.TourDemand | simulation.py:121-122 | the demand of a tour excludes the centre at both ends |
| Simulation.PeelStep | simulation.py:206-210 | an over-full peelable route has a store to pop and stays peelable after the pop |
| Simulation.PeelFromStep | simulation.py:206-210 | one pass of the peel loop preserves what remains to be done |
| Simulation.MidsDrop | simulation.py:207 | `pop(-2)` takes the last store off the route |
| Simulation.PeelRoute | simulation.py:202-210 | the while loop on the copied list keeps both centres and computes exactly the reference peel |
| Simulation.MidsSplit | simulation.py:202-207 | a route is its centre, its stores and its final centre |
| Simulation.PeelDemand | simulation.py:204-210 | the peel pops at least one store, ends within 20 pallets and conserves demand |
| Simulation.PeelLastNeeded | simulation.py:209-210 | the last pop was needed: without it the route would still be over 20 |
| Simulation.PeelStopsFirst | simulation.py:206-210 | before every earlier pop the route was still over capacity |
| Simulation.PeelShape | simulation.py:207 | the peel pops from the end, last store first, and keeps a prefix of the stores |
| Simulation.PeelPopsStores | simulation.py:207 | only stores of the route are popped |
| Simulation.PeelAll | simulation.py:206-210 | a route peeled of every store keeps no store, with its demand minus all its stores' demands |
| Simulation.ReverseSum | simulation.py:208 | demand does not depend on store order |
| Simulation.CountOverBound | simulation.py:199-220 | at most every route is adjusted, and none iff every route is within 20 |
| Simulation.AdjustedFacts | simulation.py:199-217 | an adjusted route is within 20, keeps its ends, loses stores only when over 20 and then at least one, drops only stores of the route, and its old demand is its new one plus the popped stores' |
| Simulation.PeelConsistent | simulation.py:202-210 | a demand that is the stores' total stays the kept stores' total |
| Simulation.AdjustedConsistent | simulation.py:202-210 | a route whose demand is its stores' total can always be peeled, ending at worst as centre, centre with demand 0 |
| Simulation.RemovedCount | simulation.py:199-207 | at least one removed pair per adjusted route, and none iff no route was adjusted |
| Simulation.PoppedNonEmpty | simulation.py:199-207 | a route loses a store iff it is over 20 |
| Simulation.RemovedFromRoutes | simulation.py:207 | every removed pair is a route's first stop with one of that route's stores |
| Simulation.AdjustRoute | simulation.py:196-217 | one route of the inner loop: its adjusted stops, demand and removed pairs |
| Simulation.RemovedStep | simulation.py:196-207 | removed pairs and count after one more route |
| Simulation.RoutesAdjustedStep | simulation.py:216-217 | the adjusted lists after one more route |
| Simulation.AdjustSimulation | simulation.py:188-220 | one simulation's loop over routes gives the reference adjusted routes, demands, removed pairs and count |
| Simulation.Keys | simulation.py:226 | the dictionary's keys in insertion order |
| Simulation.PutKeys | simulation.py:226 | `d[k] = v` keeps a present key in place and appends a new one |
| Simulation.PutEntries | simulation.py:226 | after `d[k] = v`, k maps to v and every other key keeps its value |
| Simulation.Dedup | simulation.py:226 | each pair once, at its first occurrence, with the same elements |
| Simulation.ZipDictFacts | simulation.py:226 | `dict(zip)` has the keys once in first-seen order, and values that are a function of the key stay so |
| Simulation.LeftOutFacts | simulation.py:222-226 | the left-out dictionary holds each removed pair once with its store's demand |
| Simulation.RemovedDemands | simulation.py:223-225 | the loop that looks up every removed store's demand |
| Simulation.ColumnCovers | simulation.py:208 | every route store has a demand in every simulation |
| Simulation.RemovedCovered | simulation.py:208-225 | every removed store has a demand to look up |
| Simulation.AdjustedStores | simulation.py:217 | one adjusted stop list per route |
| Simulation.AdjustedDemands | simulation.py:216 | one adjusted demand per route |
| Simulation.AdjustColumn | simulation.py:188-226 | one simulation: adjusted routes, demands, left-out dictionary and count |
| Simulation.AdjustedUpToStep | simulation.py:229-236 | the tables after one more simulation |
| Simulation.AdjustRoutes | simulation.py:160-245 | for every simulation, the reference adjusted routes, demands, left-out dictionary and count of over-full routes |
| Simulation.TripHoursClosedForm | simulation.py:314-324 | the delay scales travel by (60+extra)/60 and each pallet adds a sixth of an hour |
| Simulation.TripHoursMonotone | simulation.py:314-324 | more travel, delay or pallets never shorten a trip |
| Simulation.TravelSeconds | simulation.py:314-315 | the leg sum of an adjusted route |
| Simulation.RouteHoursOf | simulation.py:306-324 | one hours value per adjusted route |
| Simulation.LeftOutHoursOf | simulation.py:329-355 | one hours value per left-out store, under its key |
| Simulation.DoubleTripsBound | simulation.py:344-345 | at most one extra truck per left-out store |
| Simulation.TrucksBounds | simulation.py:303-358 | trucks are at least the routes, at most routes plus two per left-out store, and equal the routes iff nothing was left out |
| Simulation.LeftOutDoubled | simulation.py:343-352 | a store over 20 pallets doubles its travel and delay but not its handling time |
| Simulation.RouteTimes | simulation.py:306-324 | the hours of every route of one simulation |
| Simulation.LeftOutTrip | simulation.py:329-355 | one dedicated centre–store–centre trip: its hours and its one or two trucks |
| Simulation.LeftOutTimes | simulation.py:327-355 | the hours of every left-out trip and the trucks they add |
| Simulation.TimeColumn | simulation.py:301-358 | one simulation's route hours, trip hours and trucks |
| Simulation.CalculateTime | simulation.py:247-360 | for every simulation, the reference route hours, trip hours and truck count |
| Simulation.TripCostSlope | simulation.py:417-422 | the tariff is 700 at 4 h, continuous there, and grows between 175 and 250 per hour, so never decreases |
| Simulation.TripCostBounds | simulation.py:417-422 | a trip costs between 175 and 250 times its hours |
| Simulation.RoutesCostBounds | simulation.py:415-422 | a schedule's route cost lies between 175 and 250 times its total hours |
| Simulation.RoutesCostMonotone | simulation.py:415-422 | longer routes never make a simulation cheaper |
| Simulation.RoutesCostLoop | simulation.py:415-422 | the loop over routes adds each route's tariff |
| Simulation.TripsCostLoop | simulation.py:425-436 | the loop over left-out trips adds each trip's tariff |
| Simulation.CalculateCost | simulation.py:362-440 | for every simulation, its routes' plus its trips' cost |
| Simulation.AdjustedWithin | simulation.py:202-217 | an adjusted route visits only locations of the original route |
| Simulation.ColumnConsistent | simulation.py:552-555 | the simulated route demands can always be repaired, and every repaired demand is a pallet count |
| Simulation.ColumnTravel | simulation.py:555-559 | every adjusted route and every left-out trip has its legs in the travel table |
| Simulation.ColumnTrucks | simulation.py:555-559 | a simulation uses more trucks than routes iff it adjusted a route |
| Simulation.TripHoursNonNegative | simulation.py:314-324 | no trip takes negative time |
| Simulation.RoutesCostNonNegative | simulation.py:415-422 | route costs are non-negative |
| Simulation.TripsCostNonNegative | simulation.py:425-436 | trip costs are non-negative |
| Simulation.ColumnCost | simulation.py:555-563 | a simulation over non-negative travel times never costs less than zero |
| Simulation.RunSimulation | simulation.py:552-566 | the pipeline yields n costs, truck counts and repair counts; each repair count is at most the number of routes, each truck count at least that number, with equality iff no route was repaired; costs are non-negative when travel times are |

## Left out

- File and CSV reading is not modelled. The demand table, the distance rows
  and the travel matrix are inputs. `DemandData` is CSV loading with a pandas
  join and is not part of this model.
- Plotting, file saving, console output (the `print(stores)` in
  `getOptimalRoutes`, Routes.py:261) and the two-sample t-test are not modelled.
  `runSimulation` returns the costs; the model also returns the truck and
  repair counts that it plots.
- The pseudo-random generators (`random.seed(80)`, `random.randint`,
  `np.random.randint`) are not modelled. Their draws are parameters that
  satisfy the draws' range bounds. An empty bootstrap pool, for example a
  Warehouse pool from a table of 20 or fewer rows, makes `np.random.randint`
  raise ValueError in the source (simulation.py:57-61); `ValidIndices` cannot
  hold then, so that case is excluded.
- Floating point is modelled as exact `real` arithmetic. `isclose(v.varValue, 1)`
  becomes a boolean `chosen` on each solver variable.
- The PuLP solver and its constraints are not modelled. Its selection is an input.
- Pandas index layout is not modelled. A travel lookup or demand lookup with a
  missing key raises KeyError in the source; here it becomes a precondition
  that the key is present.
- Duplicate store names are excluded. `GetSimulatedDemands` requires distinct
  store names; the source keys a DataFrame by them.
- In `runSimulation`, `storeSeries` must hold every store visited by a route
  (`RunSimulation` requires it). With a missing store, the source raises
  KeyError in `simulateDemand`.
- `AdjustRoutes`, `SimulateDemand` and `RunSimulation` require n ≥ 1. For
  n = 0 the source fails: `simulateDemand` returns `simulateRouteDemand`,
  which is only assigned inside its loop (UnboundLocalError at
  simulation.py:158), and `adjustRoutes` creates its result tables in the
  first simulation.
- The peel loop crashes on some routes, and those are excluded.
  `AdjustRoutes` requires every route to be `Peelable`: when it is over 20
  pallets, popping all its stores brings it within 20. Otherwise, once the
  stores are gone, the pop at simulation.py:207 takes the first centre and
  the demand lookup at simulation.py:208 raises KeyError, because the
  simulated demands are keyed by stores only.
  - Demands computed by `simulateDemand` always meet this requirement
    (`AdjustedConsistent`).
  - `Peel`'s branch for an empty store list cannot be reached under it.
- `AdjustRoute` tags popped stores with the route's first stop after the peel
  loop, not inside it. The first stop never changes, so the pairs are the same.
- Routes.StopList: `RouteLength` mutates and restores the caller's list.
  That is modelled on one `StopList` object. Aliasing between several
  candidate lists is not modelled; each pool entry stores a value copy.
- `calculateTime` copies `leftOutStores` shallowly, so the dictionaries are
  shared (simulation.py:298, 355). When it writes trip hours it overwrites
  the left-out demands in place. The model returns the trip hours as fresh
  lists and says nothing about the input dictionaries afterwards. Each demand
  is read before it is overwritten, so the hours are unaffected.
- Routes.SortByKey: the model sorts by a stable insertion sort. pandas'
  `sort_values` may order equal travel times differently, so the pick among
  ties is not modelled.
- Routes.BuildProps: proves no duration bound on a finished route. The
  acceptance test at Routes.py:201 prices the extended route with the pallets
  from before the insertion, so a finished route can exceed 14400 s.
- Routes.BuildProps: states the 20-pallet bound only for routes with two or
  more stores, and so does Routes.PoolEntryProps for pool entries. The seed
  store's own demand is never compared with 20 (Routes.py:189).
- Simulation.RunSimulation: does not tie each cost to a closed-form
  function of the inputs. The simulated demand table is fixed only through
  `GetSimulatedDemands`' postconditions. The per-step methods state the exact
  values.

Some behaviours of the code are easy to misread; the model follows the code:

- Ranking keeps visited stores. The ranking drops only the current store and
  the centre, so a visited store can be drawn, and drawing it stops
  construction (Routes.py:197-201).
- Seeds may repeat. Every iteration draws its seed from all stores
  (Routes.py:186), so two candidates can start from the same store.
- The Grouped demand is two Noel Leeming draws. The store named
  "Noel Leeming Grouped Stores" sums two Noel Leeming draws, not one draw from
  each brand. Other names outside both brands sum a Warehouse and a Noel
  Leeming draw (simulation.py:49-63).
- A left-out store can take two trucks. The docstring of `calculateTime`
  says each left-out store gets one truck (simulation.py:276). The code adds
  a second truck above 20 pallets (simulation.py:343-345), and `TrucksBounds`
  follows the code.
- Doubling a left-out trip doubles only its travel and traffic delay. The
  handling time is counted once (simulation.py:343-352).
- Peeling can empty a route. A route may lose every store and become
  centre, centre with demand 0, and it still counts as one truck
  (simulation.py:206-210, 306-311).
