/** Vocabulary shared by route construction and simulation: routes as lists of
    location names, travel-time lookups in seconds, pallet sums and the
    decimal spelling of route numbers. */
module Common {

  datatype Option<T> = None | Some(value: T)

  /** Travel time in seconds from the first location of the pair to the second. */
  type Travel = map<(string, string), int>

  /** A named route; its stops start and end at a distribution centre. */
  datatype Route = Route(name: string, stops: seq<string>)

  predicate Distinct<T(==)>(s: seq<T>)
  {
    forall j, k :: 0 <= j < k < |s| ==> s[j] != s[k]
  }

  /** A non-empty sequence is its front followed by its last element. */
  lemma InitLast<T>(s: seq<T>)
    requires |s| >= 1
    ensures s[..|s| - 1] + [s[|s| - 1]] == s
  {
  }

  /** The front of s + [x] is s. */
  lemma SnocInit<T>(s: seq<T>, x: T)
    ensures (s + [x])[..|s|] == s && (s + [x])[|s|] == x
  {
  }

  /** The tour [centre] + mids + [centre]. */
  function Tour(centre: string, mids: seq<string>): seq<string>
  {
    [centre] + mids + [centre]
  }

  /** The stops strictly between the first and the last one (Python's stops[1:-1]). */
  function Mids(stops: seq<string>): seq<string>
  {
    if |stops| >= 2 then stops[1..|stops| - 1] else []
  }

  lemma MidsOfTour(centre: string, mids: seq<string>)
    ensures Mids(Tour(centre, mids)) == mids
  {
    assert Tour(centre, mids)[1..|mids| + 1] == mids;
  }

  /** Python's list.insert(-1, x): x goes just before the last element. */
  function InsertBeforeLast(s: seq<string>, x: string): seq<string>
  {
    if |s| == 0 then [x] else s[..|s| - 1] + [x, s[|s| - 1]]
  }

  /** Python's `del s[-2]` / `s.pop(-2)`: the second-to-last element goes. */
  function DropSecondToLast(s: seq<string>): seq<string>
    requires |s| >= 2
  {
    s[..|s| - 2] + [s[|s| - 1]]
  }

  /** Deleting the second-to-last element undoes list.insert(-1, x). */
  lemma DropInsert(s: seq<string>, x: string)
    requires |s| >= 1
    ensures |InsertBeforeLast(s, x)| == |s| + 1 && DropSecondToLast(InsertBeforeLast(s, x)) == s
  {
    var t := InsertBeforeLast(s, x);
    assert t[..|t| - 2] == s[..|s| - 1];
  }

  /** Every consecutive pair of stops has a travel time. */
  predicate HasLegs(stops: seq<string>, times: Travel)
    decreases |stops|
  {
    |stops| < 2 ||
      (HasLegs(stops[..|stops| - 1], times) && (stops[|stops| - 2], stops[|stops| - 1]) in times)
  }

  /** A prefix of a stop list with legs has legs. */
  lemma {:induction false} HasLegsPrefix(stops: seq<string>, times: Travel, n: nat)
    requires HasLegs(stops, times) && n <= |stops|
    ensures HasLegs(stops[..n], times)
    decreases |stops|
  {
    if n < |stops| {
      var init := stops[..|stops| - 1];
      HasLegsPrefix(init, times, n);
      assert init[..n] == stops[..n];
    } else {
      assert stops[..n] == stops;
    }
  }

  /** HasLegs means exactly that every consecutive pair has a travel time. */
  lemma {:induction false} HasLegsPairs(stops: seq<string>, times: Travel)
    ensures HasLegs(stops, times) <==> forall k :: 0 <= k < |stops| - 1 ==> (stops[k], stops[k + 1]) in times
    decreases |stops|
  {
    if |stops| >= 2 {
      var init := stops[..|stops| - 1];
      HasLegsPairs(init, times);
      assert forall k :: 0 <= k < |init| ==> init[k] == stops[k];
    }
  }

  /** A stop list whose every pair of stops has a travel time has legs. */
  lemma {:induction false} HasLegsAllPairs(stops: seq<string>, times: Travel)
    requires forall a, b :: a in stops && b in stops ==> (a, b) in times
    ensures HasLegs(stops, times)
    decreases |stops|
  {
    if |stops| >= 2 {
      var init := stops[..|stops| - 1];
      assert forall x :: x in init ==> x in stops;
      HasLegsAllPairs(init, times);
      assert stops[|stops| - 2] in stops && stops[|stops| - 1] in stops;
    }
  }

  /** The travel time of one leg; a pair without an entry reads as 0 (callers
      establish HasLegs wherever the source would look the pair up). */
  function LegTime(times: Travel, a: string, b: string): int
  {
    if (a, b) in times then times[(a, b)] else 0
  }

  /** Sum of the travel times of the consecutive legs of a stop list. */
  function Legs(stops: seq<string>, times: Travel): int
    decreases |stops|
  {
    if |stops| < 2 then 0
    else Legs(stops[..|stops| - 1], times) + LegTime(times, stops[|stops| - 2], stops[|stops| - 1])
  }

  /** Appending one stop adds exactly the leg into it. */
  lemma LegsSnoc(stops: seq<string>, x: string, times: Travel)
    requires |stops| >= 1
    ensures Legs(stops + [x], times) == Legs(stops, times) + LegTime(times, stops[|stops| - 1], x)
  {
    var t := stops + [x];
    assert t[..|stops|] == stops;
    assert t[|stops| - 1] == stops[|stops| - 1] && t[|stops|] == x;
  }

  /** Legs are non-negative when every travel time is. */
  lemma {:induction false} LegsNonNegative(stops: seq<string>, times: Travel)
    requires forall key :: key in times ==> times[key] >= 0
    ensures Legs(stops, times) >= 0
    decreases |stops|
  {
    if |stops| >= 2 {
      LegsNonNegative(stops[..|stops| - 1], times);
    }
  }

  predicate Covered(s: seq<string>, d: map<string, nat>)
  {
    forall x :: x in s ==> x in d
  }

  /** The estimate of one store; a store without one reads as 0 (callers
      establish Covered wherever the source would look the store up). */
  function Load(d: map<string, nat>, x: string): nat
  {
    if x in d then d[x] else 0
  }

  /** Total of d over the stores of s, in list order. */
  function PalletSum(s: seq<string>, d: map<string, nat>): nat
    decreases |s|
  {
    if s == [] then 0 else PalletSum(s[..|s| - 1], d) + Load(d, s[|s| - 1])
  }

  lemma PalletSumSnoc(s: seq<string>, x: string, d: map<string, nat>)
    ensures PalletSum(s + [x], d) == PalletSum(s, d) + Load(d, x)
  {
    SnocInit(s, x);
  }

  lemma PalletSumOne(x: string, d: map<string, nat>)
    ensures PalletSum([x], d) == Load(d, x)
  {
    assert [x][..0] == [];
  }

  /** The elements of s that are in labels, in the order of s; the effect of
      dropping every label of s that is not in labels. */
  function Keep(s: seq<string>, labels: seq<string>): (r: seq<string>)
    ensures forall x :: x in r <==> x in s && x in labels
    ensures |r| <= |s|
    decreases |s|
  {
    if s == [] then []
    else if s[|s| - 1] in labels then Keep(s[..|s| - 1], labels) + [s[|s| - 1]]
    else Keep(s[..|s| - 1], labels)
  }

  /** Filtering a list without repeats leaves no repeats. */
  lemma {:induction false} KeepDistinct(s: seq<string>, labels: seq<string>)
    requires Distinct(s)
    ensures Distinct(Keep(s, labels))
    decreases |s|
  {
    if s != [] {
      var init := s[..|s| - 1];
      assert Distinct(init);
      KeepDistinct(init, labels);
      assert s[|s| - 1] !in init;
    }
  }

  /** The decimal digit character of d. */
  function Digit(d: nat): (c: char)
    requires d < 10
    ensures '0' <= c <= '9' && c as int - '0' as int == d
  {
    ('0' as int + d) as char
  }

  /** Python's str(i) for a non-negative integer. */
  function NatToString(n: nat): (r: string)
    ensures |r| >= 1
    ensures forall k :: 0 <= k < |r| ==> '0' <= r[k] <= '9'
    ensures n >= 10 ==> r[0] != '0'
  {
    if n < 10 then [Digit(n)] else NatToString(n / 10) + [Digit(n % 10)]
  }

  /** Decimal spelling is injective, so that route numbers never collide. */
  lemma {:induction false} NatToStringInjective(m: nat, n: nat)
    requires NatToString(m) == NatToString(n)
    ensures m == n
  {
    var sm, sn := NatToString(m), NatToString(n);
    if m < 10 && n < 10 {
      assert Digit(m) == sm[0] == sn[0] == Digit(n);
    } else if m < 10 || n < 10 {
      assert false;
    } else {
      var pm, pn := NatToString(m / 10), NatToString(n / 10);
      assert sm == pm + [Digit(m % 10)] && sn == pn + [Digit(n % 10)];
      assert pm == sm[..|sm| - 1] && pn == sn[..|sn| - 1];
      NatToStringInjective(m / 10, n / 10);
      assert Digit(m % 10) == sm[|sm| - 1] == sn[|sn| - 1] == Digit(n % 10);
    }
  }
}
