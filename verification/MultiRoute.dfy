/** Splitting a payment over several routes (components/route/src/multi_route.rs).

    What counts about a route is the amount it can carry, its `max_payable`. The code levels the largest routes
    down to a common remaining capacity, so that no route is saturated before the others. */
module MultiRoute {
  import opened Wrappers
  import opened Integers
  import R = Rate

  /** The part of a `RouteCapacityRate` that matters here: its fee rate and its capacity. */
  datatype Route = Route(rate: R.Rate, capacity: U128)

  /** A route's index and capacity; the closing zero entry has no index. */
  type Entry = (Option<nat>, U128)

  /** Which route carries how much. */
  type MultiRouteChoice = seq<(nat, U128)>

  // ---------------------------------------------------------------- sums

  function Sum(s: seq<int>): int {
    if s == [] then 0 else Sum(s[..|s| - 1]) + s[|s| - 1]
  }

  lemma {:induction false} SumUpdate(s: seq<int>, k: nat, x: int)
    requires k < |s|
    ensures Sum(s[k := x]) == Sum(s) - s[k] + x
    decreases |s|
  {
    var n := |s| - 1;
    if k < n {
      SumUpdate(s[..n], k, x);
      assert s[k := x][..n] == s[..n][k := x];
    } else {
      assert s[k := x][..n] == s[..n];
    }
  }

  /** A sum is monotone in every term, strictly if one term grows. */
  lemma {:induction false} SumMonotone(s: seq<int>, t: seq<int>)
    requires |s| == |t| && forall i :: 0 <= i < |s| ==> s[i] <= t[i]
    ensures Sum(s) <= Sum(t)
    ensures (exists i :: 0 <= i < |s| && s[i] < t[i]) ==> Sum(s) < Sum(t)
    decreases |s|
  {
    if s != [] {
      var n := |s| - 1;
      SumMonotone(s[..n], t[..n]);
      if i :| 0 <= i < |s| && s[i] < t[i] {
        if i < n {
          assert s[..n][i] < t[..n][i];
        }
      }
    }
  }

  // ---------------------------------------------------------------- sorting

  predicate Descending(s: seq<Entry>) {
    forall i, j :: 0 <= i < j < |s| ==> s[i].1 >= s[j].1
  }

  /** The total capacity of the listed routes. */
  function Capacity(s: seq<Entry>): nat {
    if s == [] then 0 else Capacity(s[..|s| - 1]) + s[|s| - 1].1
  }

  lemma {:induction false} CapacityConcat(s: seq<Entry>, t: seq<Entry>)
    ensures Capacity(s + t) == Capacity(s) + Capacity(t)
    decreases |t|
  {
    if t == [] {
      assert s + t == s;
    } else {
      CapacityConcat(s, t[..|t| - 1]);
      assert (s + t)[..|s + t| - 1] == s + t[..|t| - 1];
    }
  }

  predicate Listed(s: seq<Entry>, route: nat) {
    exists k :: 0 <= k < |s| && s[k].0 == Some(route)
  }

  /** `s` lists each of the first `n` routes once. */
  predicate Lists(s: seq<Entry>, payables: seq<U128>, n: nat)
    requires n <= |payables|
  {
    && |s| == n
    && (forall k :: 0 <= k < n ==> s[k].0.Some? && s[k].0.value < n && s[k].1 == payables[s[k].0.value])
    && (forall i, j :: 0 <= i < j < n ==> s[i].0 != s[j].0)
    && (forall route :: 0 <= route < n ==> Listed(s, route))
  }

  function InsertedAt(s: seq<Entry>, p: nat, e: Entry): seq<Entry>
    requires p <= |s|
  {
    s[..p] + [e] + s[p..]
  }

  lemma InsertedLists(s: seq<Entry>, payables: seq<U128>, n: nat, p: nat)
    requires n < |payables| && Lists(s, payables, n) && p <= n
    ensures Lists(InsertedAt(s, p, (Some(n), payables[n])), payables, n + 1)
  {
    var t := InsertedAt(s, p, (Some(n), payables[n]));
    forall route | 0 <= route < n + 1 ensures Listed(t, route) {
      if route == n {
        assert t[p].0 == Some(route);
      } else {
        assert Listed(s, route);
        var k :| 0 <= k < n && s[k].0 == Some(route);
        assert t[if k < p then k else k + 1].0 == Some(route);
      }
    }
  }

  lemma InsertedCapacity(s: seq<Entry>, p: nat, e: Entry)
    requires p <= |s|
    ensures Capacity(InsertedAt(s, p, e)) == Capacity(s) + e.1
  {
    CapacityConcat(s[..p] + [e], s[p..]);
    assert (s[..p] + [e])[..p] == s[..p];
    CapacityConcat(s[..p], s[p..]);
    assert s == s[..p] + s[p..];
  }

  lemma InsertedDescending(s: seq<Entry>, p: nat, e: Entry)
    requires Descending(s) && p <= |s|
    requires forall k :: 0 <= k < |s| ==> (k < p <==> s[k].1 >= e.1)
    ensures Descending(InsertedAt(s, p, e))
  {
  }

  /** The place behind every entry that is not smaller. */
  method FindPosition(s: seq<Entry>, payable: U128) returns (p: nat)
    requires Descending(s)
    ensures p <= |s| && forall k :: 0 <= k < |s| ==> (k < p <==> s[k].1 >= payable)
  {
    p := |s|;
    while p > 0 && s[p - 1].1 < payable
      invariant p <= |s| && forall k :: p <= k < |s| ==> s[k].1 < payable
    {
      p := p - 1;
    }
  }

  method SortRoutes(payables: seq<U128>) returns (s: seq<Entry>)
    ensures Descending(s) && Lists(s, payables, |payables|) && Capacity(s) == Sum(payables)
  {
    s := [];
    for i := 0 to |payables|
      invariant Descending(s) && Lists(s, payables, i)
      invariant Capacity(s) == Sum(payables[..i])
    {
      var p := FindPosition(s, payables[i]);
      InsertedDescending(s, p, (Some(i), payables[i]));
      InsertedLists(s, payables, i, p);
      InsertedCapacity(s, p, (Some(i), payables[i]));
      assert payables[..i + 1][..i] == payables[..i];
      s := InsertedAt(s, p, (Some(i), payables[i]));
    }
    assert payables[..|payables|] == payables;
  }

  // ---------------------------------------------------------------- filling

  /** What leveling the first `i` routes down to the smallest of them consumes. */
  function Consumed(s: seq<Entry>, i: nat): int
    requires 1 <= i <= |s|
  {
    Capacity(s[..i]) - i * s[i - 1].1
  }

  lemma ConsumedStep(s: seq<Entry>, i: nat)
    requires 1 <= i < |s|
    ensures Consumed(s, i + 1) == Consumed(s, i) + (s[i - 1].1 - s[i].1) * i
  {
    assert s[..i + 1][..i] == s[..i];
    var a, b := s[i - 1].1, s[i].1;
    assert (a - b) * i == i * a - i * b;
    assert (i + 1) * b == i * b + b;
  }

  lemma {:induction false} ConsumedMonotone(s: seq<Entry>, i: nat, j: nat)
    requires 1 <= i <= j <= |s| && Descending(s)
    ensures Consumed(s, i) <= Consumed(s, j)
    decreases j - i
  {
    if i < j {
      ConsumedStep(s, i);
      MulNonNegative(s[i - 1].1 - s[i].1, i);
      ConsumedMonotone(s, i + 1, j);
    }
  }

  lemma MulNonNegative(a: int, b: int)
    requires a >= 0 && b >= 0
    ensures a * b >= 0
  {
  }

  /** Leveling the first `n` routes leaves `left` of the amount, which spread evenly over them keeps them above the
      next one. */
  predicate Fills(amount: U128, s: seq<Entry>, n: nat, left: nat) {
    && 1 <= n < |s| && Consumed(s, n) + left == amount
    && left <= (s[n - 1].1 - s[n].1) * n
  }

  /** How many of the largest routes are needed for `amount`, and what is left to spread evenly over them. */
  method FillAmount(amount: U128, s: seq<Entry>) returns (r: Option<(nat, nat)>)
    requires |s| > 0 && Descending(s) && s[|s| - 1].1 == 0
    ensures r.None? <==> |s| == 1 || amount > Capacity(s)
    ensures r.Some? ==> Fills(amount, s, r.value.0, r.value.1)
  {
    var left: nat := amount;
    ConsumedOne(s);
    for i := 1 to |s|
      invariant Consumed(s, i) + left == amount
      invariant i > 1 ==> left > 0
    {
      var added := (s[i - 1].1 - s[i].1) * i;
      ConsumedStep(s, i);
      MulNonNegative(s[i - 1].1 - s[i].1, i);
      if left <= added {
        ConsumedMonotone(s, i + 1, |s|);
        ConsumedAll(s);
        return Some((i, left));
      }
      left := left - added;
    }
    ConsumedAll(s);
    r := None;
  }

  lemma ConsumedOne(s: seq<Entry>)
    requires |s| > 0
    ensures Consumed(s, 1) == 0
  {
    assert s[..1][..0] == [] && Capacity(s[..1]) == Capacity(s[..1][..0]) + s[0].1;
  }

  lemma ConsumedAll(s: seq<Entry>)
    requires |s| > 0 && s[|s| - 1].1 == 0
    ensures Consumed(s, |s|) == Capacity(s)
  {
    assert s[..|s|] == s;
  }

  // ---------------------------------------------------------------- choices

  function Total(choice: MultiRouteChoice): nat {
    if choice == [] then 0 else Total(choice[..|choice| - 1]) + choice[|choice| - 1].1
  }

  /** The choice uses distinct routes, none beyond its capacity, and pays exactly `amount`. */
  predicate ValidChoice(payables: seq<U128>, amount: U128, choice: MultiRouteChoice) {
    && (forall k :: 0 <= k < |choice| ==> choice[k].0 < |payables| && choice[k].1 <= payables[choice[k].0])
    && (forall i, j :: 0 <= i < j < |choice| ==> choice[i].0 != choice[j].0)
    && Total(choice) == amount
  }

  predicate Uses(choice: MultiRouteChoice, route: nat) {
    exists k :: 0 <= k < |choice| && choice[k].0 == route
  }

  /** The capacity left on the k-th chosen route. */
  function Leftover(payables: seq<U128>, choice: MultiRouteChoice, k: nat): int
    requires k < |choice| && choice[k].0 < |payables|
  {
    payables[choice[k].0] as int - choice[k].1
  }

  /** The chosen routes end up level, up to one credit, and above the capacity of every other route. */
  predicate Level(payables: seq<U128>, choice: MultiRouteChoice)
    requires forall k :: 0 <= k < |choice| ==> choice[k].0 < |payables|
  {
    && choice != []
    && (forall i, j :: 0 <= i < |choice| && 0 <= j < |choice| ==>
          Leftover(payables, choice, i) <= Leftover(payables, choice, j) + 1)
    && (forall k, route :: 0 <= k < |choice| && 0 <= route < |payables| && !Uses(choice, route) ==>
          Leftover(payables, choice, k) >= payables[route])
  }

  // ---------------------------------------------------------------- spreading

  /** What the j-th largest of `n` leveled routes carries when each gets `div` more and the first `mod` one more. */
  function Share(s: seq<Entry>, n: nat, div: nat, mod: nat, j: nat): int
    requires j < n <= |s|
  {
    s[j].1 as int - s[n - 1].1 + div + if j < mod then 1 else 0
  }

  lemma QuotientBound(left: nat, d: nat, n: nat)
    requires n > 0 && left <= d * n
    ensures left / n + (if left % n > 0 then 1 else 0) <= d
  {
    var q, r := left / n, left % n;
    assert left == q * n + r;
    assert q * n + r - d * n == (q - d) * n + r;
    ProductSign(q - d, n);
  }

  lemma ProductSign(a: int, n: nat)
    ensures a >= 1 ==> a * n >= n
  {
    if a >= 1 {
      MulNonNegative(a - 1, n);
      assert a * n == (a - 1) * n + n;
    }
  }

  /** The part of the total carried by routes `i..n`. */
  function ShareSum(s: seq<Entry>, n: nat, div: nat, mod: nat, i: nat): int
    requires i <= n <= |s|
    decreases n - i
  {
    if i == n then 0 else Share(s, n, div, mod, i) + ShareSum(s, n, div, mod, i + 1)
  }

  lemma {:induction false} ShareSumIs(s: seq<Entry>, n: nat, div: nat, mod: nat, i: nat)
    requires i <= n <= |s| && mod < n
    ensures ShareSum(s, n, div, mod, i)
         == Capacity(s[..n]) - Capacity(s[..i]) - (n - i) * s[n - 1].1
            + (n - i) * div + (if i < mod then mod - i else 0)
    decreases n - i
  {
    if i < n {
      ShareSumIs(s, n, div, mod, i + 1);
      assert s[..i + 1][..i] == s[..i];
      var a := s[n - 1].1;
      assert (n - i) * a == (n - (i + 1)) * a + a;
      assert (n - i) * div == (n - (i + 1)) * div + div;
    }
  }

  /** All shares together are the amount. */
  lemma SharesAddUp(s: seq<Entry>, n: nat, left: nat)
    requires 1 <= n <= |s|
    ensures ShareSum(s, n, left / n, left % n, 0) == Consumed(s, n) + left
  {
    ShareSumIs(s, n, left / n, left % n, 0);
    assert s[..0] == [];
    assert left == n * (left / n) + left % n;
  }

  /** Dividing what is left: the shares are within the routes and pay the amount. */
  method DivideLeft(amount: U128, s: seq<Entry>, n: nat, left: nat) returns (div: nat, mod: nat)
    requires Fills(amount, s, n, left)
    ensures div + (if mod > 0 then 1 else 0) <= s[n - 1].1 - s[n].1
    ensures ShareSum(s, n, div, mod, 0) == amount
  {
    QuotientBound(left, s[n - 1].1 - s[n].1, n);
    SharesAddUp(s, n, left);
    div, mod := left / n, left % n;
  }

  /** `choice` gives the first `n` routes of `s` their shares, smallest route first. */
  predicate Spread(choice: MultiRouteChoice, s: seq<Entry>, n: nat, div: nat, mod: nat)
    requires n <= |s|
  {
    && |choice| == n
    && forall k :: 0 <= k < n ==>
         s[n - 1 - k].0 == Some(choice[k].0) && choice[k].1 == Share(s, n, div, mod, n - 1 - k)
  }

  lemma TotalAppend(choice: MultiRouteChoice, c: (nat, U128))
    ensures Total(choice + [c]) == Total(choice) + c.1
  {
    assert (choice + [c])[..|choice|] == choice;
  }

  method SpreadAmount(s: seq<Entry>, n: nat, div: nat, mod: nat) returns (choice: MultiRouteChoice)
    requires Descending(s) && 1 <= n < |s| && forall k :: 0 <= k < n ==> s[k].0.Some?
    requires div + (if mod > 0 then 1 else 0) <= s[n - 1].1 - s[n].1
    ensures Spread(choice, s, n, div, mod) && Total(choice) == ShareSum(s, n, div, mod, 0)
  {
    choice := [];
    var accum: U128 := 0;
    var i := n;
    while i > 0
      invariant 0 <= i <= n && |choice| == n - i
      invariant i > 0 ==> accum == s[i - 1].1 - s[n - 1].1
      invariant forall k :: 0 <= k < n - i ==>
                  s[n - 1 - k].0 == Some(choice[k].0) && choice[k].1 == Share(s, n, div, mod, n - 1 - k)
      invariant Total(choice) == ShareSum(s, n, div, mod, i)
    {
      i := i - 1;
      var credits := accum + div + if i < mod then 1 else 0;
      TotalAppend(choice, (s[i].0.value, credits));
      choice := choice + [(s[i].0.value, credits)];
      if i > 0 {
        accum := accum + (s[i - 1].1 - s[i].1);
      }
    }
  }

  /** The sorted routes with the closing zero entry. */
  method PrepareRoutes(payables: seq<U128>) returns (ghost sorted: seq<Entry>, s: seq<Entry>)
    ensures Descending(sorted) && Lists(sorted, payables, |payables|) && s == sorted + [(None, 0)]
    ensures |s| == |payables| + 1 && Descending(s) && Capacity(s) == Sum(payables)
    ensures forall k :: 0 <= k < |payables| ==> s[k].0.Some?
  {
    s := SortRoutes(payables);
    sorted := s;
    s := s + [(None, 0)];
    assert s[..|sorted|] == sorted;
  }

  /** What each route can carry. */
  function Payables(routes: seq<Route>): (r: seq<U128>)
    ensures |r| == |routes|
  {
    seq(|routes|, i requires 0 <= i < |routes| => R.MaxPayable(routes[i].rate, routes[i].capacity))
  }

  /** There is a route, and the routes together can carry the amount. */
  predicate Suffices(routes: seq<Route>, amount: U128) {
    routes != [] && amount <= Sum(Payables(routes))
  }

  /** A split that pays the amount, levels the routes it uses, and leaves room for the fees. */
  ghost predicate SafeChoice(routes: seq<Route>, amount: U128, choice: MultiRouteChoice) {
    && ValidChoice(Payables(routes), amount, choice)
    && Level(Payables(routes), choice)
    && forall k :: 0 <= k < |choice| && choice[k].1 > 0 ==>
         choice[k].1 + R.Fee(routes[choice[k].0].rate, choice[k].1) <= routes[choice[k].0].capacity
  }

  lemma ValidChoiceCoversFees(routes: seq<Route>, amount: U128, choice: MultiRouteChoice)
    requires ValidChoice(Payables(routes), amount, choice) && Level(Payables(routes), choice)
    ensures SafeChoice(routes, amount, choice)
  {
    forall k | 0 <= k < |choice| && choice[k].1 > 0
      ensures choice[k].1 + R.Fee(routes[choice[k].0].rate, choice[k].1) <= routes[choice[k].0].capacity
    {
      var route := routes[choice[k].0];
      assert Payables(routes)[choice[k].0] == R.MaxPayable(route.rate, route.capacity);
      R.MaxPayableBounds(route.rate, route.capacity, choice[k].1);
    }
  }

  /** What a route can carry: everything up to it fits with its fee, and nothing above the next credit does. */
  lemma PayableBounds(routes: seq<Route>, i: nat, payment: nat)
    requires i < |routes|
    ensures var route := routes[i];
            var payable: nat := Payables(routes)[i];
            && (route.capacity >= route.rate.add ==>
                  && (payment <= payable ==> payment + R.Fee(route.rate, payment) <= route.capacity)
                  && (payment > payable + 1 ==> payment + R.Fee(route.rate, payment) > route.capacity))
            && (route.capacity < route.rate.add ==>
                  payable == 0 && payment + R.Fee(route.rate, payment) > route.capacity)
  {
    var route := routes[i];
    if route.capacity >= route.rate.add {
      R.MaxPayableBounds(route.rate, route.capacity, payment);
    } else {
      R.NothingPayable(route.rate, route.capacity, payment);
    }
  }

  /** `parts` pays the amount, one part through each route, so that each used route could carry one credit more together
      with the fee. */
  ghost predicate RoomySplit(routes: seq<Route>, amount: nat, parts: seq<nat>) {
    && |parts| == |routes| && Sum(parts) == amount
    && forall i :: 0 <= i < |parts| && parts[i] > 0 ==>
         parts[i] + 1 + R.Fee(routes[i].rate, parts[i] + 1) <= routes[i].capacity
  }

  /** Routes that can carry the amount with a credit to spare are never turned down. */
  lemma RoomySuffices(routes: seq<Route>, amount: U128, parts: seq<nat>)
    requires routes != [] && RoomySplit(routes, amount, parts)
    ensures Suffices(routes, amount)
  {
    forall i | 0 <= i < |parts| ensures parts[i] <= Payables(routes)[i] {
      PayableBounds(routes, i, parts[i] + 1);
    }
    SumMonotone(parts, Payables(routes));
  }

  /** Spreading what is left over the first `n` routes, evenly and the rest one by one. */
  method SpreadEvenly(payables: seq<U128>, amount: U128, ghost sorted: seq<Entry>, s: seq<Entry>, n: nat, left: nat)
    returns (choice: MultiRouteChoice)
    requires Descending(sorted) && Lists(sorted, payables, |payables|) && s == sorted + [(None, 0)]
    requires Descending(s) && Fills(amount, s, n, left)
    ensures ValidChoice(payables, amount, choice) && Level(payables, choice)
  {
    var div, mod := DivideLeft(amount, s, n, left);
    choice := SpreadAmount(s, n, div, mod);
    SpreadIsLevel(payables, amount, sorted, choice, n, div, mod);
  }

  /** Choosing a safe split: possible exactly when the routes suffice. */
  method SafeMultiRouteAmounts(routes: seq<Route>, amount: U128) returns (r: Option<MultiRouteChoice>)
    ensures r.Some? <==> Suffices(routes, amount)
    ensures r.Some? ==> SafeChoice(routes, amount, r.value)
    ensures r.None? && routes != [] ==> forall parts: seq<nat> :: !RoomySplit(routes, amount, parts)
  {
    var payables := Payables(routes);
    ghost var sorted;
    var s;
    sorted, s := PrepareRoutes(payables);
    var filled := FillAmount(amount, s);
    if filled.None? {
      forall parts: seq<nat> | routes != [] && RoomySplit(routes, amount, parts) ensures false {
        RoomySuffices(routes, amount, parts);
      }
      return None;
    }
    var choice := SpreadEvenly(payables, amount, sorted, s, filled.value.0, filled.value.1);
    ValidChoiceCoversFees(routes, amount, choice);
    r := Some(choice);
  }

  lemma SpreadAt(payables: seq<U128>, sorted: seq<Entry>, choice: MultiRouteChoice,
                 n: nat, div: nat, mod: nat, k: nat)
    requires Descending(sorted) && Lists(sorted, payables, |payables|) && k < n <= |sorted|
    requires var s := sorted + [(None, 0)];
             Spread(choice, s, n, div, mod) && div + (if mod > 0 then 1 else 0) <= s[n - 1].1 - s[n].1
    ensures var s := sorted + [(None, 0)];
            && choice[k].0 < |payables| && choice[k].1 <= payables[choice[k].0]
            && Leftover(payables, choice, k) >= s[n].1
            && s[n - 1].1 - div - 1 <= Leftover(payables, choice, k) <= s[n - 1].1 - div
  {
    assert sorted[n - 1 - k] == (sorted + [(None, 0)])[n - 1 - k];
  }

  /** A route without a share is no larger than what the spread stops at. */
  lemma UnusedAreSmaller(payables: seq<U128>, sorted: seq<Entry>, choice: MultiRouteChoice, n: nat, route: nat)
    requires Descending(sorted) && Lists(sorted, payables, |payables|) && n <= |sorted| && |choice| == n
    requires forall k :: 0 <= k < n ==> sorted[k].0 == Some(choice[n - 1 - k].0)
    requires route < |payables| && !Uses(choice, route)
    ensures payables[route] <= (sorted + [(None, 0)])[n].1
  {
    var s := sorted + [(None, 0)];
    assert Listed(sorted, route);
    var k :| 0 <= k < |sorted| && sorted[k].0 == Some(route);
    assert s[k] == sorted[k] && s[n] == sorted[n];
  }

  lemma SpreadIsLevel(payables: seq<U128>, amount: U128, sorted: seq<Entry>, choice: MultiRouteChoice,
                      n: nat, div: nat, mod: nat)
    requires Total(choice) == amount
    requires Descending(sorted) && Lists(sorted, payables, |payables|) && 1 <= n <= |sorted|
    requires var s := sorted + [(None, 0)];
             Spread(choice, s, n, div, mod) && div + (if mod > 0 then 1 else 0) <= s[n - 1].1 - s[n].1
    ensures ValidChoice(payables, amount, choice) && Level(payables, choice)
  {
    var s := sorted + [(None, 0)];
    forall k | 0 <= k < n
      ensures choice[k].0 < |payables| && choice[k].1 <= payables[choice[k].0]
      ensures s[n - 1].1 - div - 1 <= Leftover(payables, choice, k) <= s[n - 1].1 - div
      ensures Leftover(payables, choice, k) >= s[n].1
    {
      SpreadAt(payables, sorted, choice, n, div, mod, k);
    }
    forall i, j | 0 <= i < j < n ensures choice[i].0 != choice[j].0 {
      assert sorted[n - 1 - j].0 != sorted[n - 1 - i].0;
    }
    forall k | 0 <= k < n ensures sorted[k].0 == Some(choice[n - 1 - k].0) {
      assert s[k] == sorted[k];
    }
    forall route | 0 <= route < |payables| && !Uses(choice, route) ensures payables[route] <= s[n].1 {
      UnusedAreSmaller(payables, sorted, choice, n, route);
    }
  }

  // ---------------------------------------------------------------- optimality

  /** How much each route carries under `choice`. */
  function Allocation(choice: MultiRouteChoice, n: nat): (r: seq<int>)
    requires forall k :: 0 <= k < |choice| ==> choice[k].0 < n
    ensures |r| == n
  {
    if choice == [] then seq(n, _ => 0) else
    var last := |choice| - 1;
    Allocation(choice[..last], n)[choice[last].0 := choice[last].1]
  }

  lemma {:induction false} AllocationUnused(choice: MultiRouteChoice, n: nat, route: nat)
    requires forall k :: 0 <= k < |choice| ==> choice[k].0 < n
    requires route < n && forall k :: 0 <= k < |choice| ==> choice[k].0 != route
    ensures Allocation(choice, n)[route] == 0
    decreases |choice|
  {
    if choice != [] {
      AllocationUnused(choice[..|choice| - 1], n, route);
    }
  }

  lemma {:induction false} AllocationUsed(choice: MultiRouteChoice, n: nat, k: nat)
    requires forall k :: 0 <= k < |choice| ==> choice[k].0 < n
    requires forall i, j :: 0 <= i < j < |choice| ==> choice[i].0 != choice[j].0
    requires k < |choice|
    ensures Allocation(choice, n)[choice[k].0] == choice[k].1
    decreases |choice|
  {
    var last := |choice| - 1;
    if k < last {
      AllocationUsed(choice[..last], n, k);
    }
  }

  lemma {:induction false} AllocationTotal(choice: MultiRouteChoice, n: nat)
    requires forall k :: 0 <= k < |choice| ==> choice[k].0 < n
    requires forall i, j :: 0 <= i < j < |choice| ==> choice[i].0 != choice[j].0
    ensures Sum(Allocation(choice, n)) == Total(choice)
    decreases |choice|
  {
    if choice == [] {
      SumZeros(n);
    } else {
      var last := |choice| - 1;
      AllocationTotal(choice[..last], n);
      AllocationUnused(choice[..last], n, choice[last].0);
      SumUpdate(Allocation(choice[..last], n), choice[last].0, choice[last].1);
    }
  }

  lemma {:induction false} SumZeros(n: nat)
    ensures Sum(seq(n, _ => 0)) == 0
  {
    if n > 0 {
      SumZeros(n - 1);
      assert seq(n, _ => 0)[..n - 1] == seq(n - 1, _ => 0);
    }
  }

  /** A level choice is optimal: every other way to pay the amount leaves some route with at least as much
      capacity as the largest leftover of the choice. */
  lemma LevelIsOptimal(payables: seq<U128>, amount: U128, choice: MultiRouteChoice, other: seq<nat>, most: nat)
    requires ValidChoice(payables, amount, choice) && Level(payables, choice)
    requires most < |choice|
    requires |other| == |payables| && Sum(other) == amount
    ensures exists route :: 0 <= route < |payables| &&
              payables[route] - other[route] >= Leftover(payables, choice, most)
  {
    var m := Leftover(payables, choice, most);
    if forall route :: 0 <= route < |payables| ==> payables[route] - other[route] < m {
      var a := Allocation(choice, |payables|);
      AllocationTotal(choice, |payables|);
      forall route | 0 <= route < |payables| ensures a[route] <= other[route] {
        if k :| 0 <= k < |choice| && choice[k].0 == route {
          AllocationUsed(choice, |payables|, k);
          assert m <= Leftover(payables, choice, k) + 1;
        } else {
          AllocationUnused(choice, |payables|, route);
        }
      }
      AllocationUsed(choice, |payables|, most);
      assert a[choice[most].0] < other[choice[most].0];
      SumMonotone(a, other);
      assert false;
    }
  }

  lemma SafestAtLeast(payables: seq<U128>, amount: U128, choice: MultiRouteChoice, other: seq<nat>, least: nat)
    requires ValidChoice(payables, amount, choice) && Level(payables, choice)
    requires least < |choice| && choice[least].1 > 0
    requires forall k :: 0 <= k < |choice| && choice[k].1 > 0 ==>
               Leftover(payables, choice, least) <= Leftover(payables, choice, k)
    requires |other| == |payables| && Sum(other) == amount
    ensures exists route :: 0 <= route < |payables| && other[route] > 0 &&
              payables[route] - other[route] <= Leftover(payables, choice, least)
  {
    var m := Leftover(payables, choice, least);
    if forall route :: 0 <= route < |payables| && other[route] > 0 ==> payables[route] - other[route] > m {
      var a := Allocation(choice, |payables|);
      AllocationTotal(choice, |payables|);
      forall route | 0 <= route < |payables| ensures other[route] <= a[route] {
        if k :| 0 <= k < |choice| && choice[k].0 == route {
          AllocationUsed(choice, |payables|, k);
          assert Leftover(payables, choice, k) <= m + 1;
        } else {
          AllocationUnused(choice, |payables|, route);
          assert m >= payables[route];
        }
      }
      AllocationUsed(choice, |payables|, least);
      assert other[choice[least].0] < a[choice[least].0];
      SumMonotone(other, a);
      assert false;
    }
  }

  /** A level choice is safest: every other way to pay the amount drains some route it uses at least as far as
      any route the choice uses. */
  lemma LevelIsSafest(payables: seq<U128>, amount: U128, choice: MultiRouteChoice, other: seq<nat>, used: nat)
    requires ValidChoice(payables, amount, choice) && Level(payables, choice)
    requires used < |choice| && choice[used].1 > 0
    requires |other| == |payables| && Sum(other) == amount
    ensures exists route :: 0 <= route < |payables| && other[route] > 0 &&
              payables[route] - other[route] <= Leftover(payables, choice, used)
  {
    var m := Leftover(payables, choice, used);
    if k :| 0 <= k < |choice| && choice[k].1 > 0 && Leftover(payables, choice, k) < m {
      forall j | 0 <= j < |choice| ensures Leftover(payables, choice, k) <= Leftover(payables, choice, j) {
        assert m <= Leftover(payables, choice, j) + 1;
      }
      SafestAtLeast(payables, amount, choice, other, k);
    } else {
      SafestAtLeast(payables, amount, choice, other, used);
    }
  }

  /** The first multi-route that can carry the amount. */
  method ChooseMultiRoute(multiRoutes: seq<seq<Route>>, amount: U128) returns (r: Option<(nat, MultiRouteChoice)>)
    ensures r.None? <==> forall i :: 0 <= i < |multiRoutes| ==> !Suffices(multiRoutes[i], amount)
    ensures r.Some? ==>
              var (i, choice) := r.value;
              && i < |multiRoutes| && SafeChoice(multiRoutes[i], amount, choice)
              && forall j :: 0 <= j < i ==> !Suffices(multiRoutes[j], amount)
    ensures r.None? ==> forall i, parts: seq<nat> :: 0 <= i < |multiRoutes| && multiRoutes[i] != [] ==>
              !RoomySplit(multiRoutes[i], amount, parts)
  {
    for i := 0 to |multiRoutes|
      invariant forall j :: 0 <= j < i ==> !Suffices(multiRoutes[j], amount)
      invariant forall j, parts: seq<nat> :: 0 <= j < i && multiRoutes[j] != [] ==>
                  !RoomySplit(multiRoutes[j], amount, parts)
    {
      var choice := SafeMultiRouteAmounts(multiRoutes[i], amount);
      if choice.Some? {
        return Some((i, choice.value));
      }
    }
    r := None;
  }
}
