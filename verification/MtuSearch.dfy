/** The DF-bit path MTU search (`_measure_mtu` in charm/payload/mtu_validator.py). */
module MtuSearch {
  import opened Order

  const HEADER_BYTES := 28
  const STD_PAYLOAD := 1472
  const JUMBO_PAYLOAD := 8972
  const BINARY_SEARCH_ITERATIONS := 5

  /** What one DF-bit probe says; `frag` is the MTU a fragmentation-needed report
      names. */
  datatype Reply = Reply(ok: bool, frag: Option<nat>)

  /** The answers of a path by payload size.  No size is probed twice, so a
      function of the size covers every possible sequence of answers. */
  type Path = nat -> Reply

  /** `if frag:` takes no report and a report of 0 alike. */
  predicate Reports(r: Reply) { r.frag.Some? && r.frag.value != 0 }
  predicate ReportsJumbo(r: Reply) { r.frag.Some? && r.frag.value > STD_PAYLOAD + HEADER_BYTES }

  /** The binary search: `low` passes, `high` does not. */
  function Search(path: Path, low: nat, high: nat, iterations: nat): nat
    decreases iterations
  {
    var mid := (low + high) / 2;
    if iterations == 0 || mid <= low then low + HEADER_BYTES
    else if path(mid).ok then Search(path, mid, high, iterations - 1)
    else if ReportsJumbo(path(mid)) then path(mid).frag.value
    else Search(path, low, mid, iterations - 1)
  }

  /** The observed MTU, or None for an inconclusive path. */
  function Measure(path: Path): Option<nat> {
    if !path(STD_PAYLOAD).ok then (if Reports(path(STD_PAYLOAD)) then path(STD_PAYLOAD).frag else None)
    else if path(JUMBO_PAYLOAD).ok then Some(JUMBO_PAYLOAD + HEADER_BYTES)
    else if ReportsJumbo(path(JUMBO_PAYLOAD)) then path(JUMBO_PAYLOAD).frag
    else if Reports(path(JUMBO_PAYLOAD)) then Some(STD_PAYLOAD + HEADER_BYTES)
    else Some(Search(path, STD_PAYLOAD, JUMBO_PAYLOAD, BINARY_SEARCH_ITERATIONS))
  }

  /** Inconclusive exactly when 1500 does not get through and nobody says why. */
  lemma MeasureNone(path: Path)
    ensures Measure(path) == None <==> !path(1472).ok && path(1472).frag in {None, Some(0)}
  {
  }

  /** What decides before any search: a report at 1500, a jumbo packet getting
      through, a report at 9000; one naming 1500 or less means 1500. */
  lemma MeasureOutright(path: Path, m: nat)
    ensures !path(1472).ok && path(1472).frag == Some(m) && m > 0 ==> Measure(path) == Some(m)
    ensures path(1472).ok && path(8972).ok ==> Measure(path) == Some(9000)
    ensures path(1472).ok && !path(8972).ok && path(8972).frag == Some(m) && m > 1500 ==> Measure(path) == Some(m)
    ensures path(1472).ok && !path(8972).ok && path(8972).frag == Some(m) && 0 < m <= 1500 ==>
      Measure(path) == Some(1500)
  {
  }

  /** One step of the search: it goes on above a size that passes, and below one
      that does not unless a report of more than 1500 ends it. */
  lemma SearchStep(path: Path, low: nat, high: nat, n: nat)
    ensures n == 0 || high <= low + 1 ==> Search(path, low, high, n) == low + 28
    ensures n > 0 && high > low + 1 ==>
      var mid := (low + high) / 2;
      && (path(mid).ok ==> Search(path, low, high, n) == Search(path, mid, high, n - 1))
      && (!path(mid).ok ==>
            match path(mid).frag
            case None => Search(path, low, high, n) == Search(path, low, mid, n - 1)
            case Some(m) => Search(path, low, high, n) == if m > 1500 then m else Search(path, low, mid, n - 1))
  {
  }

  predicate NoRepeats(sizes: seq<nat>) {
    forall i, j :: 0 <= i < j < |sizes| ==> sizes[i] != sizes[j]
  }

  lemma OneMoreSize(sizes: seq<nat>, s: nat)
    requires NoRepeats(sizes) && s !in sizes
    ensures NoRepeats(sizes + [s])
  {
  }

  /** `_measure_mtu`: never more than 7 probes, no size twice. */
  method MeasureMtu(path: Path) returns (mtu: Option<nat>, ghost sizes: seq<nat>)
    ensures mtu == Measure(path)
    ensures |sizes| <= 7 && NoRepeats(sizes)
  {
    sizes := [STD_PAYLOAD];
    var first := path(STD_PAYLOAD);
    if !first.ok {
      if Reports(first) { return first.frag, sizes; }
      return None, sizes;
    }
    sizes := sizes + [JUMBO_PAYLOAD];
    var jumbo := path(JUMBO_PAYLOAD);
    if jumbo.ok { return Some(JUMBO_PAYLOAD + HEADER_BYTES), sizes; }
    if ReportsJumbo(jumbo) { return jumbo.frag, sizes; }
    if Reports(jumbo) { return Some(STD_PAYLOAD + HEADER_BYTES), sizes; }
    var best, low, high := STD_PAYLOAD, STD_PAYLOAD, JUMBO_PAYLOAD;
    var i := 0;
    while i < BINARY_SEARCH_ITERATIONS
      invariant i <= BINARY_SEARCH_ITERATIONS && best == low && STD_PAYLOAD <= low <= high <= JUMBO_PAYLOAD
      invariant Measure(path) == Some(Search(path, low, high, BINARY_SEARCH_ITERATIONS - i))
      invariant |sizes| == 2 + i && NoRepeats(sizes) && forall s :: s in sizes ==> s <= low || s >= high
    {
      var mid := (low + high) / 2;
      if mid <= low { break; }
      var reply := path(mid);
      OneMoreSize(sizes, mid);
      sizes := sizes + [mid];
      if reply.ok {
        best, low := mid, mid;
      } else if ReportsJumbo(reply) {
        return reply.frag, sizes;
      } else {
        high := mid;
      }
      i := i + 1;
    }
    return Some(best + HEADER_BYTES), sizes;
  }

  // ----- silent paths -------------------------------------------------------

  /** The path drops, without a report, exactly the packets above its MTU. */
  ghost predicate Silent(path: Path, mtu: nat) {
    forall s: nat :: path(s) == Reply(s + HEADER_BYTES <= mtu, None)
  }

  function Min(a: nat, b: nat): nat { if a < b then a else b }

  /** How far apart low and high can be after some halvings. */
  function Gap(g: nat, halvings: nat): nat {
    if halvings == 0 then g else Gap((g + 1) / 2, halvings - 1)
  }

  lemma {:induction false} GapGrows(g: nat, h: nat, n: nat)
    requires g <= h
    ensures Gap(g, n) <= Gap(h, n) && (g >= 1 ==> Gap(g, n) >= 1)
  {
    if n > 0 { GapGrows((g + 1) / 2, (h + 1) / 2, n - 1); }
  }

  lemma {:induction false} SearchBound(path: Path, mtu: nat, low: nat, high: nat, n: nat)
    requires Silent(path, mtu) && low + HEADER_BYTES <= mtu < high + HEADER_BYTES
    ensures Search(path, low, high, n) <= mtu < Search(path, low, high, n) + Gap(high - low, n)
    decreases n
  {
    var mid := (low + high) / 2;
    if mid <= low {
      GapGrows(1, high - low, n);
    } else if n > 0 {
      if path(mid).ok {
        SearchBound(path, mtu, mid, high, n - 1);
      } else {
        SearchBound(path, mtu, low, mid, n - 1);
        GapGrows(mid - low, (high - low + 1) / 2, n - 1);
      }
    }
  }

  lemma GapOfSearch()
    ensures Gap(7500, 5) == 235
  {
    assert Gap(7500, 5) == Gap(3750, 4) == Gap(1875, 3) == Gap(938, 2) == Gap(469, 1) == Gap(235, 0);
  }

  /** A silent path that carries 1500 is either jumbo or searched. */
  lemma SilentMeasure(path: Path, mtu: nat)
    requires Silent(path, mtu) && mtu >= 1500
    ensures Measure(path) ==
      if mtu >= 9000 then Some(9000) else Some(Search(path, STD_PAYLOAD, JUMBO_PAYLOAD, BINARY_SEARCH_ITERATIONS))
  {
    assert path(STD_PAYLOAD) == Reply(true, None) && path(JUMBO_PAYLOAD) == Reply(mtu >= 9000, None);
  }

  /** On a silent path that carries 1500 the result never exceeds the true MTU
      (capped at 9000) and is at most 234 bytes below it. */
  lemma SilentBound(path: Path, mtu: nat)
    requires Silent(path, mtu) && mtu >= 1500
    ensures Measure(path).Some? && Measure(path).value <= Min(9000, mtu) <= Measure(path).value + 234
  {
    SilentMeasure(path, mtu);
    if mtu < 9000 {
      SearchBound(path, mtu, STD_PAYLOAD, JUMBO_PAYLOAD, BINARY_SEARCH_ITERATIONS);
      GapOfSearch();
    }
  }

  /** 234 is the exact bound: an MTU of 8999 is observed as 8765. */
  lemma SilentBoundIsTight(path: Path)
    requires Silent(path, 8999)
    ensures Measure(path) == Some(8765)
  {
    assert Search(path, 1472, 8972, 5) == Search(path, 5222, 8972, 4) == Search(path, 7097, 8972, 3);
    assert Search(path, 7097, 8972, 3) == Search(path, 8034, 8972, 2) == Search(path, 8503, 8972, 1);
  }

  // ----- reporting paths ----------------------------------------------------

  /** Packets above the MTU are answered by a report that names it. */
  ghost predicate Reporting(path: Path, mtu: nat) {
    forall s: nat :: path(s) == if s + HEADER_BYTES <= mtu then Reply(true, None) else Reply(false, Some(mtu))
  }

  lemma ReportingExact(path: Path, mtu: nat)
    requires Reporting(path, mtu) && mtu > 0
    ensures Measure(path) == Some(Min(9000, mtu))
  {
  }

  /** As above, but the report of the jumbo probe is lost on the way. */
  ghost predicate FirstReportLost(path: Path, mtu: nat) {
    forall s: nat :: path(s) ==
      if s + HEADER_BYTES <= mtu then Reply(true, None)
      else if s == JUMBO_PAYLOAD then Reply(false, None) else Reply(false, Some(mtu))
  }

  /** The search takes the first report above 1500 for the answer, so the result
      is exact up to the largest size it tries. */
  lemma FirstReportLostExact(path: Path, mtu: nat)
    requires FirstReportLost(path, mtu) && mtu > 0
    ensures Measure(path) == Some(if mtu >= 9000 then 9000 else Min(8765, mtu))
  {
    assert path(1472) == (if 1500 <= mtu then Reply(true, None) else Reply(false, Some(mtu)));
    if 1500 < mtu < 9000 {
      if mtu >= 5250 { LateReport(path, mtu); }
    } else if mtu == 1500 {
      assert Search(path, 1472, 8972, 5) == Search(path, 1472, 5222, 4) == Search(path, 1472, 3347, 3);
      assert Search(path, 1472, 3347, 3) == Search(path, 1472, 2409, 2) == Search(path, 1472, 1940, 1);
    }
  }

  lemma LateReport(path: Path, mtu: nat)
    requires FirstReportLost(path, mtu) && 5250 <= mtu < 9000
    ensures Search(path, 1472, 8972, 5) == Min(8765, mtu)
  {
    assert Search(path, 1472, 8972, 5) == Search(path, 5222, 8972, 4);
    assert mtu >= 7125 ==> Search(path, 5222, 8972, 4) == Search(path, 7097, 8972, 3);
    assert mtu >= 8062 ==> Search(path, 7097, 8972, 3) == Search(path, 8034, 8972, 2);
    assert mtu >= 8531 ==> Search(path, 8034, 8972, 2) == Search(path, 8503, 8972, 1);
  }

  /** The local interface reports first, a bottleneck further on after it. */
  ghost predicate TwoReports(path: Path, local: nat, remote: nat) {
    forall s: nat :: path(s) ==
      if s + HEADER_BYTES > local then Reply(false, Some(local))
      else if s + HEADER_BYTES > remote then Reply(false, Some(remote))
      else Reply(true, None)
  }

  /** With a reporting local interface before a reporting bottleneck, the result
      is exact if and only if the interface is jumbo, is itself the bottleneck,
      or carries 1500 while the bottleneck does not; otherwise the interface
      masks the bottleneck. */
  lemma TwoReportsExactIff(path: Path, local: nat, remote: nat)
    requires TwoReports(path, local, remote) && local > 0 && remote > 0
    ensures Measure(path) == Some(Min(9000, Min(local, remote)))
            <==> local >= 9000 || local <= remote || remote < 1500 <= local
  {
    assert path(STD_PAYLOAD) == if 1500 > local then Reply(false, Some(local))
      else if 1500 > remote then Reply(false, Some(remote)) else Reply(true, None);
  }
}
