/** The assignment basis of a functional line's cost: each assigned resource
    costs its daily rate over the line's days at its utilisation percentage. */
module AssignmentCost {
  import opened Wrappers
  import opened Money
  import opened Sums
  import opened Text
  import opened Lookup
  import opened CaseInsensitiveMap
  import opened Models

  /** A rate carries `key` as its source key, ignoring case; a rate with no
      source key carries none. */
  predicate KeyMatches(r: ResourceRate, key: string)
  {
    r.sourceKey.Some? && EqualsIgnoreCase(r.sourceKey.value, key)
  }

  function SourceKeyIs(key: string): ResourceRate -> bool
  {
    (r: ResourceRate) => KeyMatches(r, key)
  }

  /** `rates[i]` is the first rate carrying `key`. */
  predicate FirstWithKey(rates: seq<ResourceRate>, key: string, i: int)
  {
    && 0 <= i < |rates| && KeyMatches(rates[i], key)
    && forall j :: 0 <= j < i ==> !KeyMatches(rates[j], key)
  }

  /** The first rate whose source key equals `key` ignoring case, or nothing
      when no rate carries it. */
  function FindRateByKey(rates: seq<ResourceRate>, key: string): (r: Option<ResourceRate>)
    ensures r.None? <==> forall i :: 0 <= i < |rates| ==> !KeyMatches(rates[i], key)
    ensures forall i :: FirstWithKey(rates, key, i) ==> r == Some(rates[i])
  {
    var p := SourceKeyIs(key);
    forall i | FirstWithKey(rates, key, i)
      ensures FirstMatch(rates, p) == Some(rates[i])
    {
      FirstMatchIsFirst(rates, p, i);
    }
    FirstMatch(rates, p)
  }

  /** A resource's share of a line: its daily rate over `lineDays` at
      `percent` clamped to [0, 100]; nothing without a rate. */
  function DayCost(rate: Option<ResourceRate>, lineDays: real, percent: real): real
  {
    if rate.Some? then rate.value.dailyRate * lineDays * (ClampPercent(percent) / 100.0) else 0.0
  }

  /** One assignment's unrounded contribution: nothing when no rate carries
      the assignment's key, otherwise the share of the first rate that does. */
  function EntryCost(rates: seq<ResourceRate>, lineDays: real, e: Entry): (c: real)
    ensures (forall i :: 0 <= i < |rates| ==> !KeyMatches(rates[i], e.key)) ==> c == 0.0
    ensures forall i :: FirstWithKey(rates, e.key, i) ==> c == DayCost(Some(rates[i]), lineDays, e.value)
  {
    DayCost(FindRateByKey(rates, e.key), lineDays, e.value)
  }

  /** A share lies between nothing and the full daily rate over the line:
      utilisation is clamped to [0, 100] percent. */
  lemma ShareBounded(daily: real, lineDays: real, percent: real)
    requires daily >= 0.0 && lineDays >= 0.0
    ensures 0.0 <= daily * lineDays * (ClampPercent(percent) / 100.0)
                <= daily * lineDays * (ClampPercent(100.0) / 100.0)
  {
    var q := ClampPercent(percent) / 100.0;
    assert 0.0 <= q <= 1.0;
    MulNonNegative(daily, lineDays);
    var full := daily * lineDays;
    assert full * q <= full * 1.0 by {
      assert full * (1.0 - q) >= 0.0 by { MulNonNegative(full, 1.0 - q); }
    }
    MulNonNegative(full, q);
  }

  /** With a non-negative daily rate and days, a resource's share lies
      between nothing and what it costs at full utilisation. */
  lemma DayCostBounded(rate: ResourceRate, lineDays: real, percent: real)
    requires rate.dailyRate >= 0.0 && lineDays >= 0.0
    ensures 0.0 <= DayCost(Some(rate), lineDays, percent) <= DayCost(Some(rate), lineDays, 100.0)
  {
    var d := rate.dailyRate;
    ShareBounded(d, lineDays, percent);
    assert DayCost(Some(rate), lineDays, percent) == d * lineDays * (ClampPercent(percent) / 100.0);
    assert DayCost(Some(rate), lineDays, 100.0) == d * lineDays * (ClampPercent(100.0) / 100.0);
  }

  /** With non-negative rates and days, an assignment contributes at least
      nothing and at most its resource's cost at full utilisation over the
      whole line. */
  lemma EntryCostBounded(rates: seq<ResourceRate>, lineDays: real, e: Entry, i: int)
    requires FirstWithKey(rates, e.key, i)
    requires rates[i].dailyRate >= 0.0 && lineDays >= 0.0
    ensures 0.0 <= EntryCost(rates, lineDays, e) <= DayCost(Some(rates[i]), lineDays, 100.0)
  {
    DayCostBounded(rates[i], lineDays, e.value);
  }

  function EntryTerm(rates: seq<ResourceRate>, lineDays: real): Entry -> real
  {
    (e: Entry) => EntryCost(rates, lineDays, e)
  }

  /** The days a line spans: its sprints times the estimate's sprint length.
      A line of no sprints, or a sprint of no days, spans no days. */
  function LineDays(f: FunctionalLineItem, estimate: Estimate): (d: real)
    ensures f.sprints >= 0.0 && estimate.sprintLengthDays >= 0 ==> d >= 0.0
    ensures f.sprints == 0.0 || estimate.sprintLengthDays == 0 ==> d == 0.0
  {
    assert f.sprints >= 0.0 && estimate.sprintLengthDays >= 0 ==> f.sprints * estimate.sprintLengthDays as real >= 0.0 by {
      if f.sprints >= 0.0 && estimate.sprintLengthDays >= 0 {
        MulNonNegative(f.sprints, estimate.sprintLengthDays as real);
      }
    }
    f.sprints * estimate.sprintLengthDays as real
  }

  /** A positive sprint length divides a line's days back into its sprints. */
  lemma LineDaysInSprints(f: FunctionalLineItem, estimate: Estimate)
    requires estimate.sprintLengthDays > 0
    ensures LineDays(f, estimate) / estimate.sprintLengthDays as real == f.sprints
  {
  }

  /** The unrounded sum of a line's assignment contributions. */
  function LineTotal(entries: CiMap, estimate: Estimate, lineDays: real): real
  {
    Sum(entries, EntryTerm(estimate.resourceRates, lineDays))
  }

  /** `CalculateFunctionalLineCost`: a missing line or estimate costs nothing,
      and so does a line without assignments; otherwise the assignments'
      contributions summed and rounded once, to the cent, so within half a
      cent of that sum. */
  function CalculateFunctionalLineCost(f: Option<FunctionalLineItem>, estimate: Option<Estimate>): (r: real)
    ensures Is2dp(r)
    ensures f.None? || estimate.None? ==> r == 0.0
    ensures f.Some? && |f.value.assignedResources.GetOr([])| == 0 ==> r == 0.0
    ensures f.Some? && estimate.Some? ==>
              var exact := LineTotal(f.value.assignedResources.GetOr([]), estimate.value, LineDays(f.value, estimate.value));
              exact - 0.005 <= r <= exact + 0.005
  {
    Round2Idempotent(0.0);
    if f.None? || estimate.None? then 0.0
    else
      var lineDays := LineDays(f.value, estimate.value);
      var entries := f.value.assignedResources.GetOr([]);
      Round2(LineTotal(entries, estimate.value, lineDays))
  }

  /** A line with a single assignment costs its resource's share of the
      line, rounded to the cent. */
  lemma SingleAssignmentCost(f: FunctionalLineItem, estimate: Estimate, e: Entry, i: int)
    requires f.assignedResources == Some([e])
    requires FirstWithKey(estimate.resourceRates, e.key, i)
    ensures CalculateFunctionalLineCost(Some(f), Some(estimate))
         == Round2(DayCost(Some(estimate.resourceRates[i]), LineDays(f, estimate), e.value))
  {
    var term := EntryTerm(estimate.resourceRates, LineDays(f, estimate));
    assert Sum([e], term) == term(e) + Sum([e][1..], term);
  }

  /** The unrounded total of two batches of assignments is the sum of their
      totals. */
  lemma LineTotalConcat(a: CiMap, b: CiMap, estimate: Estimate, lineDays: real)
    ensures LineTotal(a + b, estimate, lineDays) == LineTotal(a, estimate, lineDays) + LineTotal(b, estimate, lineDays)
  {
    SumConcat(a, b, EntryTerm(estimate.resourceRates, lineDays));
  }

  /** Giving a line assignments makes its cost their total over the line's
      days, rounded once. */
  lemma LineCostOfAssignments(f: FunctionalLineItem, entries: CiMap, estimate: Estimate)
    ensures CalculateFunctionalLineCost(Some(WithAssignments(f, entries)), Some(estimate))
         == Round2(LineTotal(entries, estimate, LineDays(f, estimate)))
  {
    assert WithAssignments(f, entries).assignedResources.GetOr([]) == entries;
    assert LineDays(WithAssignments(f, entries), estimate) == LineDays(f, estimate);
  }

  /** A line with the given assignments, the rest of it unchanged. */
  function WithAssignments(f: FunctionalLineItem, entries: CiMap): FunctionalLineItem
  {
    f.(assignedResources := Some(entries))
  }

  /** An assignment whose key no rate carries contributes nothing: dropping
      it leaves the line's cost unchanged. */
  lemma UnmatchedKeyContributesNothing(f: FunctionalLineItem, entries: CiMap, j: nat, estimate: Estimate)
    requires j < |entries|
    requires FindRateByKey(estimate.resourceRates, entries[j].key).None?
    ensures CalculateFunctionalLineCost(Some(WithAssignments(f, entries)), Some(estimate))
         == CalculateFunctionalLineCost(Some(WithAssignments(f, entries[..j] + entries[j+1..])), Some(estimate))
  {
    var rest := entries[..j] + entries[j+1..];
    LineTotalWithout(entries, j, estimate, LineDays(f, estimate));
    LineCostOfAssignments(f, entries, estimate);
    LineCostOfAssignments(f, rest, estimate);
  }

  /** Dropping an assignment that no rate prices leaves the unrounded total
      unchanged. */
  lemma LineTotalWithout(entries: CiMap, j: nat, estimate: Estimate, lineDays: real)
    requires j < |entries|
    requires FindRateByKey(estimate.resourceRates, entries[j].key).None?
    ensures LineTotal(entries, estimate, lineDays) == LineTotal(entries[..j] + entries[j+1..], estimate, lineDays)
  {
    var term := EntryTerm(estimate.resourceRates, lineDays);
    SumRemove(entries, j, term);
    assert term(entries[j]) == 0.0;
  }

  /** Percentages are clamped before use: over 100% costs the same as 100%,
      and a negative percentage costs the same as 0%, that is nothing. */
  lemma PercentClamped(rates: seq<ResourceRate>, lineDays: real, key: string, v: real)
    ensures v > 100.0 ==> EntryCost(rates, lineDays, Entry(key, v)) == EntryCost(rates, lineDays, Entry(key, 100.0))
    ensures v < 0.0 ==> EntryCost(rates, lineDays, Entry(key, v)) == 0.0
  {
    EntryCostIsDayCost(rates, lineDays, Entry(key, v));
    EntryCostIsDayCost(rates, lineDays, Entry(key, 100.0));
    DayCostClamped(FindRateByKey(rates, key), lineDays, v);
  }

  lemma EntryCostIsDayCost(rates: seq<ResourceRate>, lineDays: real, e: Entry)
    ensures EntryCost(rates, lineDays, e) == DayCost(FindRateByKey(rates, e.key), lineDays, e.value)
  {
  }

  /** A share over 100% is the full share, and a negative share is nothing. */
  lemma DayCostClamped(rate: Option<ResourceRate>, lineDays: real, v: real)
    ensures v > 100.0 ==> DayCost(rate, lineDays, v) == DayCost(rate, lineDays, 100.0)
    ensures v < 0.0 ==> DayCost(rate, lineDays, v) == 0.0
  {
    if v > 100.0 {
      assert ClampPercent(v) == ClampPercent(100.0);
    } else if v < 0.0 {
      assert ClampPercent(v) / 100.0 == 0.0;
      assert rate.Some? ==> DayCost(rate, lineDays, v) == rate.value.dailyRate * lineDays * 0.0;
    }
  }

  /** The cost does not depend on the dictionary's enumeration order. */
  lemma AssignmentOrderIrrelevant(f: FunctionalLineItem, entries: CiMap, reordered: CiMap, estimate: Estimate)
    requires multiset(reordered) == multiset(entries)
    ensures CalculateFunctionalLineCost(Some(WithAssignments(f, reordered)), Some(estimate))
         == CalculateFunctionalLineCost(Some(WithAssignments(f, entries)), Some(estimate))
  {
    LineCostOfAssignments(f, entries, estimate);
    LineCostOfAssignments(f, reordered, estimate);
    SumPermutation(reordered, entries, EntryTerm(estimate.resourceRates, LineDays(f, estimate)));
  }

  /** A ten-day sprint, rates of 1000 and 500 a day keyed by source key, a
      line of 0.3 sprints (3 days) with one resource at 100% and the other at
      50%: 3000 + 750 = 3750. */
  lemma AssignmentCostExample()
    ensures var rates := [ResourceRate("", FTE, 1000.0, 0.0, Some("team-a-FTE-1")),
                          ResourceRate("", FTE, 500.0, 0.0, Some("team-b-CTR-2"))];
            var estimate := Estimate(10, 0.0, [], [], rates, []);
            var f := FunctionalLineItem("", 0.3, None, false, None,
                                        Some([Entry("team-a-FTE-1", 100.0), Entry("team-b-CTR-2", 50.0)]));
            CalculateFunctionalLineCost(Some(f), Some(estimate)) == 3750.0
  {
    var a := ResourceRate("", FTE, 1000.0, 0.0, Some("team-a-FTE-1"));
    var b := ResourceRate("", FTE, 500.0, 0.0, Some("team-b-CTR-2"));
    ExampleKeys(a, b);
    ExampleShares(a, b);
    Round2Idempotent(3750.0);
  }

  /** Each example key finds its own rate: the keys differ at their sixth
      character. */
  lemma ExampleKeys(a: ResourceRate, b: ResourceRate)
    requires a.sourceKey == Some("team-a-FTE-1") && b.sourceKey == Some("team-b-CTR-2")
    ensures FindRateByKey([a, b], "team-a-FTE-1") == Some(a)
    ensures FindRateByKey([a, b], "team-b-CTR-2") == Some(b)
  {
    assert EqualsIgnoreCase("team-a-FTE-1", "team-a-FTE-1");
    assert !EqualsIgnoreCase("team-a-FTE-1", "team-b-CTR-2") by {
      assert Fold("team-a-FTE-1")[5] != Fold("team-b-CTR-2")[5];
    }
    assert EqualsIgnoreCase("team-b-CTR-2", "team-b-CTR-2");
    assert FirstWithKey([a, b], "team-b-CTR-2", 1);
  }

  /** Over three days, 1000 a day at 100% and 500 a day at 50% come to
      3000 + 750. */
  lemma ExampleShares(a: ResourceRate, b: ResourceRate)
    requires a.dailyRate == 1000.0 && b.dailyRate == 500.0
    requires FindRateByKey([a, b], "team-a-FTE-1") == Some(a)
    requires FindRateByKey([a, b], "team-b-CTR-2") == Some(b)
    ensures Sum([Entry("team-a-FTE-1", 100.0), Entry("team-b-CTR-2", 50.0)], EntryTerm([a, b], 3.0)) == 3750.0
  {
    var entries := [Entry("team-a-FTE-1", 100.0), Entry("team-b-CTR-2", 50.0)];
    var term := EntryTerm([a, b], 3.0);
    assert term(entries[0]) == 3000.0;
    assert term(entries[1]) == 750.0;
    assert entries[1..][1..] == [];
  }
}
