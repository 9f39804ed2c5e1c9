/** The cost calculator: squad cost per sprint, functional line cost on the
    squad-rate basis, non-functional item cost on the role-mapped hourly
    basis, contingency and the deviation flag. Every monetary result is
    rounded to two decimals where it is computed. */
module CostCalculator {
  import opened Wrappers
  import opened Money
  import opened Sums
  import opened Text
  import opened Lookup
  import opened Models

  /** The team a functional line is costed against: head counts, the mean
      daily rate of each employment type and the sprint length in days. */
  datatype SquadComposition = SquadComposition(
    fteCount: int,
    contractorCount: int,
    fteDailyRate: real,
    contractorDailyRate: real,
    sprintLengthDays: int)

  /** The deviation threshold, in percent, used when the caller gives none. */
  const DefaultDeviationThreshold: real := 25.0

  /** What the squad costs in one sprint, to the cent: within half a cent of
      each type's head count at its daily rate over the sprint's days. With
      no one on the squad it costs nothing; with non-negative rates and
      counts it never costs less than nothing. */
  function CalcSquadCostPerSprint(squad: SquadComposition): (r: real)
    ensures Is2dp(r)
    ensures var exact := ExactSquadCost(squad.fteCount as real, squad.contractorCount as real, squad.fteDailyRate,
                                        squad.contractorDailyRate, squad.sprintLengthDays as real);
            exact - 0.005 <= r <= exact + 0.005
    ensures squad.fteCount == 0 && squad.contractorCount == 0 ==> r == 0.0
    ensures (squad.fteCount >= 0 && squad.contractorCount >= 0 && squad.fteDailyRate >= 0.0
             && squad.contractorDailyRate >= 0.0 && squad.sprintLengthDays >= 0) ==> r >= 0.0
  {
    SquadCost(squad.fteCount as real, squad.contractorCount as real, squad.fteDailyRate, squad.contractorDailyRate,
              squad.sprintLengthDays as real)
  }

  /** `CalcSquadCostPerSprint` over the squad's fields, the counts and days
      already converted to decimals: each type's head count at its daily
      rate over the sprint's days, rounded once. */
  function SquadCost(fteCount: real, contractorCount: real, fteDailyRate: real, contractorDailyRate: real,
                     days: real): (r: real)
    ensures Is2dp(r)
    ensures var exact := ExactSquadCost(fteCount, contractorCount, fteDailyRate, contractorDailyRate, days);
            exact - 0.005 <= r <= exact + 0.005
    ensures fteCount == 0.0 && contractorCount == 0.0 ==> r == 0.0
    ensures (fteCount >= 0.0 && contractorCount >= 0.0 && fteDailyRate >= 0.0
             && contractorDailyRate >= 0.0 && days >= 0.0) ==> r >= 0.0
  {
    SquadCostSign(fteCount, contractorCount, fteDailyRate, contractorDailyRate, days);
    Round2(fteCount * fteDailyRate * days + contractorCount * contractorDailyRate * days)
  }

  /** Each type's head count at its daily rate over `days` days, before
      rounding. */
  function ExactSquadCost(fteCount: real, contractorCount: real, fteDailyRate: real, contractorDailyRate: real,
                          days: real): real
  {
    fteCount * fteDailyRate * days + contractorCount * contractorDailyRate * days
  }

  /** The sign facts behind `SquadCost`'s contract: no heads cost nothing,
      and non-negative inputs never round below zero. */
  lemma SquadCostSign(fteCount: real, contractorCount: real, fteDailyRate: real, contractorDailyRate: real, days: real)
    ensures var total := fteCount * fteDailyRate * days + contractorCount * contractorDailyRate * days;
            && (fteCount == 0.0 && contractorCount == 0.0 ==> Round2(total) == 0.0)
            && ((fteCount >= 0.0 && contractorCount >= 0.0 && fteDailyRate >= 0.0
                 && contractorDailyRate >= 0.0 && days >= 0.0) ==> Round2(total) >= 0.0)
  {
    var total := fteCount * fteDailyRate * days + contractorCount * contractorDailyRate * days;
    Round2Idempotent(0.0);
    if fteCount == 0.0 && contractorCount == 0.0 {
      Round2Congruent(total, 0.0);
    }
    if fteCount >= 0.0 && contractorCount >= 0.0 && fteDailyRate >= 0.0 && contractorDailyRate >= 0.0 && days >= 0.0 {
      MulNonNegative(fteCount, fteDailyRate);
      MulNonNegative(fteCount * fteDailyRate, days);
      MulNonNegative(contractorCount, contractorDailyRate);
      MulNonNegative(contractorCount * contractorDailyRate, days);
      Round2Monotone(0.0, total);
    }
  }

  /** Two FTEs at 1000 a day and one contractor at 500 a day over a ten-day
      sprint cost 25000 a sprint. */
  lemma SquadCostExample()
    ensures CalcSquadCostPerSprint(SquadComposition(2, 1, 1000.0, 500.0, 10)) == 25000.0
  {
    Round2Idempotent(25000.0);
  }

  /** The squad-rate cost of a line: within half a cent of
      `sprints * squadCostPerSprint`, to the cent, and nothing for no sprints. */
  function CalcFunctionalLineCost(sprints: real, squadCostPerSprint: real): (r: real)
    ensures Is2dp(r)
    ensures sprints * squadCostPerSprint - 0.005 <= r <= sprints * squadCostPerSprint + 0.005
    ensures sprints == 0.0 ==> r == 0.0
  {
    Round2Idempotent(0.0);
    assert sprints == 0.0 ==> sprints * squadCostPerSprint == 0.0;
    Round2(sprints * squadCostPerSprint)
  }

  /** More sprints never cost less on a non-negative squad rate. */
  lemma FunctionalLineCostMonotone(s1: real, s2: real, squadCostPerSprint: real)
    requires s1 <= s2 && squadCostPerSprint >= 0.0
    ensures CalcFunctionalLineCost(s1, squadCostPerSprint) <= CalcFunctionalLineCost(s2, squadCostPerSprint)
  {
    Round2Monotone(s1 * squadCostPerSprint, s2 * squadCostPerSprint);
  }

  /** The role an allocation is priced under: the target of the first role
      mapping whose source role equals the allocation's role ignoring case,
      provided that target is not blank; otherwise the allocation's own
      role. A `null` mapping collection redirects nothing. */
  function EffectiveRole(role: string, mappings: Option<seq<RoleMapping>>): (r: string)
    ensures mappings.None? ==> r == role
    ensures mappings.Some? && (forall i :: 0 <= i < |mappings.value| ==> !EqualsIgnoreCase(mappings.value[i].sourceRole, role))
            ==> r == role
  {
    match mappings
    case None => role
    case Some(ms) =>
      match FirstMatch(ms, SourceRoleIs(role))
      case Some(m) => if !IsBlank(m.targetRole) then m.targetRole else role
      case None => role
  }

  function SourceRoleIs(role: string): RoleMapping -> bool
  {
    (m: RoleMapping) => EqualsIgnoreCase(m.sourceRole, role)
  }

  /** When `ms[i]` is the first mapping whose source role equals `role`
      ignoring case, `role` is redirected to its target, unless the target
      is blank; later mappings for the same role are never consulted. */
  lemma EffectiveRoleRedirect(role: string, ms: seq<RoleMapping>, i: nat)
    requires i < |ms| && EqualsIgnoreCase(ms[i].sourceRole, role)
    requires forall j :: 0 <= j < i ==> !EqualsIgnoreCase(ms[j].sourceRole, role)
    ensures EffectiveRole(role, Some(ms)) == if IsBlank(ms[i].targetRole) then role else ms[i].targetRole
  {
    FirstMatchIsFirst(ms, SourceRoleIs(role), i);
  }

  /** The first rate whose role equals `role` ignoring case, or nothing
      when no rate has that role. */
  function FindRateByRole(rates: seq<ResourceRate>, role: string): (r: Option<ResourceRate>)
    ensures r.None? <==> forall i :: 0 <= i < |rates| ==> !EqualsIgnoreCase(rates[i].role, role)
    ensures forall i :: FirstWithRole(rates, role, i) ==> r == Some(rates[i])
  {
    var p := RoleIs(role);
    forall i | FirstWithRole(rates, role, i)
      ensures FirstMatch(rates, p) == Some(rates[i])
    {
      FirstMatchIsFirst(rates, p, i);
    }
    FirstMatch(rates, p)
  }

  /** `rates[i]` is the first rate whose role equals `role` ignoring case. */
  predicate FirstWithRole(rates: seq<ResourceRate>, role: string, i: int)
  {
    && 0 <= i < |rates| && EqualsIgnoreCase(rates[i].role, role)
    && forall j :: 0 <= j < i ==> !EqualsIgnoreCase(rates[j].role, role)
  }

  function RoleIs(role: string): ResourceRate -> bool
  {
    (r: ResourceRate) => EqualsIgnoreCase(r.role, role)
  }

  /** The hourly price of a rate: its hourly rate when positive, else its
      daily rate spread over an eight-hour day. */
  function HourlyRate(rate: ResourceRate): (h: real)
    ensures rate.dailyRate >= 0.0 && rate.hourlyRate >= 0.0 ==> h >= 0.0
  {
    if rate.hourlyRate > 0.0 then rate.hourlyRate else rate.dailyRate / 8.0
  }

  /** One allocation's unrounded contribution to its item's cost: its hours
      at the hourly price of its effective role, or nothing when no rate is
      priced under that role. */
  function AllocationCost(a: ResourceAllocation, rates: seq<ResourceRate>, mappings: Option<seq<RoleMapping>>): (c: real)
    ensures (forall i :: 0 <= i < |rates| ==> !EqualsIgnoreCase(rates[i].role, EffectiveRole(a.role, mappings))) ==> c == 0.0
    ensures forall i :: 0 <= i < |rates| && FirstWithRole(rates, EffectiveRole(a.role, mappings), i) ==>
              c == PricedHours(a.hours, Some(rates[i]))
  {
    PricedByFirst(a.hours, rates, EffectiveRole(a.role, mappings));
    PricedHours(a.hours, FindRateByRole(rates, EffectiveRole(a.role, mappings)))
  }

  /** The found rate is the first under the role, so the hours are priced
      at that rate. */
  lemma PricedByFirst(hours: real, rates: seq<ResourceRate>, role: string)
    ensures (forall i :: 0 <= i < |rates| ==> !EqualsIgnoreCase(rates[i].role, role)) ==>
              PricedHours(hours, FindRateByRole(rates, role)) == 0.0
    ensures forall i :: 0 <= i < |rates| && FirstWithRole(rates, role, i) ==>
              PricedHours(hours, FindRateByRole(rates, role)) == PricedHours(hours, Some(rates[i]))
  {
    var rate := FindRateByRole(rates, role);
    forall i | 0 <= i < |rates| && FirstWithRole(rates, role, i)
      ensures PricedHours(hours, rate) == PricedHours(hours, Some(rates[i]))
    {
      assert rate == Some(rates[i]);
    }
  }

  /** Hours at a rate's hourly price, `hours * HourlyRate(rate)`, or nothing
      without a rate. */
  function PricedHours(hours: real, rate: Option<ResourceRate>): real
  {
    if rate.Some? then hours * HourlyRate(rate.value) else 0.0
  }

  /** `AllocationCost` as the term of a sum over allocations. */
  function AllocationTerm(rates: seq<ResourceRate>, mappings: Option<seq<RoleMapping>>): ResourceAllocation -> real
  {
    (a: ResourceAllocation) => AllocationCost(a, rates, mappings)
  }

  /** The cost of a non-functional item: its allocations' contributions
      summed and rounded once, to the cent. An item with no allocations costs
      nothing, and non-negative hours and rates never give a negative cost. */
  function CalcNonFunctionalCost(item: NonFunctionalItem, rates: seq<ResourceRate>, mappings: Option<seq<RoleMapping>>): (r: real)
    ensures Is2dp(r)
    ensures |item.allocations| == 0 ==> r == 0.0
    ensures (forall i :: 0 <= i < |item.allocations| ==> item.allocations[i].hours >= 0.0)
            && (forall i :: 0 <= i < |rates| ==> rates[i].dailyRate >= 0.0 && rates[i].hourlyRate >= 0.0)
            ==> r >= 0.0
  {
    var total := Sum(item.allocations, AllocationTerm(rates, mappings));
    Round2Idempotent(0.0);
    if (forall i :: 0 <= i < |item.allocations| ==> item.allocations[i].hours >= 0.0)
       && (forall i :: 0 <= i < |rates| ==> rates[i].dailyRate >= 0.0 && rates[i].hourlyRate >= 0.0)
    then
      AllocationCostsNonNegative(item.allocations, rates, mappings);
      Round2Monotone(0.0, total);
      Round2(total)
    else Round2(total)
  }

  /** With non-negative hours and rates every allocation costs at least 0. */
  lemma AllocationCostsNonNegative(allocs: seq<ResourceAllocation>, rates: seq<ResourceRate>, mappings: Option<seq<RoleMapping>>)
    requires forall i :: 0 <= i < |allocs| ==> allocs[i].hours >= 0.0
    requires forall i :: 0 <= i < |rates| ==> rates[i].dailyRate >= 0.0 && rates[i].hourlyRate >= 0.0
    ensures Sum(allocs, AllocationTerm(rates, mappings)) >= 0.0
  {
    forall i | 0 <= i < |allocs|
      ensures AllocationTerm(rates, mappings)(allocs[i]) >= 0.0
    {
      AllocationCostNonNegative(allocs[i], rates, mappings);
    }
    SumNonNegative(allocs, AllocationTerm(rates, mappings));
  }

  /** With non-negative hours and rates an allocation costs at least 0. */
  lemma AllocationCostNonNegative(a: ResourceAllocation, rates: seq<ResourceRate>, mappings: Option<seq<RoleMapping>>)
    requires a.hours >= 0.0
    requires forall i :: 0 <= i < |rates| ==> rates[i].dailyRate >= 0.0 && rates[i].hourlyRate >= 0.0
    ensures AllocationCost(a, rates, mappings) >= 0.0
  {
    var rate := FindRateByRole(rates, EffectiveRole(a.role, mappings));
    assert AllocationCost(a, rates, mappings) == PricedHours(a.hours, rate);
    if rate.Some? {
      assert rate.value in rates;
      PricedHoursNonNegative(a.hours, rate.value);
    }
  }

  lemma PricedHoursNonNegative(hours: real, rate: ResourceRate)
    requires hours >= 0.0 && rate.dailyRate >= 0.0 && rate.hourlyRate >= 0.0
    ensures PricedHours(hours, Some(rate)) >= 0.0
  {
    MulNonNegative(hours, HourlyRate(rate));
  }

  /** An allocation whose effective role has no priced rate contributes
      nothing: dropping it leaves the item's cost unchanged. */
  lemma UnpricedAllocationContributesNothing(item: NonFunctionalItem, j: nat, rates: seq<ResourceRate>,
                                             mappings: Option<seq<RoleMapping>>)
    requires j < |item.allocations|
    requires FindRateByRole(rates, EffectiveRole(item.allocations[j].role, mappings)).None?
    ensures CalcNonFunctionalCost(item, rates, mappings)
         == CalcNonFunctionalCost(item.(allocations := item.allocations[..j] + item.allocations[j+1..]), rates, mappings)
  {
    SumRemove(item.allocations, j, AllocationTerm(rates, mappings));
  }

  /** The order of an item's allocations does not affect its cost. */
  lemma AllocationOrderIrrelevant(item: NonFunctionalItem, allocations: seq<ResourceAllocation>,
                                  rates: seq<ResourceRate>, mappings: Option<seq<RoleMapping>>)
    requires multiset(allocations) == multiset(item.allocations)
    ensures CalcNonFunctionalCost(item.(allocations := allocations), rates, mappings)
         == CalcNonFunctionalCost(item, rates, mappings)
  {
    SumPermutation(allocations, item.allocations, AllocationTerm(rates, mappings));
  }

  /** Item costs are rounded once, after summing: two allocations of half a
      cent each cost one cent together, although each alone rounds to 0. */
  lemma NonFunctionalCostRoundsOnce()
    ensures var rates := [ResourceRate("Dev", FTE, 0.0, 1.0, None)];
            var half := ResourceAllocation("Dev", 0.005);
            && CalcNonFunctionalCost(NonFunctionalItem("Support", [half]), rates, None) == 0.0
            && CalcNonFunctionalCost(NonFunctionalItem("Support", [half, half]), rates, None) == 0.01
  {
    var rates := [ResourceRate("Dev", FTE, 0.0, 1.0, None)];
    var half := ResourceAllocation("Dev", 0.005);
    assert EqualsIgnoreCase("Dev", "Dev");
    assert AllocationCost(half, rates, None) == 0.005;
    Round2Unique(0.005, 0.0);
    Round2Idempotent(0.01);
  }

  /** `ApplyContingency`: a non-positive percentage returns the subtotal as
      given; a positive one adds that percentage and rounds to the cent. */
  function ApplyContingency(subtotal: real, contingencyPercent: real): (r: real)
    ensures contingencyPercent <= 0.0 ==> r == subtotal
    ensures contingencyPercent > 0.0 ==> Is2dp(r)
    ensures contingencyPercent > 0.0 ==>
              subtotal * (1.0 + contingencyPercent / 100.0) - 0.005 <= r <= subtotal * (1.0 + contingencyPercent / 100.0) + 0.005
  {
    if contingencyPercent <= 0.0 then subtotal
    else
      var extra := subtotal * (contingencyPercent / 100.0);
      Round2(subtotal + extra)
  }

  /** The two branches of `ApplyContingency` agree on an already-rounded
      subtotal: it is then a single rounding of the subtotal plus a
      non-negative percentage of it. */
  lemma ContingencyOnRoundedSubtotal(subtotal: real, contingencyPercent: real)
    requires Is2dp(subtotal)
    ensures ApplyContingency(subtotal, contingencyPercent)
         == Round2(subtotal + subtotal * ((if contingencyPercent > 0.0 then contingencyPercent else 0.0) / 100.0))
  {
    var p := if contingencyPercent > 0.0 then contingencyPercent else 0.0;
    if contingencyPercent <= 0.0 {
      assert subtotal + subtotal * (p / 100.0) == subtotal;
      Round2Idempotent(subtotal);
    }
  }

  /** Contingency never lowers a rounded, non-negative subtotal. */
  lemma ContingencyNeverLowers(subtotal: real, contingencyPercent: real)
    requires Is2dp(subtotal) && subtotal >= 0.0
    ensures ApplyContingency(subtotal, contingencyPercent) >= subtotal
  {
    if contingencyPercent > 0.0 {
      Round2Idempotent(subtotal);
      MulNonNegative(subtotal, contingencyPercent / 100.0);
      Round2Monotone(subtotal, subtotal + subtotal * (contingencyPercent / 100.0));
    }
  }

  function Abs(x: real): real
  {
    if x < 0.0 then -x else x
  }

  /** `IsDeviation`: with no baseline, or a zero one, nothing deviates;
      otherwise a line deviates when its distance from the baseline, as a
      percentage of the baseline, reaches the threshold. For a positive
      baseline that is `|actual - average| * 100 >= threshold * average`. */
  function IsDeviation(averageSprints: Option<real>, actualSprints: real, thresholdPercent: real): (b: bool)
    ensures averageSprints.None? || averageSprints.value == 0.0 ==> !b
    ensures averageSprints.Some? && averageSprints.value > 0.0 ==>
              (b <==> Abs(actualSprints - averageSprints.value) * 100.0 >= thresholdPercent * averageSprints.value)
    ensures averageSprints.Some? && averageSprints.value < 0.0 ==>
              (b <==> Abs(actualSprints - averageSprints.value) * 100.0 <= thresholdPercent * averageSprints.value)
  {
    if averageSprints.None? || averageSprints.value == 0.0 then false
    else
      var avg := averageSprints.value;
      var delta := Abs(actualSprints - avg);
      var pct := (delta / avg) * 100.0;
      pct >= thresholdPercent
  }

  /** Deviation is symmetric: overshooting the baseline by `d` is flagged
      exactly when undershooting it by `d` is. */
  lemma DeviationSymmetric(average: Option<real>, d: real, thresholdPercent: real)
    requires average.Some?
    ensures IsDeviation(average, average.value + d, thresholdPercent) == IsDeviation(average, average.value - d, thresholdPercent)
  {
  }

  /** With the default threshold and a baseline of 10 sprints, 13 sprints
      (30% over) is flagged and 11 sprints (10% over) is not. */
  lemma DeviationExamples()
    ensures IsDeviation(Some(10.0), 13.0, DefaultDeviationThreshold)
    ensures !IsDeviation(Some(10.0), 11.0, DefaultDeviationThreshold)
    ensures !IsDeviation(None, 13.0, DefaultDeviationThreshold)
    ensures !IsDeviation(Some(0.0), 13.0, DefaultDeviationThreshold)
  {
  }
}
