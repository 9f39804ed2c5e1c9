/** The arithmetic of the CSV and PDF exports: the squad the estimate's
    resource rates make up, the per-row costs of the CSV, the quoting of CSV
    text fields, and the subtotals and total the PDF reports. */
module EstimateExport {
  import opened Wrappers
  import opened Money
  import opened Sums
  import opened Text
  import opened Lookup
  import opened Models
  import opened CostCalculator

  /** The rates of one resource type, in order (`Where(r => r.Type == t)`). */
  function OfType(rates: seq<ResourceRate>, t: ResourceType): (r: seq<ResourceRate>)
    ensures |r| <= |rates|
    ensures forall i :: 0 <= i < |r| ==> r[i].rtype == t
  {
    if |rates| == 0 then []
    else
      var rest := OfType(rates[1..], t);
      if rates[0].rtype == t then [rates[0]] + rest else rest
  }

  /** The filter keeps exactly the rates of the type. */
  lemma {:induction false} OfTypeMembers(rates: seq<ResourceRate>, t: ResourceType, x: ResourceRate)
    ensures x in OfType(rates, t) <==> x in rates && x.rtype == t
  {
    if |rates| > 0 {
      OfTypeMembers(rates[1..], t, x);
      assert x in rates <==> x == rates[0] || x in rates[1..];
    }
  }

  /** Every rate is of exactly one of the two types. */
  lemma {:induction false} OfTypeSplits(rates: seq<ResourceRate>, term: ResourceRate -> real)
    ensures |OfType(rates, FTE)| + |OfType(rates, Contractor)| == |rates|
    ensures Sum(OfType(rates, FTE), term) + Sum(OfType(rates, Contractor), term) == Sum(rates, term)
  {
    if |rates| > 0 {
      OfTypeSplits(rates[1..], term);
    }
  }

  function DailyRateTerm(): ResourceRate -> real
  {
    (r: ResourceRate) => r.dailyRate
  }

  /** `DefaultIfEmpty(new ResourceRate { DailyRate = 0 }).Average(r => r.DailyRate)`:
      the mean daily rate, or 0 when there are no rates. Counted once per
      rate, the mean gives back the total. */
  function MeanDailyRate(rates: seq<ResourceRate>): (m: real)
    ensures |rates| == 0 ==> m == 0.0
    ensures |rates| as real * m == Sum(rates, DailyRateTerm())
  {
    if |rates| == 0 then 0.0 else Sum(rates, DailyRateTerm()) / |rates| as real
  }

  /** The squad an estimate's rates make up: one head per rate, each type's
      daily rate the mean of that type's rates, over the estimate's sprint
      length. */
  function ComposeSquad(rates: seq<ResourceRate>, sprintDays: int): (squad: SquadComposition)
    ensures squad.sprintLengthDays == sprintDays
    ensures |rates| == 0 ==> squad == SquadComposition(0, 0, 0.0, 0.0, sprintDays)
    ensures squad.fteCount >= 0 && squad.contractorCount >= 0
    ensures squad.fteCount as real * squad.fteDailyRate == Sum(OfType(rates, FTE), DailyRateTerm())
    ensures squad.contractorCount as real * squad.contractorDailyRate == Sum(OfType(rates, Contractor), DailyRateTerm())
  {
    var fte := OfType(rates, FTE);
    var contractors := OfType(rates, Contractor);
    SquadComposition(|fte|, |contractors|, MeanDailyRate(fte), MeanDailyRate(contractors), sprintDays)
  }

  /** Every rate is one head of the squad. */
  lemma ComposeSquadHeadCount(rates: seq<ResourceRate>, sprintDays: int)
    ensures ComposeSquad(rates, sprintDays).fteCount + ComposeSquad(rates, sprintDays).contractorCount == |rates|
  {
    OfTypeSplits(rates, DailyRateTerm());
  }

  /** What one rate costs over a sprint of `days` days. */
  function SprintCostTerm(days: real): ResourceRate -> real
  {
    (r: ResourceRate) => r.dailyRate * days
  }

  /** Scaling a sum of daily rates is summing the scaled rates. */
  lemma {:induction false} SumScaled(rates: seq<ResourceRate>, days: real)
    ensures Sum(rates, DailyRateTerm()) * days == Sum(rates, SprintCostTerm(days))
  {
    if |rates| > 0 {
      SumScaled(rates[1..], days);
      var head, rest := rates[0].dailyRate, Sum(rates[1..], DailyRateTerm());
      assert (head + rest) * days == head * days + rest * days;
    }
  }

  /** Averaging per type loses nothing: the squad's cost per sprint is the
      `total` of every rate's daily rate over the sprint's `days`, rounded to
      the cent. */
  lemma SquadCostIsTotalDailyRate(rates: seq<ResourceRate>, sprintDays: int, days: real, total: real)
    requires days == sprintDays as real
    requires Sum(rates, DailyRateTerm()) == total
    ensures CalcSquadCostPerSprint(ComposeSquad(rates, sprintDays)) == Round2(total * days)
  {
    SquadDailyTotal(rates, sprintDays, total);
    SquadCostOfDailyTotal(ComposeSquad(rates, sprintDays), days, total);
  }

  /** The composed squad's head counts at their mean daily rates add up to
      the total of the rates' daily rates. */
  lemma SquadDailyTotal(rates: seq<ResourceRate>, sprintDays: int, total: real)
    requires Sum(rates, DailyRateTerm()) == total
    ensures DailyTotal(ComposeSquad(rates, sprintDays)) == total
  {
    SquadTypeTotals(rates, sprintDays, total);
  }

  /** `SquadDailyTotal` over the squad's fields. */
  lemma SquadTypeTotals(rates: seq<ResourceRate>, sprintDays: int, total: real)
    requires Sum(rates, DailyRateTerm()) == total
    ensures var squad := ComposeSquad(rates, sprintDays);
            squad.fteCount as real * squad.fteDailyRate + squad.contractorCount as real * squad.contractorDailyRate == total
  {
    OfTypeSplits(rates, DailyRateTerm());
  }

  /** What a squad costs a day: each type's head count at its daily rate. */
  function DailyTotal(squad: SquadComposition): real
  {
    squad.fteCount as real * squad.fteDailyRate + squad.contractorCount as real * squad.contractorDailyRate
  }

  /** A squad whose head counts at their daily rates add up to `total`
      costs `total` a day over the sprint. */
  lemma SquadCostOfDailyTotal(squad: SquadComposition, days: real, total: real)
    requires squad.sprintLengthDays as real == days
    requires DailyTotal(squad) == total
    ensures CalcSquadCostPerSprint(squad) == Round2(total * days)
  {
    SquadFields(squad, days);
    SquadCostOfTypes(squad.fteCount as real, squad.contractorCount as real, squad.fteDailyRate,
                     squad.contractorDailyRate, days, total);
  }

  /** A squad's cost is `SquadCost` of its fields: the calculator converts
      the counts and the sprint length to decimals before multiplying. */
  lemma SquadFields(squad: SquadComposition, days: real)
    requires squad.sprintLengthDays as real == days
    ensures CalcSquadCostPerSprint(squad)
         == SquadCost(squad.fteCount as real, squad.contractorCount as real, squad.fteDailyRate,
                      squad.contractorDailyRate, days)
  {
  }

  /** Any squad whose per-type daily costs add up to `total` costs `total`
      a day over the sprint. */
  lemma SquadCostOfTypes(fteCount: real, contractorCount: real, fteDailyRate: real, contractorDailyRate: real,
                         days: real, total: real)
    requires fteCount * fteDailyRate + contractorCount * contractorDailyRate == total
    ensures SquadCost(fteCount, contractorCount, fteDailyRate, contractorDailyRate, days) == Round2(total * days)
  {
    assert fteCount * fteDailyRate * days + contractorCount * contractorDailyRate * days == total * days by {
      assert (fteCount * fteDailyRate + contractorCount * contractorDailyRate) * days
          == fteCount * fteDailyRate * days + contractorCount * contractorDailyRate * days;
    }
    Round2Congruent(fteCount * fteDailyRate * days + contractorCount * contractorDailyRate * days, total * days);
  }

  /** The same, rate by rate: the squad's cost per sprint is what each rate
      costs over the sprint, summed and rounded to the cent. */
  lemma SquadCostIsSumOfRateCosts(rates: seq<ResourceRate>, sprintDays: int, days: real, rateCosts: real)
    requires days == sprintDays as real
    requires Sum(rates, SprintCostTerm(days)) == rateCosts
    ensures CalcSquadCostPerSprint(ComposeSquad(rates, sprintDays)) == Round2(rateCosts)
  {
    SumScaled(rates, days);
    ScaledTotal(rates, sprintDays, days, Sum(rates, DailyRateTerm()), rateCosts);
  }

  lemma ScaledTotal(rates: seq<ResourceRate>, sprintDays: int, days: real, total: real, rateCosts: real)
    requires days == sprintDays as real
    requires Sum(rates, DailyRateTerm()) == total
    requires total * days == rateCosts
    ensures CalcSquadCostPerSprint(ComposeSquad(rates, sprintDays)) == Round2(rateCosts)
  {
    SquadCostIsTotalDailyRate(rates, sprintDays, days, total);
    Round2Congruent(total * days, rateCosts);
  }

  /** `EscapeCsv`'s replacement of every `"` by `""`. */
  function DoubleQuotes(s: string): (r: string)
    ensures |r| >= |s|
    ensures '"' !in s ==> r == s
  {
    if |s| == 0 then []
    else if s[0] == '"' then "\"\"" + DoubleQuotes(s[1..])
    else [s[0]] + DoubleQuotes(s[1..])
  }

  /** `EscapeCsv`: the text between double quotes with every embedded
      quote doubled; a `null` title is an empty quoted field. */
  function EscapeCsv(s: Option<string>): (r: string)
    ensures |r| >= 2 && r[0] == '"' && r[|r| - 1] == '"'
    ensures s.None? ==> r == "\"\""
    ensures s.Some? ==> |r| >= |s.value| + 2
  {
    "\"" + (if s.Some? then DoubleQuotes(s.value) else "") + "\""
  }

  /** The reading of a quoted CSV field's body: a doubled quote stands for
      one quote, and a lone quote makes the body malformed. */
  function UndoubleQuotes(t: string): Option<string>
  {
    if |t| == 0 then Some([])
    else if t[0] != '"' then
      match UndoubleQuotes(t[1..])
      case Some(rest) => Some([t[0]] + rest)
      case None => None
    else if |t| >= 2 && t[1] == '"' then
      match UndoubleQuotes(t[2..])
      case Some(rest) => Some("\"" + rest)
      case None => None
    else None
  }

  /** The reading of a whole quoted CSV field. */
  function UnescapeCsv(field: string): Option<string>
  {
    if |field| >= 2 && field[0] == '"' && field[|field| - 1] == '"' then UndoubleQuotes(field[1..|field| - 1])
    else None
  }

  lemma {:induction false} UndoubleDoubled(s: string)
    ensures UndoubleQuotes(DoubleQuotes(s)) == Some(s)
  {
    if |s| > 0 {
      UndoubleDoubled(s[1..]);
      var rest := DoubleQuotes(s[1..]);
      if s[0] == '"' {
        assert ("\"\"" + rest)[2..] == rest;
        assert "\"" + s[1..] == s;
      } else {
        assert ([s[0]] + rest)[1..] == rest;
        assert [s[0]] + s[1..] == s;
      }
    }
  }

  /** Quoting loses nothing: a CSV reader recovers every title exactly. A
      `null` title reads back as an empty one. */
  lemma EscapeCsvRoundTrip(s: string)
    ensures UnescapeCsv(EscapeCsv(Some(s))) == Some(s)
    ensures UnescapeCsv(EscapeCsv(None)) == Some("")
  {
    var body := DoubleQuotes(s);
    var field := EscapeCsv(Some(s));
    assert field[1..|field| - 1] == body;
    UndoubleDoubled(s);
  }

  /** A row of the CSV export. */
  datatype CsvRow =
    | FunctionalRow(title: string, sprints: real, cost: real)
    | NonFunctionalRow(title: string, role: string, hours: real, cost: real)

  function RowCost(): CsvRow -> real
  {
    (row: CsvRow) => row.cost
  }

  /** A functional line's row: the quoted title, the line's sprints, and
      their cost at the squad's cost per sprint, not rounded; rounded to the
      cent that cost is the calculator's line cost. */
  function FunctionalRowOf(f: FunctionalLineItem, squadPerSprint: real): (row: CsvRow)
    ensures row.FunctionalRow? && UnescapeCsv(row.title) == Some(f.title) && row.sprints == f.sprints
    ensures Round2(row.cost) == CalcFunctionalLineCost(f.sprints, squadPerSprint)
  {
    EscapeCsvRoundTrip(f.title);
    RowFor(EscapeCsv(Some(f.title)), f.sprints, squadPerSprint)
  }

  /** The role an allocation's row shows: the target of the first mapping
      for its role, unless that target is blank. It is the role the
      calculator prices the allocation under. */
  function CsvRole(a: ResourceAllocation, mappings: seq<RoleMapping>): (role: string)
    ensures role == EffectiveRole(a.role, Some(mappings))
  {
    var mapping := FirstMatch(mappings, SourceRoleIs(a.role));
    if mapping.Some? && !IsBlank(mapping.value.targetRole) then mapping.value.targetRole else a.role
  }

  /** An allocation's row cost: its hours at the hourly price of the first
      rate under its shown role, or nothing when there is none. Not
      rounded. It equals the calculator's contribution of the allocation. */
  function CsvAllocationCost(a: ResourceAllocation, rates: seq<ResourceRate>, mappings: seq<RoleMapping>): (c: real)
    ensures c == AllocationCost(a, rates, Some(mappings))
  {
    var rate := FindRateByRole(rates, CsvRole(a, mappings));
    assert AllocationCost(a, rates, Some(mappings)) == PricedHours(a.hours, rate);
    CsvPricedHours(a.hours, rate)
  }

  /** Program.cs's inline pricing of hours: the rate's hourly rate when
      positive, else its daily rate over eight hours, or nothing without a
      rate. It agrees with the calculator's. */
  function CsvPricedHours(hours: real, rate: Option<ResourceRate>): (c: real)
    ensures c == PricedHours(hours, rate)
  {
    var hourly := if rate.Some? then (if rate.value.hourlyRate > 0.0 then rate.value.hourlyRate else rate.value.dailyRate / 8.0)
                  else 0.0;
    assert rate.Some? ==> hourly == HourlyRate(rate.value);
    hours * hourly
  }

  /** The export and the calculator price an allocation the same way: the
      row cost is the calculator's unrounded contribution of the allocation
      under the estimate's mappings. */
  lemma CsvAllocationCostAgrees(a: ResourceAllocation, rates: seq<ResourceRate>, mappings: seq<RoleMapping>)
    ensures CsvRole(a, mappings) == EffectiveRole(a.role, Some(mappings))
    ensures CsvAllocationCost(a, rates, mappings) == AllocationCost(a, rates, Some(mappings))
  {
  }

  /** What an allocation's row shows: the item's title, the role the
      allocation is priced under, its hours, and the calculator's unrounded
      cost of it. */
  predicate ShowsAllocation(row: CsvRow, title: string, a: ResourceAllocation, rates: seq<ResourceRate>,
                            mappings: seq<RoleMapping>)
  {
    && row.NonFunctionalRow? && UnescapeCsv(row.title) == Some(title)
    && row.role == EffectiveRole(a.role, Some(mappings))
    && row.hours == a.hours
    && row.cost == AllocationCost(a, rates, Some(mappings))
  }

  /** An allocation's row: the item's quoted title, the shown role, the
      hours and their unrounded cost. */
  function AllocationRowOf(title: string, a: ResourceAllocation, rates: seq<ResourceRate>,
                           mappings: seq<RoleMapping>): (row: CsvRow)
    ensures ShowsAllocation(row, title, a, rates, mappings)
  {
    EscapeCsvRoundTrip(title);
    NonFunctionalRow(EscapeCsv(Some(title)), CsvRole(a, mappings), a.hours, CsvAllocationCost(a, rates, mappings))
  }

  /** The rows of a non-functional item, one per allocation in order, priced
      or not. */
  function AllocationRows(title: string, allocs: seq<ResourceAllocation>, rates: seq<ResourceRate>,
                          mappings: seq<RoleMapping>): (rows: seq<CsvRow>)
    ensures |rows| == |allocs|
    ensures forall i :: 0 <= i < |allocs| ==> ShowsAllocation(rows[i], title, allocs[i], rates, mappings)
  {
    seq(|allocs|, i requires 0 <= i < |allocs| => AllocationRowOf(title, allocs[i], rates, mappings))
  }

  lemma {:induction false} AllocationRowsSum(title: string, allocs: seq<ResourceAllocation>, rates: seq<ResourceRate>,
                                             mappings: seq<RoleMapping>)
    ensures Sum(AllocationRows(title, allocs, rates, mappings), RowCost())
         == Sum(allocs, AllocationTerm(rates, Some(mappings)))
  {
    if |allocs| > 0 {
      var rows := AllocationRows(title, allocs, rates, mappings);
      AllocationRowsSum(title, allocs[1..], rates, mappings);
      assert rows[1..] == AllocationRows(title, allocs[1..], rates, mappings);
      assert rows[0].cost == AllocationTerm(rates, Some(mappings))(allocs[0]);
    }
  }

  /** The CSV and the calculator agree on every item: its rows' costs,
      summed and rounded to the cent, are the item's cost. */
  lemma CsvRowsMatchItemCost(item: NonFunctionalItem, rates: seq<ResourceRate>, mappings: seq<RoleMapping>)
    ensures Round2(Sum(AllocationRows(item.title, item.allocations, rates, mappings), RowCost()))
         == CalcNonFunctionalCost(item, rates, Some(mappings))
  {
    AllocationRowsSum(item.title, item.allocations, rates, mappings);
  }

  /** A functional row for `sprints` at `q` a sprint. */
  function RowFor(title: string, sprints: real, q: real): (row: CsvRow)
    ensures row.FunctionalRow? && row.title == title && row.sprints == sprints
    ensures Round2(row.cost) == CalcFunctionalLineCost(sprints, q)
  {
    LineCostRounds(sprints, q);
    FunctionalRow(title, sprints, sprints * q)
  }

  lemma LineCostRounds(sprints: real, q: real)
    ensures CalcFunctionalLineCost(sprints, q) == Round2(sprints * q)
  {
  }

  /** A functional row's cost, rounded to the cent, is the line's cost. */
  lemma CsvRowMatchesLineCost(f: FunctionalLineItem, squadPerSprint: real)
    ensures Round2(FunctionalRowOf(f, squadPerSprint).cost) == CalcFunctionalLineCost(f.sprints, squadPerSprint)
  {
    LineCostRounds(f.sprints, squadPerSprint);
    Round2Congruent(FunctionalRowOf(f, squadPerSprint).cost, f.sprints * squadPerSprint);
  }

  /** The rows of the functional lines, one per line in order: the line's
      title, its sprints, and a cost that rounds to the line's cost. */
  function FunctionalRows(items: seq<FunctionalLineItem>, squadPerSprint: real): (rows: seq<CsvRow>)
    ensures |rows| == |items|
    ensures forall i :: 0 <= i < |items| ==>
              && rows[i].FunctionalRow? && UnescapeCsv(rows[i].title) == Some(items[i].title)
              && rows[i].sprints == items[i].sprints
              && Round2(rows[i].cost) == CalcFunctionalLineCost(items[i].sprints, squadPerSprint)
  {
    seq(|items|, i requires 0 <= i < |items| => FunctionalRowOf(items[i], squadPerSprint))
  }

  /** How many allocations the items have between them. */
  function AllocationCount(items: seq<NonFunctionalItem>): nat
  {
    if |items| == 0 then 0 else |items[0].allocations| + AllocationCount(items[1..])
  }

  /** An item's cost before rounding: its allocations' contributions summed. */
  function UnroundedItemTerm(rates: seq<ResourceRate>, mappings: seq<RoleMapping>): NonFunctionalItem -> real
  {
    (n: NonFunctionalItem) => Sum(n.allocations, AllocationTerm(rates, Some(mappings)))
  }

  /** The rows of the non-functional items: one row per allocation, item by
      item. Their costs add up to the items' unrounded costs. */
  function NonFunctionalRows(items: seq<NonFunctionalItem>, rates: seq<ResourceRate>, mappings: seq<RoleMapping>): (rows: seq<CsvRow>)
    ensures |rows| == AllocationCount(items)
    ensures AllNonFunctional(rows)
    ensures Sum(rows, RowCost()) == Sum(items, UnroundedItemTerm(rates, mappings))
    ensures |items| == 0 ==> rows == []
    ensures |items| == 1 ==> rows == AllocationRows(items[0].title, items[0].allocations, rates, mappings)
  {
    if |items| == 0 then []
    else
      var first := AllocationRows(items[0].title, items[0].allocations, rates, mappings);
      var rest := NonFunctionalRows(items[1..], rates, mappings);
      AllocationRowsSum(items[0].title, items[0].allocations, rates, mappings);
      NonFunctionalRowsStep(first, rest, UnroundedItemTerm(rates, mappings)(items[0]));
      first + rest
  }

  /** The items are written one after another: the rows of a split list are
      the rows of its parts, in order. With the single-item case above, this
      fixes which item and allocation every row shows. */
  lemma NonFunctionalRowsConcat(a: seq<NonFunctionalItem>, b: seq<NonFunctionalItem>,
                                rates: seq<ResourceRate>, mappings: seq<RoleMapping>)
    ensures NonFunctionalRows(a + b, rates, mappings)
         == NonFunctionalRows(a, rates, mappings) + NonFunctionalRows(b, rates, mappings)
  {
    RowsOfItemsConcat(a, b, rates, mappings);
    NonFunctionalRowsAreRowsOfItems(a + b, rates, mappings);
    NonFunctionalRowsAreRowsOfItems(a, rates, mappings);
    NonFunctionalRowsAreRowsOfItems(b, rates, mappings);
  }

  /** Each item's allocation rows, item after item. */
  function RowsOfItems(items: seq<NonFunctionalItem>, rates: seq<ResourceRate>, mappings: seq<RoleMapping>): seq<CsvRow>
  {
    if |items| == 0 then []
    else AllocationRows(items[0].title, items[0].allocations, rates, mappings) + RowsOfItems(items[1..], rates, mappings)
  }

  lemma {:induction false} RowsOfItemsConcat(a: seq<NonFunctionalItem>, b: seq<NonFunctionalItem>,
                                             rates: seq<ResourceRate>, mappings: seq<RoleMapping>)
    ensures RowsOfItems(a + b, rates, mappings) == RowsOfItems(a, rates, mappings) + RowsOfItems(b, rates, mappings)
  {
    if |a| == 0 {
      assert a + b == b;
    } else {
      assert (a + b)[0] == a[0] && (a + b)[1..] == a[1..] + b;
      RowsOfItemsConcat(a[1..], b, rates, mappings);
    }
  }

  lemma {:induction false} NonFunctionalRowsAreRowsOfItems(items: seq<NonFunctionalItem>, rates: seq<ResourceRate>,
                                                           mappings: seq<RoleMapping>)
    ensures NonFunctionalRows(items, rates, mappings) == RowsOfItems(items, rates, mappings)
  {
    if |items| > 0 {
      NonFunctionalRowsAreRowsOfItems(items[1..], rates, mappings);
      NonFunctionalRowsCons(items, rates, mappings);
    }
  }

  /** The first item's rows come first. */
  lemma NonFunctionalRowsCons(items: seq<NonFunctionalItem>, rates: seq<ResourceRate>, mappings: seq<RoleMapping>)
    requires |items| > 0
    ensures NonFunctionalRows(items, rates, mappings)
         == AllocationRows(items[0].title, items[0].allocations, rates, mappings)
            + NonFunctionalRows(items[1..], rates, mappings)
  {
  }

  /** Every row is a non-functional row. */
  predicate AllNonFunctional(rows: seq<CsvRow>)
  {
    forall i :: 0 <= i < |rows| ==> rows[i].NonFunctionalRow?
  }

  /** One item's allocation rows in front of the later items' rows. */
  lemma NonFunctionalRowsStep(first: seq<CsvRow>, rest: seq<CsvRow>, firstCost: real)
    requires forall i :: 0 <= i < |first| ==> first[i].NonFunctionalRow?
    requires AllNonFunctional(rest)
    requires Sum(first, RowCost()) == firstCost
    ensures AllNonFunctional(first + rest)
    ensures Sum(first + rest, RowCost()) == firstCost + Sum(rest, RowCost())
  {
    SumConcat(first, rest, RowCost());
    var rows := first + rest;
    forall i | 0 <= i < |rows|
      ensures rows[i].NonFunctionalRow?
    {
      if i < |first| {
        assert rows[i] == first[i];
      } else {
        assert rows[i] == rest[i - |first|];
      }
    }
  }

  /** The export's CSV rows: each functional line, then each non-functional
      item's allocations, in order. */
  function CsvRows(e: Estimate): (rows: seq<CsvRow>)
    ensures |rows| == |e.functionalItems| + AllocationCount(e.nonFunctionalItems)
    ensures var squad := CalcSquadCostPerSprint(ComposeSquad(e.resourceRates, e.sprintLengthDays));
            rows[..|e.functionalItems|] == FunctionalRows(e.functionalItems, squad)
    ensures rows[|e.functionalItems|..] == NonFunctionalRows(e.nonFunctionalItems, e.resourceRates, e.roleMappings)
  {
    var squad := CalcSquadCostPerSprint(ComposeSquad(e.resourceRates, e.sprintLengthDays));
    var fr := FunctionalRows(e.functionalItems, squad);
    var nr := NonFunctionalRows(e.nonFunctionalItems, e.resourceRates, e.roleMappings);
    assert (fr + nr)[..|fr|] == fr && (fr + nr)[|fr|..] == nr;
    fr + nr
  }

  /** A row's cost rounded to the cent. */
  function RoundedRowCost(): CsvRow -> real
  {
    (row: CsvRow) => Round2(row.cost)
  }

  /** An item's cost as its CSV rows give it: their costs summed and rounded. */
  function RowsItemTerm(rates: seq<ResourceRate>, mappings: seq<RoleMapping>): NonFunctionalItem -> real
  {
    (n: NonFunctionalItem) => Round2(Sum(AllocationRows(n.title, n.allocations, rates, mappings), RowCost()))
  }

  /** What the PDF export reports. */
  datatype EstimateTotals = EstimateTotals(
    squadPerSprint: real,
    functionalSubtotal: real,
    nonFunctionalSubtotal: real,
    total: real)

  function FunctionalTerm(squadPerSprint: real): FunctionalLineItem -> real
  {
    (f: FunctionalLineItem) => CalcFunctionalLineCost(f.sprints, squadPerSprint)
  }

  function NonFunctionalTerm(rates: seq<ResourceRate>, mappings: seq<RoleMapping>): NonFunctionalItem -> real
  {
    (n: NonFunctionalItem) => CalcNonFunctionalCost(n, rates, Some(mappings))
  }

  /** The PDF export's figures: the squad's cost per sprint; the functional
      subtotal, the lines' costs at that rate summed; the non-functional
      subtotal, the items' costs summed; and the total, contingency applied
      to their sum. Each subtotal is a sum of costs already rounded per line
      or item, so it is exact to the cent with no further rounding. */
  function ComputeTotals(e: Estimate, mappings: seq<RoleMapping>): (t: EstimateTotals)
    ensures t.squadPerSprint == CalcSquadCostPerSprint(ComposeSquad(e.resourceRates, e.sprintLengthDays))
    ensures t.functionalSubtotal == Sum(e.functionalItems, FunctionalTerm(t.squadPerSprint))
    ensures t.nonFunctionalSubtotal == Sum(e.nonFunctionalItems, NonFunctionalTerm(e.resourceRates, mappings))
    ensures Is2dp(t.functionalSubtotal) && Is2dp(t.nonFunctionalSubtotal) && Is2dp(t.total)
    ensures ContingencyApplied(t, e.contingencyPercent)
    ensures t.functionalSubtotal >= 0.0 && t.nonFunctionalSubtotal >= 0.0 ==>
              t.total >= t.functionalSubtotal + t.nonFunctionalSubtotal
  {
    var squad := CalcSquadCostPerSprint(ComposeSquad(e.resourceRates, e.sprintLengthDays));
    var fs := Sum(e.functionalItems, FunctionalTerm(squad));
    var nfs := Sum(e.nonFunctionalItems, NonFunctionalTerm(e.resourceRates, mappings));
    FunctionalSubtotal2dp(e.functionalItems, squad);
    NonFunctionalSubtotal2dp(e.nonFunctionalItems, e.resourceRates, mappings);
    TotalsOf(squad, fs, nfs, e.contingencyPercent)
  }

  /** The total is the contingency applied to the two subtotals' sum. */
  predicate ContingencyApplied(t: EstimateTotals, contingencyPercent: real)
  {
    t.total == ApplyContingency(t.functionalSubtotal + t.nonFunctionalSubtotal, contingencyPercent)
  }

  /** The figures from the squad rate and two subtotals exact to the cent. */
  function TotalsOf(squad: real, fs: real, nfs: real, contingencyPercent: real): (t: EstimateTotals)
    requires Is2dp(fs) && Is2dp(nfs)
    ensures t.squadPerSprint == squad && t.functionalSubtotal == fs && t.nonFunctionalSubtotal == nfs
    ensures ContingencyApplied(t, contingencyPercent)
    ensures Is2dp(t.total)
    ensures t.functionalSubtotal >= 0.0 && t.nonFunctionalSubtotal >= 0.0 ==>
              t.total >= t.functionalSubtotal + t.nonFunctionalSubtotal
  {
    Sum2dp(fs, nfs);
    if fs >= 0.0 && nfs >= 0.0 then
      ContingencyNeverLowers(fs + nfs, contingencyPercent);
      EstimateTotals(squad, fs, nfs, ApplyContingency(fs + nfs, contingencyPercent))
    else EstimateTotals(squad, fs, nfs, ApplyContingency(fs + nfs, contingencyPercent))
  }

  /** The CSV and the PDF agree on the functional lines: the functional
      rows' costs, each rounded to the cent, add up to the PDF's functional
      subtotal. */
  lemma {:induction false} FunctionalRowsMatchSubtotal(items: seq<FunctionalLineItem>, squadPerSprint: real)
    ensures Sum(FunctionalRows(items, squadPerSprint), RoundedRowCost()) == Sum(items, FunctionalTerm(squadPerSprint))
  {
    if |items| > 0 {
      var rows := FunctionalRows(items, squadPerSprint);
      FunctionalRowsMatchSubtotal(items[1..], squadPerSprint);
      assert rows[1..] == FunctionalRows(items[1..], squadPerSprint);
      assert RoundedRowCost()(rows[0]) == FunctionalTerm(squadPerSprint)(items[0]);
    }
  }

  /** The CSV and the PDF agree on the non-functional items when the PDF is
      given the estimate's role mappings: each item's rows, summed and
      rounded to the cent, add up to the PDF's non-functional subtotal. */
  lemma NonFunctionalRowsMatchSubtotal(items: seq<NonFunctionalItem>, rates: seq<ResourceRate>, mappings: seq<RoleMapping>)
    ensures Sum(items, RowsItemTerm(rates, mappings)) == Sum(items, NonFunctionalTerm(rates, mappings))
  {
    forall i | 0 <= i < |items|
      ensures RowsItemTerm(rates, mappings)(items[i]) == NonFunctionalTerm(rates, mappings)(items[i])
    {
      CsvRowsMatchItemCost(items[i], rates, mappings);
    }
    SumCongruent(items, RowsItemTerm(rates, mappings), NonFunctionalTerm(rates, mappings));
  }

  /** Non-functional rows read back item by item: each item takes as many
      rows as it has allocations, each group's costs are summed and rounded
      to the cent, and the results are added up. */
  function ItemGroupsCost(rows: seq<CsvRow>, items: seq<NonFunctionalItem>): real
    decreases |items|
  {
    if |items| == 0 then 0.0
    else
      var n := if |items[0].allocations| <= |rows| then |items[0].allocations| else |rows|;
      Round2(Sum(rows[..n], RowCost())) + ItemGroupsCost(rows[n..], items[1..])
  }

  /** Grouping the rows of the items by their allocation counts gives back
      each item's rows. */
  lemma {:induction false} GroupsOfRowsOfItems(items: seq<NonFunctionalItem>, rates: seq<ResourceRate>,
                                               mappings: seq<RoleMapping>)
    ensures ItemGroupsCost(RowsOfItems(items, rates, mappings), items) == Sum(items, RowsItemTerm(rates, mappings))
  {
    if |items| > 0 {
      var first := AllocationRows(items[0].title, items[0].allocations, rates, mappings);
      var rest := RowsOfItems(items[1..], rates, mappings);
      assert (first + rest)[..|first|] == first && (first + rest)[|first|..] == rest;
      GroupsOfRowsOfItems(items[1..], rates, mappings);
    }
  }

  /** The PDF's subtotals, from the CSV's rows: the functional subtotal is
      the functional rows' rounded costs summed, and with the estimate's
      own mappings the non-functional subtotal is the non-functional rows,
      grouped item by item, each group summed and rounded, added up. */
  lemma PdfMatchesCsv(e: Estimate)
    ensures var t := ComputeTotals(e, e.roleMappings);
            var rows := CsvRows(e);
            && t.functionalSubtotal == Sum(rows[..|e.functionalItems|], RoundedRowCost())
            && t.nonFunctionalSubtotal == ItemGroupsCost(rows[|e.functionalItems|..], e.nonFunctionalItems)
            && t.nonFunctionalSubtotal == Sum(e.nonFunctionalItems, RowsItemTerm(e.resourceRates, e.roleMappings))
  {
    var t := ComputeTotals(e, e.roleMappings);
    FunctionalRowsMatchSubtotal(e.functionalItems, t.squadPerSprint);
    NonFunctionalRowsMatchSubtotal(e.nonFunctionalItems, e.resourceRates, e.roleMappings);
    NonFunctionalRowsAreRowsOfItems(e.nonFunctionalItems, e.resourceRates, e.roleMappings);
    GroupsOfRowsOfItems(e.nonFunctionalItems, e.resourceRates, e.roleMappings);
  }

  /** Line costs are rounded to the cent, so their sum is exact to the cent. */
  lemma FunctionalSubtotal2dp(items: seq<FunctionalLineItem>, squadPerSprint: real)
    ensures Is2dp(Sum(items, FunctionalTerm(squadPerSprint)))
  {
    var term := FunctionalTerm(squadPerSprint);
    forall i | 0 <= i < |items|
      ensures Is2dp(term(items[i]))
    {
      assert term(items[i]) == CalcFunctionalLineCost(items[i].sprints, squadPerSprint);
    }
    SumOfRoundedIs2dp(items, term);
  }

  /** Item costs are rounded to the cent, so their sum is exact to the cent. */
  lemma NonFunctionalSubtotal2dp(items: seq<NonFunctionalItem>, rates: seq<ResourceRate>, mappings: seq<RoleMapping>)
    ensures Is2dp(Sum(items, NonFunctionalTerm(rates, mappings)))
  {
    var term := NonFunctionalTerm(rates, mappings);
    forall i | 0 <= i < |items|
      ensures Is2dp(term(items[i]))
    {
      assert term(items[i]) == CalcNonFunctionalCost(items[i], rates, Some(mappings));
    }
    SumOfRoundedIs2dp(items, term);
  }

  /** One full-time rate of 1 a day over a one-day sprint costs 1 a sprint. */
  lemma OneRateSquad()
    ensures CalcSquadCostPerSprint(ComposeSquad([ResourceRate("Dev", FTE, 1.0, 0.0, None)], 1)) == 1.0
  {
    var rates := [ResourceRate("Dev", FTE, 1.0, 0.0, None)];
    assert Sum(rates, DailyRateTerm()) == 1.0;
    SquadCostIsTotalDailyRate(rates, 1, 1.0, 1.0);
    Round2Idempotent(1.0);
  }

  /** Half a sprint's cent rounds to nothing; two of them to a cent. */
  lemma HalfCentRounding()
    ensures CalcFunctionalLineCost(0.005, 1.0) == 0.0
    ensures Round2(0.005 * 2.0) == 0.01
  {
    LineCostRounds(0.005, 1.0);
    Round2Unique(0.005, 0.0);
    Round2Idempotent(0.01);
  }

  /** The functional subtotal is a sum of rounded line costs, not a rounded
      sum: with a squad costing 1 per sprint, two lines of half a cent each
      add up to nothing, where rounding their sum would give a cent. The
      one-FTE squad of `OneRateSquad` is such a squad. */
  lemma SubtotalRoundsPerLine(e: Estimate, mappings: seq<RoleMapping>)
    requires CalcSquadCostPerSprint(ComposeSquad(e.resourceRates, e.sprintLengthDays)) == 1.0
    requires |e.functionalItems| == 2
    requires e.functionalItems[0].sprints == 0.005 && e.functionalItems[1].sprints == 0.005
    ensures ComputeTotals(e, mappings).functionalSubtotal == 0.0
    ensures Round2((e.functionalItems[0].sprints + e.functionalItems[1].sprints) * 1.0) == 0.01
  {
    HalfCentRounding();
    SumPair(e.functionalItems[0], e.functionalItems[1], FunctionalTerm(1.0));
    assert e.functionalItems == [e.functionalItems[0], e.functionalItems[1]];
  }

}
