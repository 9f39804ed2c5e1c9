# Software estimator cost engine, in Dafny

A model of the cost engine of the software estimator, with proofs about it. The estimator is an ASP.NET application. A delivery team prices a piece of work with it as:

- functional line items, measured in sprints and costed against the squad's cost per sprint or against the resources assigned to the line;
- non-functional items, measured in hours per role and costed at role rates;
- a contingency percentage on top.

The model covers:

- **The cost calculator** (`CostCalculator`):
  - the squad's cost per sprint;
  - the functional line cost on the squad basis;
  - the non-functional item cost, with role mapping and hourly pricing;
  - contingency;
  - the deviation flag.
- **The assignment basis of a functional line** (`AssignmentCost`). Each assigned resource key is priced at its rate's daily rate over the line's days, at its clamped utilisation. The total is rounded once.
- **The legacy assignment migration** (`AssignmentMigration`). It rewrites `"1,2"` or `"1:100,2:50"` text, in which numbers are static resource numbers, into a case-insensitive key-to-percent dictionary, and stores that dictionary's encoding as the line's new text. The number-to-key map and the encoding are inputs.
- **The team configuration queries** (`TeamConfig`):
  - lookup by id, ignoring case;
  - the active-team filter;
  - the check of role requirements against a team.

  The loaded team list is an input.
- **The arithmetic of the CSV and PDF exports** (`EstimateExport`):
  - the squad the estimate's rates make up, using per-type mean daily rates;
  - the CSV row costs and the quoting of CSV fields;
  - the PDF's subtotals and total.

Supporting modules model the .NET behaviour these rely on:

- `Money`: `decimal` as exact reals, and `Decimal.Round(x, 2)` as round-half-to-even.
- `Text`: ordinal case-insensitive comparison, white space, `Trim` and `Split` with `RemoveEmptyEntries | TrimEntries`.
- `Numbers`: `int.TryParse` and `int.ToString`.
- `CaseInsensitiveMap`: a `Dictionary` with `StringComparer.OrdinalIgnoreCase`.
- `Lookup`: `FirstOrDefault`.
- `Sums`: LINQ `Sum` and the accumulating loops.

Two behaviours of the migration need spelling out:

- **Duplicate resource numbers.** The reverse map is built with `ToDictionary` (`AssignmentMigrationService.cs:16`), and `ToDictionary` throws when two resource keys carry the same number. In that case `AssignmentMigration.MigrateAssignments` returns `DuplicateNumber(n)`. The `null` check on the estimate collection comes first (line 14). A `null` collection is therefore left alone, even when the numbers repeat.
- **The stored assignment text.** The migration assigns the new dictionary to `AssignedResources` (line 52). That property's setter re-encodes the dictionary into `AssignedResourceIds`: after migrating `"1,2"`, `AssignmentTests.cs:73` expects `key:percent` text. The property's definition is not part of this model. The model takes the encoding as a parameter (`AssignmentMigration.Encoder`), and a migrated line stores the encoding of its new dictionary as its text.

The PDF route loads the estimate's resource rates but not its role mappings, unlike the CSV route. `EstimateExport.ComputeTotals` therefore takes the mappings as a parameter. It is correct for whatever collection the route ends up passing: the loaded mappings, or an empty collection.

## Model

| member | source | states |
|---|---|---|
| Money.Round2 | software-estimator/Services/CostCalculator.cs:22 | `Decimal.Round(x, 2)`: the result has two decimals, lies within half a cent of `x`, and on an exact tie has an even number of cents |
| Money.Round2Unique | software-estimator/Services/CostCalculator.cs:22 | any two-decimal amount within half a cent of `x`, even on a tie, is `Round2(x)`; the contract therefore defines banker's rounding on its own |
| Money.Round2Idempotent | software-estimator/Services/CostCalculator.cs:54 | rounding an amount that already has two decimals changes nothing |
| Money.Round2Monotone | software-estimator/Services/CostCalculator.cs:47 | rounding preserves the order of amounts |
| Money.Round2Negate | software-estimator/Services/CostCalculator.cs:47 | round-half-to-even is symmetric about zero: `Round2(-x) == -Round2(x)` |
| Money.Sum2dp | software-estimator/Program.cs:225 | the sum of two two-decimal amounts has two decimals |
| Money.SumOfRoundedIs2dp | software-estimator/Program.cs:223-224 | a sum of two-decimal terms has two decimals, so the PDF subtotals need no further rounding |
| Money.ClampPercent | software-estimator/Services/AssignmentMigrationService.cs:35 | `Math.Clamp(v, 0, 100)`: the result lies in [0, 100], equals `v` inside that range, and is the nearer bound outside it |
| Sums.SumConcat | software-estimator/Program.cs:223 | the sum over a concatenation is the sum of the sums over the parts |
| Sums.SumRemove | software-estimator/Services/AssignmentCostHelper.cs:18-26 | removing one element removes exactly its term from the sum |
| Sums.SumPermutation | software-estimator/Services/CostCalculator.cs:33-46 | the sum depends only on the multiset of elements, not on their order |
| Sums.SumPair | software-estimator/Program.cs:223 | the sum over two elements is their two terms added |
| Sums.SumCongruent | software-estimator/Program.cs:223 | terms that agree on every element give equal sums |
| Sums.SumNonNegative | software-estimator/Services/CostCalculator.cs:45 | a sum of non-negative terms is non-negative |
| Lookup.FirstMatch | software-estimator/Services/TeamConfigService.cs:93 | `FirstOrDefault(p)`: no result exactly when no element satisfies `p`; a result is an element that satisfies `p` |
| Lookup.FirstMatchIsFirst | software-estimator/Services/TeamConfigService.cs:93 | the result is the first element that satisfies `p` |
| Lookup.FirstMatchConcat | software-estimator/Services/CostCalculator.cs:38 | a search of `a + b` finds the hit in `a` if there is one, else the search of `b` |
| Text.FoldIdempotent | software-estimator/Services/TeamConfigService.cs:93 | folding twice is folding once |
| Text.EqualsIgnoreCaseIff | software-estimator/Services/CostCalculator.cs:38 | ordinal case-insensitive equality holds exactly when the strings have the same length and agree character by character up to letter case |
| Text.EqualsIgnoreCaseLetters | software-estimator/Services/TeamConfigService.cs:120 | strings of equal length that differ only in letter case compare equal ignoring case |
| Text.WhiteSpaceTable | software-estimator/Services/AssignmentMigrationService.cs:22 | `char.IsWhiteSpace` accepts exactly the 25 listed characters |
| Text.NullOrWhiteSpaceTrims | software-estimator/Services/AssignmentMigrationService.cs:22 | `string.IsNullOrWhiteSpace` holds exactly of `null` and of the strings that trim to nothing |
| Text.TrimStart | software-estimator/Services/AssignmentMigrationService.cs:46 | the result is a suffix, everything dropped is white space, and the result does not start with white space |
| Text.TrimEnd | software-estimator/Services/AssignmentMigrationService.cs:46 | the result is a prefix, everything dropped is white space, and the result does not end with white space |
| Text.Trim | software-estimator/Services/AssignmentMigrationService.cs:46 | the result has no white space at either end and is empty exactly when the input is blank; `Text.TrimSlice` places it inside the input |
| Text.TrimSlice | software-estimator/Services/AssignmentMigrationService.cs:46 | the trimmed string is a slice of the input with only white space before and after it: the input minus its white-space ends |
| Text.TrimUnique | software-estimator/Services/AssignmentMigrationService.cs:46 | a trimmed string padded with white space on both sides trims back to itself, so the slice is unique |
| Text.TrimIdempotent | software-estimator/Services/AssignmentMigrationService.cs:46 | trimming a trimmed string changes nothing |
| Text.TrimAvoids | software-estimator/Services/AssignmentMigrationService.cs:24 | trimming introduces no character |
| Text.SplitOn | software-estimator/Services/AssignmentMigrationService.cs:24 | rejoining the pieces with the separator gives back the input, and no piece contains the separator |
| Text.SplitOnNoSep | software-estimator/Services/AssignmentMigrationService.cs:28 | text without the separator is one piece |
| Text.SplitOnSep | software-estimator/Services/AssignmentMigrationService.cs:24 | splitting at the first separator gives the part before it, then the split of the rest |
| Text.SplitOnConcat | software-estimator/Services/AssignmentMigrationService.cs:24 | the pieces of `a + sep + b` are the pieces of `a` followed by the pieces of `b` |
| Text.NonEmptyTrimmed | software-estimator/Services/AssignmentMigrationService.cs:24 | the entries left by `RemoveEmptyEntries \| TrimEntries` are non-empty and trimmed; one piece gives nothing when blank, else its trimmed self |
| Text.NonEmptyTrimmedConcat | software-estimator/Services/AssignmentMigrationService.cs:24 | the entries are processed one by one in order: dropping and trimming distributes over concatenation |
| Text.NonEmptyTrimmedAvoids | software-estimator/Services/AssignmentMigrationService.cs:24 | dropping and trimming entries introduces no character |
| Text.Tokens | software-estimator/Services/AssignmentMigrationService.cs:28 | every token is non-empty, trimmed and free of the separator; text without the separator gives nothing when blank, else its trimmed self |
| Text.TokensConcat | software-estimator/Services/AssignmentMigrationService.cs:24 | the tokens of `a + sep + b` are the tokens of `a` followed by the tokens of `b`; with `Text.Tokens` this fixes the tokens of every text |
| Text.SingleToken | software-estimator/Services/AssignmentMigrationService.cs:28 | a trimmed, separator-free, non-empty text is its own only token |
| Text.TwoTokens | software-estimator/Services/AssignmentMigrationService.cs:24 | two such texts joined by the separator are exactly its two tokens |
| Numbers.ParseInt32 | software-estimator/Services/AssignmentMigrationService.cs:30 | `int.TryParse` succeeds exactly on an optional sign followed by one or more digits whose value lies in the 32-bit range, and then yields that value; ASCII white space may come before the number, and after it ASCII white space followed by a run of U+0000 characters |
| Numbers.PaddedNumber | software-estimator/Services/AssignmentMigrationService.cs:30 | leading white space, and trailing white space followed by U+0000 characters, do not change what a token parses as |
| Numbers.PaddingExamples | software-estimator/Services/AssignmentMigrationService.cs:30 | " 7\t" parses as 7 and "1 \0\0" as 1 |
| Numbers.NulBeforeWhiteRefused | software-estimator/Services/AssignmentMigrationService.cs:30 | "1\0 " does not parse: U+0000 may only end the text |
| Numbers.LeadingZeros | software-estimator/Services/AssignmentMigrationService.cs:30 | leading zeros do not change the value of a digit string |
| Numbers.ParseExamples | software-estimator/Services/AssignmentMigrationService.cs:30 | "+5" parses as 5, "007" as 7 and "-0" as 0; "+" and "1a" do not parse |
| Numbers.NatToString | software-estimator/Services/TeamConfigService.cs:145 | the digits are non-empty, and their value is the number |
| Numbers.IntToString | software-estimator/Services/TeamConfigService.cs:145 | `int.ToString()`: a non-negative number is its digits; a negative one is a minus sign followed by the digits of its magnitude |
| Numbers.ParseIntToString | software-estimator/Services/TeamConfigService.cs:145 | `int.TryParse` reads back what `int.ToString` writes, for every 32-bit value |
| CaseInsensitiveMap.Get | software-estimator/Services/AssignmentMigrationService.cs:25 | a lookup fails exactly when no key equals the key ignoring case; otherwise it returns the value of the first key that does |
| CaseInsensitiveMap.GetIgnoresCase | software-estimator/Services/AssignmentMigrationService.cs:25 | keys that differ only in case read the same value |
| CaseInsensitiveMap.Put | software-estimator/Services/AssignmentMigrationService.cs:36 | `dict[k] = v` keeps every existing key's spelling and position, and appends `k` with `v` exactly when no key matches it ignoring case |
| CaseInsensitiveMap.PutUpdatesFirst | software-estimator/Services/AssignmentMigrationService.cs:36 | assignment replaces the value of the first matching key and leaves every other value alone |
| CaseInsensitiveMap.PutReads | software-estimator/Services/AssignmentMigrationService.cs:36 | after `dict[k] = v`, `k` reads `v` ignoring case and every other key reads as before |
| CaseInsensitiveMap.PutKeepsKeysDistinct | software-estimator/Services/AssignmentMigrationService.cs:25 | assignment keeps the keys distinct ignoring case |
| CostCalculator.CalcSquadCostPerSprint | software-estimator/Services/CostCalculator.cs:18-23 | the cost has two decimals and lies within half a cent of the FTE count times their daily rate times the days plus the same for contractors; it is zero with no heads and non-negative for non-negative inputs |
| CostCalculator.SquadCost | software-estimator/Services/CostCalculator.cs:20-22 | the same over converted counts and days |
| CostCalculator.SquadCostExample | software-estimator/Services/CostCalculator.cs:18-23 | two FTEs at 1000 and a contractor at 500 over ten days cost 25000 a sprint |
| CostCalculator.CalcFunctionalLineCost | software-estimator/Services/CostCalculator.cs:25-28 | the cost has two decimals, lies within half a cent of sprints times the squad rate, and is zero for zero sprints |
| CostCalculator.FunctionalLineCostMonotone | software-estimator/Services/CostCalculator.cs:25-28 | at a non-negative squad rate, more sprints never cost less |
| CostCalculator.EffectiveRole | software-estimator/Services/CostCalculator.cs:35-41 | a `null` mapping collection, or one with no mapping for the role, leaves the role as it is |
| CostCalculator.EffectiveRoleRedirect | software-estimator/Services/CostCalculator.cs:38-40 | the first mapping for the role, ignoring case, redirects it to its target unless the target is blank |
| CostCalculator.FindRateByRole | software-estimator/Services/CostCalculator.cs:42 | no rate exactly when no rate's role equals the role ignoring case; otherwise the first such rate |
| CostCalculator.HourlyRate | software-estimator/Services/CostCalculator.cs:44 | the hourly price is non-negative when both rates are |
| CostCalculator.AllocationCost | software-estimator/Services/CostCalculator.cs:35-45 | an allocation whose effective role has no rate contributes 0; otherwise its hours priced at the first rate for that role |
| CostCalculator.PricedByFirst | software-estimator/Services/CostCalculator.cs:42-45 | hours priced at the looked-up rate cost nothing when no rate has the role, and otherwise cost what the first such rate charges |
| CostCalculator.CalcNonFunctionalCost | software-estimator/Services/CostCalculator.cs:30-48 | the cost has two decimals, is zero with no allocations, and is non-negative for non-negative hours and rates |
| CostCalculator.AllocationCostsNonNegative | software-estimator/Services/CostCalculator.cs:33-46 | non-negative hours and rates give a non-negative unrounded total |
| CostCalculator.AllocationCostNonNegative | software-estimator/Services/CostCalculator.cs:42-45 | non-negative hours and rates give a non-negative contribution |
| CostCalculator.UnpricedAllocationContributesNothing | software-estimator/Services/CostCalculator.cs:42-43 | dropping an allocation whose role has no rate leaves the cost unchanged |
| CostCalculator.AllocationOrderIrrelevant | software-estimator/Services/CostCalculator.cs:33-46 | reordering the allocations leaves the cost unchanged |
| CostCalculator.NonFunctionalCostRoundsOnce | software-estimator/Services/CostCalculator.cs:47 | the cost is rounded after summing: one half-cent allocation costs 0, two cost 0.01 |
| CostCalculator.ApplyContingency | software-estimator/Services/CostCalculator.cs:50-55 | a non-positive percentage returns the subtotal unrounded; a positive one gives a two-decimal amount within half a cent of the subtotal raised by that percentage |
| CostCalculator.ContingencyOnRoundedSubtotal | software-estimator/Services/CostCalculator.cs:50-55 | on a rounded subtotal both branches are one rounding of the subtotal plus a non-negative percentage of it |
| CostCalculator.ContingencyNeverLowers | software-estimator/Services/CostCalculator.cs:50-55 | contingency never lowers a rounded, non-negative subtotal |
| CostCalculator.IsDeviation | software-estimator/Services/CostCalculator.cs:57-64 | no baseline or a zero baseline never deviates; for a positive baseline, deviation holds exactly when the distance times 100 reaches the threshold times the baseline (the inequality flips for a negative baseline) |
| CostCalculator.DeviationSymmetric | software-estimator/Services/CostCalculator.cs:61 | overshooting the baseline by `d` is flagged exactly when undershooting it by `d` is |
| CostCalculator.DeviationExamples | software-estimator/Services/CostCalculator.cs:13 | with the default threshold of 25 and a baseline of 10: 13 is flagged; 11 is not; no baseline or a zero one is never flagged |
| AssignmentCost.FindRateByKey | software-estimator/Services/AssignmentCostHelper.cs:22 | no rate exactly when no rate's source key equals the key ignoring case; otherwise the first such rate |
| AssignmentCost.EntryCost | software-estimator/Services/AssignmentCostHelper.cs:20-25 | an assignment whose key no rate carries contributes 0; otherwise the first matching rate's daily rate over the line's days at the clamped percentage |
| AssignmentCost.EntryCostIsDayCost | software-estimator/Services/AssignmentCostHelper.cs:21-25 | an assignment costs the day cost at the rate its key looks up, or nothing without one |
| AssignmentCost.DayCostBounded | software-estimator/Services/AssignmentCostHelper.cs:21-25 | at a non-negative rate and days, an assignment costs between nothing and what full-time assignment costs |
| AssignmentCost.EntryCostBounded | software-estimator/Services/AssignmentCostHelper.cs:21-25 | the same bound for an assignment whose key has a rate |
| AssignmentCost.DayCostClamped | software-estimator/Services/AssignmentCostHelper.cs:21 | over 100% costs what 100% costs, and a negative percentage costs nothing |
| AssignmentCost.PercentClamped | software-estimator/Services/AssignmentCostHelper.cs:21 | the same for an assignment looked up by its key |
| AssignmentCost.LineDays | software-estimator/Services/AssignmentCostHelper.cs:15 | the line's days are non-negative for non-negative sprints and sprint length, and zero when either is zero |
| AssignmentCost.LineDaysInSprints | software-estimator/Services/AssignmentCostHelper.cs:15 | for a positive sprint length, the line's days divided by the sprint length are its sprints |
| AssignmentCost.CalculateFunctionalLineCost | software-estimator/Services/AssignmentCostHelper.cs:11-28 | a missing line or estimate, or a line without assignments, costs 0; otherwise the cost has two decimals and lies within half a cent of the sum of the assignments' costs |
| AssignmentCost.LineCostOfAssignments | software-estimator/Services/AssignmentCostHelper.cs:15-27 | a line's cost is the sum of its assignments' costs over its days, rounded once |
| AssignmentCost.LineTotalConcat | software-estimator/Services/AssignmentCostHelper.cs:18-26 | the unrounded total of split assignments is the sum of the parts' totals |
| AssignmentCost.SingleAssignmentCost | software-estimator/Services/AssignmentCostHelper.cs:18-27 | one assignment whose key has a rate costs that rate's day cost over the line, rounded |
| AssignmentCost.UnmatchedKeyContributesNothing | software-estimator/Services/AssignmentCostHelper.cs:22-23 | dropping an assignment whose key no rate carries leaves the cost unchanged |
| AssignmentCost.LineTotalWithout | software-estimator/Services/AssignmentCostHelper.cs:22-23 | the same for the unrounded total |
| AssignmentCost.AssignmentOrderIrrelevant | software-estimator/Services/AssignmentCostHelper.cs:18-26 | the dictionary's enumeration order does not change the cost |
| AssignmentCost.AssignmentCostExample | software-estimator/Services/AssignmentCostHelper.cs:11-28 | rates of 1000 and 500 a day, 3 line days, at 100% and 50%, cost 3750 |
| AssignmentCost.ExampleKeys | software-estimator/Services/AssignmentCostHelper.cs:22 | each of two rates is found by its own source key |
| AssignmentCost.ExampleShares | software-estimator/Services/AssignmentCostHelper.cs:18-26 | at 1000 and 500 a day over 3 days, 100% and 50% shares add up to 3750 |
| AssignmentMigration.DistinctSnoc | software-estimator/Services/AssignmentMigrationService.cs:16 | a number list is distinct exactly when its front is and its last number is new |
| AssignmentMigration.ReverseMap | software-estimator/Services/AssignmentMigrationService.cs:16 | the reverse map succeeds exactly when no number repeats; it then maps each number back to its key and holds nothing else; on failure it names a number given twice |
| AssignmentMigration.SegmentPercent | software-estimator/Services/AssignmentMigrationService.cs:34-35 | a parsed second token gives `Math.Clamp` of its value to [0, 100]; an absent or unparsable one gives 100 |
| AssignmentMigration.MigrateTokens | software-estimator/Services/AssignmentMigrationService.cs:29-50 | no tokens give no entry; a number gives an entry exactly when the reverse map has it, under its key; a non-number is kept as the key; the percentage is the segment's |
| AssignmentMigration.KeyEntry | software-estimator/Services/AssignmentMigrationService.cs:30-50 | the entry for a parsed number is keyed by the reverse map or dropped; an unparsed token is kept as the key, with the segment's percentage |
| AssignmentMigration.MigrateSegment | software-estimator/Services/AssignmentMigrationService.cs:28-50 | one comma-separated segment, split at `:`, gives the entry its tokens give |
| AssignmentMigration.Outcomes | software-estimator/Services/AssignmentMigrationService.cs:26 | one outcome per segment, each the migration of that segment, every percentage in [0, 100] |
| AssignmentMigration.OutcomesConcat | software-estimator/Services/AssignmentMigrationService.cs:26 | segments are migrated one after another: the outcomes of a split list are the outcomes of its parts |
| AssignmentMigration.Rebuild | software-estimator/Services/AssignmentMigrationService.cs:25-36 | the rebuilt dictionary's keys are distinct ignoring case |
| AssignmentMigration.RebuildLastWins | software-estimator/Services/AssignmentMigrationService.cs:36 | each key reads the percentage of the last segment for it, ignoring case; a key with no segment is absent |
| AssignmentMigration.MigrateText | software-estimator/Services/AssignmentMigrationService.cs:24-51 | a line's text becomes a dictionary with distinct keys in which each key reads the percentage of the last segment that migrates to it, in [0, 100] |
| AssignmentMigration.RebuildKeyOrder | software-estimator/Services/AssignmentMigrationService.cs:36 | the dictionary's keys come in the order of their first outcome, spelled as that outcome spells them; a later assignment to the same key in another case changes only its percentage |
| AssignmentMigration.MigrateTextKeyOrder | software-estimator/Services/AssignmentMigrationService.cs:24-51 | the migrated dictionary's keys come in the order of the segments that first give them, with those segments' spelling |
| AssignmentMigration.MigrateLine | software-estimator/Services/AssignmentMigrationService.cs:22-52 | a line with blank or `null` assignment text is unchanged; any other line gets the dictionary its text migrates to, its text re-encoded from that dictionary, and nothing else changes |
| AssignmentMigration.MigrateEstimate | software-estimator/Services/AssignmentMigrationService.cs:18-54 | only the functional lines change, one for one and in order, each migrated |
| AssignmentMigration.MigrateAssignments | software-estimator/Services/AssignmentMigrationService.cs:12-55 | a `null` collection is skipped; otherwise a repeated number fails, and a success migrates every estimate, in order, under the reverse map |
| MigrationExamples.NumbersReverse | software-estimator/Services/AssignmentMigrationService.cs:16 | the map {A: 1, B: 2} reverses to {1: A, 2: B} |
| MigrationExamples.BareNumberSegment | software-estimator/Services/AssignmentMigrationService.cs:30-36 | a bare number becomes its key at 100%, or is dropped when no key has it |
| MigrationExamples.TwoSegments | software-estimator/Services/AssignmentMigrationService.cs:24-26 | text of two segments migrates segment by segment |
| MigrationExamples.MigratesBareNumbers | software-estimator/Services/AssignmentMigrationService.cs:12-52 | "1,2" gives both keys 100% |
| MigrationExamples.LegacyTextMigrates | software-estimator/Services/AssignmentMigrationService.cs:24-51 | "1,2" under {1: A, 2: B} migrates to exactly A and B, in that order, at 100% |
| MigrationExamples.MigratesLegacyLine | tests/SoftwareEstimator.Tests/AssignmentTests.cs:54-78 | an estimate whose line holds "1,2" migrates to that line holding both keys at 100%, with its text re-encoded from them |
| MigrationExamples.DropsUnknownNumber | software-estimator/Services/AssignmentMigrationService.cs:32-41 | "1,99" keeps resource 1 and drops 99 |
| MigrationExamples.KeyedSegmentPassesThrough | software-estimator/Services/AssignmentMigrationService.cs:43-50 | "key:pct" with a non-numeric key keeps the key, with the percentage clamped |
| TeamConfig.FindById | software-estimator/Services/TeamConfigService.cs:89-95 | no team exactly when no id equals the given one ignoring case; a result is a listed team with that id |
| TeamConfig.FindByIdFirst | software-estimator/Services/TeamConfigService.cs:93 | of several teams with the id, the first listed is returned |
| TeamConfig.FindByIdIgnoresCase | software-estimator/Services/TeamConfigService.cs:93 | ids that differ only in case find the same team |
| TeamConfig.ActiveTeams | software-estimator/Services/TeamConfigService.cs:81-87 | exactly the active teams are kept |
| TeamConfig.ActiveTeamsConcat | software-estimator/Services/TeamConfigService.cs:85 | the filter keeps the configured order: it distributes over concatenation |
| TeamConfig.ActiveTeamsIdempotent | software-estimator/Services/TeamConfigService.cs:85 | filtering twice is filtering once |
| TeamConfig.ActiveTeamsAllActive | software-estimator/Services/TeamConfigService.cs:85 | a list of active teams comes back unchanged |
| TeamConfig.FindRole | software-estimator/Services/TeamConfigService.cs:119-120 | no role entry exactly when none matches ignoring case; a result is one of the team's entries for the role |
| TeamConfig.FindRoleFirst | software-estimator/Services/TeamConfigService.cs:119 | of several entries for the same role, ignoring case, the first listed is the one found |
| TeamConfig.FarShort | software-estimator/Services/TeamConfigService.cs:144 | `required > count * 1.5` holds exactly when `2 * required > 3 * count` |
| TeamConfig.CheckRequirement | software-estimator/Services/TeamConfigService.cs:116-147 | no issue exactly when the team has the role in at least the required number. A missing role is an error with none available. A shortfall reports the count and is an error exactly when more than half again is required |
| TeamConfig.CheckRequirements | software-estimator/Services/TeamConfigService.cs:114-148 | at most one issue per requirement; none exactly when every requirement is met; each issue names a required role |
| TeamConfig.CheckRequirementsConcat | software-estimator/Services/TeamConfigService.cs:114-148 | requirements are checked one after another: the issues of a split list are the issues of its parts, in order |
| TeamConfig.ValidateResourceAllocation | software-estimator/Services/TeamConfigService.cs:97-151 | an unknown team gives the single "Selected team not found" error. Otherwise the issues are those of the requirements in order, and the result is valid exactly when every requirement is met |
| TeamConfigExamples.ModestShortfallWarns | software-estimator/Services/TeamConfigService.cs:136-146 | three developers against two is a warning, with two available |
| TeamConfigExamples.LargeShortfallIsError | software-estimator/Services/TeamConfigService.cs:144 | four developers against two is an error |
| TeamConfigExamples.MissingRoleIsError | software-estimator/Services/TeamConfigService.cs:122-133 | a role the team lacks is an error with the message naming the team and the role |
| EstimateExport.OfType | software-estimator/Program.cs:170-171 | the filter keeps only rates of the type, and no more rates than given |
| EstimateExport.OfTypeMembers | software-estimator/Program.cs:170-171 | a rate is kept exactly when it is listed and of the type |
| EstimateExport.OfTypeSplits | software-estimator/Program.cs:170-174 | the two types partition the rates: the counts and the sums of the two filters add up to the whole |
| EstimateExport.MeanDailyRate | software-estimator/Program.cs:175-176 | the mean of no rates is 0; otherwise the mean times the number of rates is their total daily rate |
| EstimateExport.ComposeSquad | software-estimator/Program.cs:172-178 | the squad keeps the sprint length; no rates make an empty squad with zero rates; each type's head count times its daily rate is the sum of that type's daily rates |
| EstimateExport.ComposeSquadHeadCount | software-estimator/Program.cs:173-174 | every rate is one head of the squad |
| EstimateExport.SumScaled | software-estimator/Program.cs:179 | scaling the sum of daily rates by the days is summing each rate's sprint cost |
| EstimateExport.SquadDailyTotal | software-estimator/Program.cs:172-178 | the composed squad's daily cost is the rates' total daily rate |
| EstimateExport.SquadCostOfDailyTotal | software-estimator/Services/CostCalculator.cs:18-23 | a squad's cost per sprint is its daily cost over the sprint's days, rounded |
| EstimateExport.SquadFields | software-estimator/Services/CostCalculator.cs:18-23 | a squad's cost per sprint is `SquadCost` over its converted counts and sprint length |
| EstimateExport.SquadCostOfTypes | software-estimator/Services/CostCalculator.cs:20-22 | the squad cost of counts and rates whose daily cost is `total` is `total` over the days, rounded |
| EstimateExport.SquadCostIsTotalDailyRate | software-estimator/Program.cs:169-179 | the squad's cost per sprint is the total daily rate over the sprint's days, rounded: averaging loses nothing |
| EstimateExport.SquadCostIsSumOfRateCosts | software-estimator/Program.cs:169-179 | the squad's cost per sprint is each rate's cost over the sprint, summed and rounded |
| EstimateExport.DoubleQuotes | software-estimator/Program.cs:198 | the replacement never shortens, and leaves quote-free text unchanged |
| EstimateExport.EscapeCsv | software-estimator/Program.cs:198 | the field starts and ends with a quote; a `null` title is the empty field |
| EstimateExport.UndoubleDoubled | software-estimator/Program.cs:198 | undoubling the doubled quotes gives back the text |
| EstimateExport.EscapeCsvRoundTrip | software-estimator/Program.cs:198 | a CSV reader recovers every title exactly from its quoted field |
| EstimateExport.FunctionalRowOf | software-estimator/Program.cs:184 | a line's row carries its quoted title and its sprints, and its unrounded cost rounds to the calculator's line cost |
| EstimateExport.CsvRowMatchesLineCost | software-estimator/Program.cs:184 | a functional row's unrounded cost, rounded, is the line's cost |
| EstimateExport.FunctionalRows | software-estimator/Program.cs:183-184 | one row per line, in order, each with the line's title and sprints and a cost that rounds to the line's cost |
| EstimateExport.FunctionalRowsMatchSubtotal | software-estimator/Program.cs:183-184 | the functional rows' costs, each rounded, add up to the PDF's functional subtotal |
| EstimateExport.CsvRole | software-estimator/Program.cs:189-191 | the CSV's role lookup gives the calculator's effective role |
| EstimateExport.CsvPricedHours | software-estimator/Program.cs:193-194 | the CSV's pricing of hours at a rate agrees with the calculator's |
| EstimateExport.CsvAllocationCost | software-estimator/Program.cs:189-194 | the CSV's cost of an allocation is the calculator's unrounded contribution |
| EstimateExport.CsvAllocationCostAgrees | software-estimator/Program.cs:189-194 | the CSV shows the calculator's effective role and prices the allocation at the calculator's unrounded contribution |
| EstimateExport.AllocationRowOf | software-estimator/Program.cs:195 | an allocation's row shows the item's title, the effective role, the hours and the calculator's unrounded cost |
| EstimateExport.AllocationRows | software-estimator/Program.cs:187-196 | one row per allocation, in order, each showing its allocation |
| EstimateExport.AllocationRowsSum | software-estimator/Program.cs:187-196 | the item's row costs add up to the calculator's unrounded total |
| EstimateExport.CsvRowsMatchItemCost | software-estimator/Program.cs:185-197 | an item's CSV row costs, summed and rounded, are the item's cost |
| EstimateExport.NonFunctionalRows | software-estimator/Program.cs:185-197 | one non-functional row per allocation of every item, whose costs add up to the items' unrounded totals; no items give no rows, and one item gives exactly its allocation rows |
| EstimateExport.NonFunctionalRowsConcat | software-estimator/Program.cs:185-197 | the rows of two runs of items are the first run's rows followed by the second's, so every item contributes its own allocation rows, in item order |
| EstimateExport.NonFunctionalRowsMatchSubtotal | software-estimator/Program.cs:185-197 | each item's rows, summed and rounded, give the item costs that the PDF's non-functional subtotal adds up |
| EstimateExport.CsvRows | software-estimator/Program.cs:183-197 | the functional rows of the lines at the composed squad's rate come first, in order, then each item's allocation rows, item after item |
| EstimateExport.ComputeTotals | software-estimator/Program.cs:212-225 | the squad rate is that of the composed squad; the functional subtotal is the lines' costs at that rate summed; the non-functional subtotal is the items' costs summed; the total is contingency on their sum; all have two decimals and the total is never less than the sum for non-negative subtotals |
| EstimateExport.TotalsOf | software-estimator/Program.cs:225 | the figures keep the squad rate and subtotals, and the total is contingency applied to the subtotals' sum, with two decimals |
| EstimateExport.PdfMatchesCsv | software-estimator/Program.cs:183-224 | with the estimate's own role mappings, the PDF's functional subtotal is the CSV's functional rows' costs, each rounded, summed; its non-functional subtotal is what the CSV's non-functional rows give when cut into groups of each item's allocation count, each group's cost summed and rounded, and the groups added |
| EstimateExport.FunctionalSubtotal2dp | software-estimator/Program.cs:223 | the functional subtotal has two decimals |
| EstimateExport.NonFunctionalSubtotal2dp | software-estimator/Program.cs:224 | the non-functional subtotal has two decimals |
| EstimateExport.OneRateSquad | software-estimator/Program.cs:212-222 | one full-time rate of 1 a day over a one-day sprint costs 1 a sprint |
| EstimateExport.SubtotalRoundsPerLine | software-estimator/Program.cs:223 | the subtotal sums rounded line costs: two half-cent lines total 0, where rounding their sum would give 0.01 |

## Left out

- Persistence, HTTP routing, the PDF rendering, configuration files, file watching and the service's lock are left out. The model takes the estimate, the loaded team list and the number-to-key map as values.
- Non-ASCII case pairs are left out. Ordinal case-insensitive comparison is modelled as ASCII folding only.
- `decimal` is modelled as exact reals. The 28-significant-digit precision and overflow of .NET `decimal` are left out, so `Average` and the `/ 8m` and `/ 100m` divisions are exact.
- `IsDeviation` computes `(delta / avg) * 100m` and compares it with the threshold (`CostCalculator.cs:62`), and so does the model's body. Its contract states the equivalent cross-multiplied comparison, which holds over exact reals; with `decimal` rounding in the division the two could differ at the boundary.
- `decimal.TryParse` is culture-dependent, so it is a parameter of the migration. The model treats `int.TryParse` as invariant culture: the sign is `+` or `-`.
- `null` collections and titles inside an estimate are not modelled, except where the code tests for them: the estimate collection, the mapping collection, the assignment text and the dictionary.
- The `AssignedResources` property is not part of this model: neither its getter's parsing of the stored text nor its setter's encoding. The migration takes the encoding as a parameter, and the assignment-cost helper reads the dictionary field.
- Running the migration twice is not modelled in detail. A second run reads the re-encoded text, whose format depends on the encoding left out above.
- The CSV text layout is left out: header, commas, spaces and number formatting. The model keeps each row's fields and values.
- TeamConfig.CheckRequirements: models the requirement dictionary as a sequence of pairs in its enumeration order. Distinct keys are not required, which a `Dictionary<string, int>` would guarantee.
