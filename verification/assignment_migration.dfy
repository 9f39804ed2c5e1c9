/** The one-off rewrite of legacy assignment text ("1,2,3" or "1:100,2:50",
    where numbers are static resource numbers) into resource-key to percent
    dictionaries, given the map from resource key to static number. */
module AssignmentMigration {
  import opened Wrappers
  import opened Money
  import opened Text
  import opened Numbers
  import opened CaseInsensitiveMap
  import opened Models

  /** The number-to-key lookup, as `resourceNumberMap` enumerates it. */
  type NumberMap = seq<(string, int)>

  /** No static number is given to two keys. */
  predicate NumbersDistinct(numbers: NumberMap)
  {
    forall i, j :: 0 <= i < j < |numbers| ==> numbers[i].1 != numbers[j].1
  }

  /** A list of numbers is distinct when its front is and its last number
      is new. */
  lemma DistinctSnoc(numbers: NumberMap)
    requires |numbers| > 0
    ensures NumbersDistinct(numbers) <==>
              && NumbersDistinct(numbers[..|numbers| - 1])
              && forall i :: 0 <= i < |numbers| - 1 ==> numbers[i].1 != numbers[|numbers| - 1].1
  {
  }

  /** `resourceNumberMap.ToDictionary(kv => kv.Value, kv => kv.Key)`: the
      reverse map from static number to key. Adding a number a second time
      throws, reported here as `Failure` with that number. */
  function ReverseMap(numbers: NumberMap): (r: Result<map<int, string>, int>)
    ensures r.Success? <==> NumbersDistinct(numbers)
    ensures r.Success? ==> forall i :: 0 <= i < |numbers| ==> numbers[i].1 in r.value && r.value[numbers[i].1] == numbers[i].0
    ensures r.Success? ==> forall n :: n in r.value ==> exists i :: 0 <= i < |numbers| && numbers[i].1 == n
    ensures r.Failure? ==> exists i, j :: 0 <= i < j < |numbers| && numbers[i].1 == r.error && numbers[j].1 == r.error
  {
    if |numbers| == 0 then Success(map[])
    else
      var front := numbers[..|numbers| - 1];
      var key, n := numbers[|numbers| - 1].0, numbers[|numbers| - 1].1;
      assert forall i :: 0 <= i < |front| ==> numbers[i] == front[i];
      DistinctSnoc(numbers);
      match ReverseMap(front)
      case Failure(d) => Failure(d)
      case Success(m) =>
        if n in m then
          var i :| 0 <= i < |front| && front[i].1 == n;
          assert numbers[i].1 == n && numbers[|numbers| - 1].1 == n;
          Failure(n)
        else Success(m[n := key])
  }

  /** `decimal.TryParse` of a percentage. Its accepted forms depend on the
      current culture, so the model takes it as a parameter. */
  type DecimalParser = string -> Option<real>

  /** The percent of a `key:percent` segment: the second token parsed and
      clamped to [0, 100], or 100 when it is absent or does not parse. */
  function SegmentPercent(kv: seq<string>, parseDecimal: DecimalParser): (p: real)
    ensures 0.0 <= p <= 100.0
    ensures (|kv| < 2 || parseDecimal(kv[1]).None?) ==> p == 100.0
    ensures |kv| > 1 && parseDecimal(kv[1]).Some? ==> p == ClampPercent(parseDecimal(kv[1]).value)
  {
    if |kv| > 1 && parseDecimal(kv[1]).Some? then ClampPercent(parseDecimal(kv[1]).value) else 100.0
  }

  /** A segment's tokens rewritten: a number is replaced by the key the
      reverse map gives it, or the segment is dropped when the number has no
      key; anything else is taken to be a key already. The result, when
      there is one, is a key and a percentage in [0, 100]. */
  function MigrateTokens(kv: seq<string>, rev: map<int, string>, parseDecimal: DecimalParser): (r: Option<Entry>)
    requires forall i :: 0 <= i < |kv| ==> IsTrimmed(kv[i])
    ensures r.Some? ==> r.value.value == SegmentPercent(kv, parseDecimal)
    ensures r.Some? ==> 0.0 <= r.value.value <= 100.0
    ensures |kv| == 0 ==> r.None?
    ensures |kv| > 0 && ParseInt32(kv[0]).Some? ==>
              (r.Some? <==> ParseInt32(kv[0]).value in rev)
              && (r.Some? ==> r.value.key == rev[ParseInt32(kv[0]).value])
    ensures |kv| > 0 && ParseInt32(kv[0]).None? ==> r.Some? && r.value.key == kv[0]
  {
    if |kv| == 0 then None
    else KeyEntry(kv[0], ParseInt32(kv[0]), SegmentPercent(kv, parseDecimal), rev)
  }

  /** The entry for a segment's first token `token`, given how it parsed as
      a number and the segment's percentage. */
  function KeyEntry(token: string, parsed: Option<int>, pct: real, rev: map<int, string>): (r: Option<Entry>)
    requires IsTrimmed(token)
    ensures r.Some? ==> r.value.value == pct
    ensures parsed.Some? ==> (r.Some? <==> parsed.value in rev) && (r.Some? ==> r.value.key == rev[parsed.value])
    ensures parsed.None? ==> r == Some(Entry(token, pct))
  {
    match parsed
    case Some(idx) => if idx in rev then Some(Entry(rev[idx], pct)) else None
    case None =>
      TrimIdempotent(token);
      Some(Entry(Trim(token), pct))
  }

  /** One comma-separated segment, split on `:` and rewritten: its first
      token decides the key as in `MigrateTokens`, its second the percentage,
      and a segment with no tokens gives nothing. */
  function MigrateSegment(p: string, rev: map<int, string>, parseDecimal: DecimalParser): (r: Option<Entry>)
    ensures var kv := Tokens(p, ':');
            && (r.Some? ==> r.value.value == SegmentPercent(kv, parseDecimal) && 0.0 <= r.value.value <= 100.0)
            && (|kv| == 0 ==> r.None?)
            && (|kv| > 0 && ParseInt32(kv[0]).Some? ==>
                  (r.Some? <==> ParseInt32(kv[0]).value in rev)
                  && (r.Some? ==> r.value.key == rev[ParseInt32(kv[0]).value]))
            && (|kv| > 0 && ParseInt32(kv[0]).None? ==> r.Some? && r.value.key == kv[0])
  {
    MigrateTokens(Tokens(p, ':'), rev, parseDecimal)
  }

  /** The rewrite of each segment, in order. */
  function Outcomes(parts: seq<string>, rev: map<int, string>, parseDecimal: DecimalParser): (os: seq<Option<Entry>>)
    ensures |os| == |parts|
    ensures forall i :: 0 <= i < |parts| ==> os[i] == MigrateSegment(parts[i], rev, parseDecimal)
    ensures PercentsBounded(os)
  {
    seq(|parts|, i requires 0 <= i < |parts| => MigrateSegment(parts[i], rev, parseDecimal))
  }

  /** Every outcome's percentage lies in [0, 100]. */
  predicate PercentsBounded(os: seq<Option<Entry>>)
  {
    forall i :: 0 <= i < |os| && os[i].Some? ==> 0.0 <= os[i].value.value <= 100.0
  }

  /** Segments migrate independently: the outcomes of two runs of segments
      are the outcomes of each run, in order. */
  lemma OutcomesConcat(a: seq<string>, b: seq<string>, rev: map<int, string>, parseDecimal: DecimalParser)
    ensures Outcomes(a + b, rev, parseDecimal) == Outcomes(a, rev, parseDecimal) + Outcomes(b, rev, parseDecimal)
  {
    var l, r := Outcomes(a + b, rev, parseDecimal), Outcomes(a, rev, parseDecimal) + Outcomes(b, rev, parseDecimal);
    assert |l| == |r|;
    forall i | 0 <= i < |l|
      ensures l[i] == r[i]
    {
      if i < |a| {
        assert (a + b)[i] == a[i];
      } else {
        assert (a + b)[i] == b[i - |a|];
      }
    }
  }

  /** The percentage the last outcome for `k` (ignoring case) gives it, if
      any outcome is for `k`. */
  function LastPercentFor(os: seq<Option<Entry>>, k: string): (r: Option<real>)
    ensures PercentsBounded(os) && r.Some? ==> 0.0 <= r.value <= 100.0
  {
    if |os| == 0 then None
    else
      var o := os[|os| - 1];
      if o.Some? && EqualsIgnoreCase(o.value.key, k) then Some(o.value.value)
      else
        assert PercentsBounded(os) ==> PercentsBounded(os[..|os| - 1]);
        LastPercentFor(os[..|os| - 1], k)
  }

  /** The case-insensitive dictionary that `dict[key] = percent` builds from
      the outcomes, in order; its keys are distinct ignoring case. */
  function Rebuild(os: seq<Option<Entry>>): (m: CiMap)
    ensures KeysDistinct(m)
  {
    if |os| == 0 then []
    else
      var front := Rebuild(os[..|os| - 1]);
      var o := os[|os| - 1];
      if o.Some? then
        PutKeepsKeysDistinct(front, o.value.key, o.value.value);
        Put(front, o.value.key, o.value.value)
      else front
  }

  /** Later segments overwrite earlier ones: each key of the rebuilt
      dictionary reads the percentage of the last outcome for it, and a key
      with no outcome is absent. */
  lemma {:induction false} RebuildLastWins(os: seq<Option<Entry>>, k: string)
    ensures Get(Rebuild(os), k) == LastPercentFor(os, k)
  {
    if |os| > 0 {
      var front := os[..|os| - 1];
      var o := os[|os| - 1];
      RebuildLastWins(front, k);
      if o.Some? {
        assert Rebuild(os) == Put(Rebuild(front), o.value.key, o.value.value);
        PutReads(Rebuild(front), o.value.key, o.value.value, k);
        if EqualsIgnoreCase(o.value.key, k) {
          assert LastPercentFor(os, k) == Some(o.value.value);
        } else {
          assert LastPercentFor(os, k) == LastPercentFor(front, k);
        }
      } else {
        assert Rebuild(os) == Rebuild(front);
        assert LastPercentFor(os, k) == LastPercentFor(front, k);
      }
    }
  }

  /** The keys the outcomes give, in the order of their first outcome and
      spelled as that outcome spells them: an outcome adds its key when no
      earlier outcome is for it, ignoring case. */
  function FirstKeys(os: seq<Option<Entry>>): seq<string>
  {
    if |os| == 0 then []
    else
      var front := os[..|os| - 1];
      var o := os[|os| - 1];
      if o.Some? && LastPercentFor(front, o.value.key).None? then FirstKeys(front) + [o.value.key]
      else FirstKeys(front)
  }

  /** The rebuilt dictionary holds its keys in the order they first appear,
      spelled as they first appear: a later segment for the same key, in any
      case, changes only the percentage. */
  lemma {:induction false} RebuildKeyOrder(os: seq<Option<Entry>>)
    ensures |Rebuild(os)| == |FirstKeys(os)|
    ensures forall i :: 0 <= i < |Rebuild(os)| ==> Rebuild(os)[i].key == FirstKeys(os)[i]
  {
    if |os| > 0 {
      var front := os[..|os| - 1];
      var o := os[|os| - 1];
      RebuildKeyOrder(front);
      var m := Rebuild(front);
      if o.Some? {
        var k := o.value.key;
        var r := Put(m, k, o.value.value);
        assert Rebuild(os) == r;
        RebuildLastWins(front, k);
        if LastPercentFor(front, k).None? {
          assert FirstKeys(os) == FirstKeys(front) + [k];
          assert |r| == |m| + 1 && r[|m|].key == k;
        } else {
          assert FirstKeys(os) == FirstKeys(front);
          assert |r| == |m|;
        }
      } else {
        assert Rebuild(os) == m && FirstKeys(os) == FirstKeys(front);
      }
    }
  }

  /** `d` is what the assignment text `ids` migrates to: its keys are
      distinct ignoring case, and each key reads the percentage of the last
      comma-separated segment that migrates to it; a key no segment gives
      is absent. */
  ghost predicate MigratedFrom(d: CiMap, ids: string, rev: map<int, string>, parseDecimal: DecimalParser)
  {
    && KeysDistinct(d)
    && forall k :: Get(d, k) == LastPercentFor(Outcomes(Tokens(ids, ','), rev, parseDecimal), k)
  }

  /** The assignment text of one line rewritten into a dictionary, every
      percentage in it in [0, 100]. */
  function MigrateText(ids: string, rev: map<int, string>, parseDecimal: DecimalParser): (d: CiMap)
    ensures MigratedFrom(d, ids, rev, parseDecimal)
    ensures forall k :: Get(d, k).Some? ==> 0.0 <= Get(d, k).value <= 100.0
  {
    var os := Outcomes(Tokens(ids, ','), rev, parseDecimal);
    forall k
      ensures Get(Rebuild(os), k) == LastPercentFor(os, k)
    {
      RebuildLastWins(os, k);
    }
    Rebuild(os)
  }

  /** The migrated dictionary's keys come in the order of the segments that
      first give them, with those segments' spelling. */
  lemma MigrateTextKeyOrder(ids: string, rev: map<int, string>, parseDecimal: DecimalParser)
    ensures var d := MigrateText(ids, rev, parseDecimal);
            var keys := FirstKeys(Outcomes(Tokens(ids, ','), rev, parseDecimal));
            |d| == |keys| && forall i :: 0 <= i < |d| ==> d[i].key == keys[i]
  {
    RebuildKeyOrder(Outcomes(Tokens(ids, ','), rev, parseDecimal));
  }

  /** The `AssignedResources` setter's re-encoding of a dictionary into the
      stored assignment text. The property's definition is not part of this
      model, so the encoding is a parameter. */
  type Encoder = CiMap -> string

  /** `after` is the line `before` becomes: a line with blank or `null`
      assignment text is left alone; any other line gets the dictionary its
      text migrates to, its assignment text re-encoded from that dictionary,
      and nothing else changes. */
  ghost predicate LineMigrated(before: FunctionalLineItem, after: FunctionalLineItem, rev: map<int, string>,
                         parseDecimal: DecimalParser, encode: Encoder)
  {
    if IsNullOrWhiteSpace(before.assignedResourceIds) then after == before
    else
      && after.(assignedResources := before.assignedResources, assignedResourceIds := before.assignedResourceIds) == before
      && after.assignedResources.Some?
      && MigratedFrom(after.assignedResources.value, before.assignedResourceIds.value, rev, parseDecimal)
      && after.assignedResourceIds == Some(encode(after.assignedResources.value))
  }

  function MigrateLine(f: FunctionalLineItem, rev: map<int, string>, parseDecimal: DecimalParser,
                       encode: Encoder): (g: FunctionalLineItem)
    ensures LineMigrated(f, g, rev, parseDecimal, encode)
  {
    if IsNullOrWhiteSpace(f.assignedResourceIds) then f
    else
      var d := MigrateText(f.assignedResourceIds.value, rev, parseDecimal);
      f.(assignedResources := Some(d), assignedResourceIds := Some(encode(d)))
  }

  /** `after` is the estimate `before` becomes: only its functional lines
      change, one for one, each migrated. */
  ghost predicate EstimateMigrated(before: Estimate, after: Estimate, rev: map<int, string>,
                             parseDecimal: DecimalParser, encode: Encoder)
  {
    && after.(functionalItems := before.functionalItems) == before
    && |after.functionalItems| == |before.functionalItems|
    && forall j :: 0 <= j < |after.functionalItems| ==>
         LineMigrated(before.functionalItems[j], after.functionalItems[j], rev, parseDecimal, encode)
  }

  function MigrateEstimate(e: Estimate, rev: map<int, string>, parseDecimal: DecimalParser,
                           encode: Encoder): (r: Estimate)
    ensures EstimateMigrated(e, r, rev, parseDecimal, encode)
  {
    e.(functionalItems := seq(|e.functionalItems|, i requires 0 <= i < |e.functionalItems| =>
                                MigrateLine(e.functionalItems[i], rev, parseDecimal, encode)))
  }

  /** What `MigrateAssignments` does to a collection of estimates. */
  datatype MigrationOutcome =
    | Skipped                             // a null collection: nothing happens
    | Migrated(estimates: seq<Estimate>)  // the estimates after the rewrite
    | DuplicateNumber(number: int)        // `ToDictionary` threw on this number

  /** `MigrateAssignments`: a null collection is left alone, even before the
      reverse map is built; a number given to two keys throws; otherwise every
      estimate is migrated under the reverse map, in place and in order. */
  function MigrateAssignments(estimates: Option<seq<Estimate>>, numbers: NumberMap, parseDecimal: DecimalParser,
                              encode: Encoder): (r: MigrationOutcome)
    ensures estimates.None? <==> r.Skipped?
    ensures estimates.Some? ==> (r.DuplicateNumber? <==> !NumbersDistinct(numbers))
    ensures r.Migrated? ==> ReverseMap(numbers).Success? && |r.estimates| == |estimates.value|
    ensures r.Migrated? ==>
              forall i :: 0 <= i < |r.estimates| ==>
                EstimateMigrated(estimates.value[i], r.estimates[i], ReverseMap(numbers).value, parseDecimal, encode)
  {
    if estimates.None? then Skipped
    else
      match ReverseMap(numbers)
      case Failure(n) => DuplicateNumber(n)
      case Success(rev) =>
        Migrated(seq(|estimates.value|, i requires 0 <= i < |estimates.value| =>
                       MigrateEstimate(estimates.value[i], rev, parseDecimal, encode)))
  }
}

/** Worked migrations over a two-resource number map. */
module MigrationExamples {
  import opened Wrappers
  import opened Text
  import opened Money
  import opened Numbers
  import opened CaseInsensitiveMap
  import opened Models
  import opened AssignmentMigration

  const KeyA := "team-a-FTE-1"
  const KeyB := "team-b-CTR-2"
  const TwoResources: NumberMap := [(KeyA, 1), (KeyB, 2)]
  const BothIds := "1,2"
  const UnknownId := "1,99"

  lemma NumbersReverse()
    ensures ReverseMap(TwoResources) == Success(map[1 := KeyA, 2 := KeyB])
  {
    assert TwoResources[..1] == [(KeyA, 1)];
    assert TwoResources[..1][..0] == [];
  }

  lemma ParseSmall()
    ensures ParseInt32("1") == Some(1)
    ensures ParseInt32("2") == Some(2)
    ensures ParseInt32("99") == Some(99)
  {
  }

  /** A segment that is a bare number becomes the key the reverse map
      gives that number at 100 percent, or is dropped. */
  lemma BareNumberSegment(digits: string, n: int, rev: map<int, string>, parseDecimal: DecimalParser)
    requires |digits| > 0 && IsTrimmed(digits) && ':' !in digits
    requires ParseInt32(digits) == Some(n)
    ensures MigrateSegment(digits, rev, parseDecimal) ==
              (if n in rev then Some(Entry(rev[n], 100.0)) else None)
  {
    SingleToken(digits, ':');
  }

  lemma KeysDiffer()
    ensures !EqualsIgnoreCase(KeyB, KeyA) && !EqualsIgnoreCase(KeyA, KeyB)
  {
    assert Fold(KeyB)[5] != Fold(KeyA)[5];
  }

  /** Text of two segments migrates segment by segment. */
  lemma TwoSegments(a: string, b: string, rev: map<int, string>, parseDecimal: DecimalParser)
    requires |a| > 0 && IsTrimmed(a) && ',' !in a
    requires |b| > 0 && IsTrimmed(b) && ',' !in b
    ensures Outcomes(Tokens(a + "," + b, ','), rev, parseDecimal)
              == [MigrateSegment(a, rev, parseDecimal), MigrateSegment(b, rev, parseDecimal)]
  {
    assert a + "," + b == a + [','] + b;
    TwoTokens(a, b, ',');
    OutcomesPair(a, b, rev, parseDecimal);
  }

  lemma OutcomesPair(a: string, b: string, rev: map<int, string>, parseDecimal: DecimalParser)
    ensures Outcomes([a, b], rev, parseDecimal)
              == [MigrateSegment(a, rev, parseDecimal), MigrateSegment(b, rev, parseDecimal)]
  {
    calc {
      Outcomes([a, b], rev, parseDecimal);
      { assert [a, b] == [a] + [b]; }
      Outcomes([a] + [b], rev, parseDecimal);
      { OutcomesConcat([a], [b], rev, parseDecimal); }
      Outcomes([a], rev, parseDecimal) + Outcomes([b], rev, parseDecimal);
      { OutcomesSingle(a, rev, parseDecimal); OutcomesSingle(b, rev, parseDecimal); }
      [MigrateSegment(a, rev, parseDecimal)] + [MigrateSegment(b, rev, parseDecimal)];
    }
  }

  lemma OutcomesSingle(a: string, rev: map<int, string>, parseDecimal: DecimalParser)
    ensures Outcomes([a], rev, parseDecimal) == [MigrateSegment(a, rev, parseDecimal)]
  {
    var os := Outcomes([a], rev, parseDecimal);
    assert os[0] == MigrateSegment([a][0], rev, parseDecimal);
  }

  /** The bare numbers 1, 2 and 99 as segments under the example map. */
  lemma SegmentOne(parseDecimal: DecimalParser)
    ensures MigrateSegment("1", map[1 := KeyA, 2 := KeyB], parseDecimal) == Some(Entry(KeyA, 100.0))
  {
    ParseSmall();
    BareNumberSegment("1", 1, map[1 := KeyA, 2 := KeyB], parseDecimal);
  }

  lemma SegmentTwo(parseDecimal: DecimalParser)
    ensures MigrateSegment("2", map[1 := KeyA, 2 := KeyB], parseDecimal) == Some(Entry(KeyB, 100.0))
  {
    ParseSmall();
    BareNumberSegment("2", 2, map[1 := KeyA, 2 := KeyB], parseDecimal);
  }

  lemma SegmentNinetyNine(parseDecimal: DecimalParser)
    ensures MigrateSegment("99", map[1 := KeyA, 2 := KeyB], parseDecimal) == None
  {
    ParseSmall();
    BareNumberSegment("99", 99, map[1 := KeyA, 2 := KeyB], parseDecimal);
  }

  /** "1,2" splits into two segments that migrate to both keys. */
  lemma BareNumbersOutcomes(parseDecimal: DecimalParser)
    ensures Outcomes(Tokens(BothIds, ','), map[1 := KeyA, 2 := KeyB], parseDecimal)
              == [Some(Entry(KeyA, 100.0)), Some(Entry(KeyB, 100.0))]
  {
    assert BothIds == "1" + "," + "2";
    TwoSegments("1", "2", map[1 := KeyA, 2 := KeyB], parseDecimal);
    SegmentOne(parseDecimal);
    SegmentTwo(parseDecimal);
  }

  /** The last outcome for each key of "1,2" gives it 100 percent. */
  lemma BothLastPercents()
    ensures var os := [Some(Entry(KeyA, 100.0)), Some(Entry(KeyB, 100.0))];
            LastPercentFor(os, KeyA) == Some(100.0) && LastPercentFor(os, KeyB) == Some(100.0)
  {
    var os := [Some(Entry(KeyA, 100.0)), Some(Entry(KeyB, 100.0))];
    KeysDiffer();
    assert os[..1] == [Some(Entry(KeyA, 100.0))];
  }

  /** "1,2" becomes a dictionary giving both resources 100 percent. */
  lemma MigratesBareNumbers(parseDecimal: DecimalParser)
    ensures ReverseMap(TwoResources).Success?
    ensures var d := MigrateText(BothIds, ReverseMap(TwoResources).value, parseDecimal);
            Get(d, KeyA) == Some(100.0) && Get(d, KeyB) == Some(100.0)
  {
    NumbersReverse();
    BareNumbersOutcomes(parseDecimal);
    var os := [Some(Entry(KeyA, 100.0)), Some(Entry(KeyB, 100.0))];
    RebuildLastWins(os, KeyA);
    RebuildLastWins(os, KeyB);
    BothLastPercents();
  }

  /** "1,99" splits into two segments, the second of which is dropped. */
  lemma UnknownNumberOutcomes(parseDecimal: DecimalParser)
    ensures Outcomes(Tokens(UnknownId, ','), map[1 := KeyA, 2 := KeyB], parseDecimal)
              == [Some(Entry(KeyA, 100.0)), None]
  {
    assert UnknownId == "1" + "," + "99";
    TwoSegments("1", "99", map[1 := KeyA, 2 := KeyB], parseDecimal);
    SegmentOne(parseDecimal);
    SegmentNinetyNine(parseDecimal);
  }

  /** "1,99" keeps resource 1 and drops 99, which no resource has. */
  lemma DropsUnknownNumber(parseDecimal: DecimalParser)
    ensures MigrateText(UnknownId, map[1 := KeyA, 2 := KeyB], parseDecimal) == [Entry(KeyA, 100.0)]
  {
    UnknownNumberOutcomes(parseDecimal);
    KeepsOnlyFirst();
  }

  /** A dropped segment leaves no entry behind. */
  lemma KeepsOnlyFirst()
    ensures Rebuild([Some(Entry(KeyA, 100.0)), None]) == [Entry(KeyA, 100.0)]
  {
    var os := [Some(Entry(KeyA, 100.0)), None];
    assert os[..1] == [Some(Entry(KeyA, 100.0))];
    assert os[..1][..0] == [];
    assert Rebuild(os) == Rebuild(os[..1]) == Put([], KeyA, 100.0);
  }

  /** A segment already in `key:percent` form, whose key is not a number,
      keeps its key and gets its percentage clamped to [0, 100]. */
  lemma KeyedSegmentPassesThrough(key: string, pct: string, p: real, rev: map<int, string>, parseDecimal: DecimalParser)
    requires |key| > 0 && IsTrimmed(key) && ':' !in key && ParseInt32(key).None?
    requires |pct| > 0 && IsTrimmed(pct) && ':' !in pct
    requires parseDecimal(pct) == Some(p)
    ensures MigrateSegment(key + ":" + pct, rev, parseDecimal) == Some(Entry(key, ClampPercent(p)))
  {
    TwoTokens(key, pct, ':');
    TrimIdempotent(key);
  }

  /** Both segments of "1,2" land in the dictionary, in order. */
  lemma BothKept()
    ensures Rebuild([Some(Entry(KeyA, 100.0)), Some(Entry(KeyB, 100.0))])
         == [Entry(KeyA, 100.0), Entry(KeyB, 100.0)]
  {
    var os := [Some(Entry(KeyA, 100.0)), Some(Entry(KeyB, 100.0))];
    KeysDiffer();
    assert os[..1] == [Some(Entry(KeyA, 100.0))];
    assert os[..1][..0] == [];
    assert Rebuild(os[..1]) == [Entry(KeyA, 100.0)];
  }

  /** A collection holding one estimate whose one line carries "1,2" comes
      out with that line's dictionary giving both resources 100 percent and
      its assignment text re-encoded from that dictionary. */
  lemma MigratesLegacyLine(e: Estimate, f: FunctionalLineItem, parseDecimal: DecimalParser, encode: Encoder)
    requires f.assignedResourceIds == Some(BothIds) && e.functionalItems == [f]
    ensures var r := MigrateAssignments(Some([e]), TwoResources, parseDecimal, encode);
            && r.Migrated? && |r.estimates| == 1 && |r.estimates[0].functionalItems| == 1
            && r.estimates[0].functionalItems[0].assignedResources == Some([Entry(KeyA, 100.0), Entry(KeyB, 100.0)])
            && r.estimates[0].functionalItems[0].assignedResourceIds == Some(encode([Entry(KeyA, 100.0), Entry(KeyB, 100.0)]))
  {
    var rev := map[1 := KeyA, 2 := KeyB];
    var d := [Entry(KeyA, 100.0), Entry(KeyB, 100.0)];
    var g := MigrateLine(f, rev, parseDecimal, encode);
    assert g == f.(assignedResources := Some(d), assignedResourceIds := Some(encode(d))) by {
      assert !IsWhiteSpace(BothIds[0]);
      LegacyTextMigrates(parseDecimal);
    }
    var e2 := MigrateEstimate(e, rev, parseDecimal, encode);
    assert e2.functionalItems == [g];
    NumbersReverse();
    assert MigrateAssignments(Some([e]), TwoResources, parseDecimal, encode) == Migrated([e2]);
  }

  lemma LegacyTextMigrates(parseDecimal: DecimalParser)
    ensures MigrateText(BothIds, map[1 := KeyA, 2 := KeyB], parseDecimal) == [Entry(KeyA, 100.0), Entry(KeyB, 100.0)]
  {
    BareNumbersOutcomes(parseDecimal);
    BothKept();
  }
}
