/** The shift registry (src/store/useShiftStore.ts): a map from calendar day to
    shift type, plus the list of pattern groups that wrote into it.

    The store's actions become pure functions from the old state to the new
    one; `persist` and the generated ids and timestamps stay outside (the id of
    a new group is a parameter). */
module ShiftStore {
  import opened Options
  import opened Calendar
  import DateKey

  datatype ShiftType = Day | Night | Evening | Off

  /** A repeating cycle of shift types. The store has no guard against an empty
      one; its only caller passes one of three fixed non-empty cycles. */
  type Pattern = p: seq<ShiftType> | |p| > 0 witness [Off]

  datatype PatternGroup = PatternGroup(id: string, pattern: Pattern, startDate: Date, endDate: Date)

  datatype ShiftState = ShiftState(shifts: map<Date, ShiftType>, patternGroups: seq<PatternGroup>)

  const InitialState: ShiftState := ShiftState(map[], [])

  /** The entry a cycle prescribes `offset` days into its range. */
  function PatternAt(pattern: Pattern, offset: int): ShiftType {
    pattern[offset % |pattern|]
  }

  /** `m` is the expansion of `pattern` over `[start, end]`: one entry per day
      of the range and nothing else, day `i` of the range holding entry
      `i mod |pattern|` of the cycle. */
  ghost predicate IsExpansion(m: map<Date, ShiftType>, start: Date, end: Date, pattern: Pattern) {
    && (forall d: Date :: d in m <==> InRange(d, start, end))
    && (forall d :: d in m ==> m[d] == PatternAt(pattern, DifferenceInDays(d, start)))
  }

  /** Key `d` is absent from both maps or maps to the same shift in both. */
  predicate SameEntry(a: map<Date, ShiftType>, b: map<Date, ShiftType>, d: Date) {
    (d in a <==> d in b) && (d in a ==> a[d] == b[d])
  }

  /** Whether a group's (inclusive) date range contains `d`. */
  predicate Contains(g: PatternGroup, d: Date) {
    InRange(d, g.startDate, g.endDate)
  }

  lemma OrdinalIdentifies(c: Date)
    ensures forall d: Date :: Ordinal(d) == Ordinal(c) ==> d == c
  {
    forall d: Date | Ordinal(d) == Ordinal(c) {
      OrdinalInjective(d, c);
    }
  }

  // ---------------------------------------------------------------------------
  // generateShiftsFromPattern

  /** `m` is the loop's output from `current` on: one entry per day of
      `[current, end]`, day `i` after `current` holding cycle entry
      `(index + i) mod |pattern|`. */
  ghost predicate ExpansionFrom(m: map<Date, ShiftType>, current: Date, end: Date, index: nat, pattern: Pattern) {
    && (forall d: Date :: d in m <==> InRange(d, current, end))
    && (forall d :: d in m ==> m[d] == PatternAt(pattern, index + DifferenceInDays(d, current)))
  }

  /** The `while (currentDate <= end)` loop from `current` on, `index` being
      the loop's `patternIndex`. */
  function GenerateFrom(current: Date, end: Date, index: nat, pattern: Pattern): (r: map<Date, ShiftType>)
    ensures ExpansionFrom(r, current, end, index, pattern)
    decreases Ordinal(end) - Ordinal(current) + 1
  {
    if NotAfter(current, end) then
      var rest := GenerateFrom(Next(current), end, index + 1, pattern);
      GenerateStep(rest, current, Next(current), end, index, pattern);
      rest[current := pattern[index % |pattern|]]
    else
      map[]
  }

  /** One iteration of the loop: writing `current` in front of the expansion
      of the days after it (from `next`, the following day) gives the
      expansion from `current`. */
  lemma GenerateStep(rest: map<Date, ShiftType>, current: Date, next: Date, end: Date, index: nat, pattern: Pattern)
    requires Ordinal(next) == Ordinal(current) + 1
    requires NotAfter(current, end)
    requires ExpansionFrom(rest, next, end, index + 1, pattern)
    ensures ExpansionFrom(rest[current := pattern[index % |pattern|]], current, end, index, pattern)
  {
    var r := rest[current := pattern[index % |pattern|]];
    forall d: Date
      ensures d in r <==> InRange(d, current, end)
      ensures d in r ==> r[d] == PatternAt(pattern, index + DifferenceInDays(d, current))
    {
      if d == current {
        assert PatternAt(pattern, index + DifferenceInDays(d, current)) == pattern[index % |pattern|];
      } else {
        if Ordinal(d) == Ordinal(current) {
          OrdinalInjective(d, current);
        }
        if d in rest {
          assert r[d] == rest[d] == PatternAt(pattern, index + 1 + DifferenceInDays(d, next));
          assert index + 1 + DifferenceInDays(d, next) == index + DifferenceInDays(d, current);
        }
      }
    }
  }

  /** `generateShiftsFromPattern(startDate, endDate, pattern)`. */
  function GenerateShiftsFromPattern(start: Date, end: Date, pattern: Pattern): (r: map<Date, ShiftType>)
    ensures IsExpansion(r, start, end, pattern)
    ensures |r| == if NotAfter(start, end) then DifferenceInDays(end, start) + 1 else 0
  {
    GenerateFromSize(start, end, 0, pattern);
    GenerateFrom(start, end, 0, pattern)
  }

  /** The loop writes one key per day of the range: none is written twice. */
  lemma {:induction false} GenerateFromSize(current: Date, end: Date, index: nat, pattern: Pattern)
    ensures |GenerateFrom(current, end, index, pattern)|
            == if NotAfter(current, end) then DifferenceInDays(end, current) + 1 else 0
    decreases Ordinal(end) - Ordinal(current) + 1
  {
    if NotAfter(current, end) {
      GenerateFromSize(Next(current), end, index + 1, pattern);
      var rest := GenerateFrom(Next(current), end, index + 1, pattern);
      assert current !in rest;
    }
  }

  /** The `delete updatedShifts[dateStr]` loop of `updatePatternGroupDates`. */
  function DeleteRange(m: map<Date, ShiftType>, current: Date, end: Date): (r: map<Date, ShiftType>)
    ensures forall d: Date :: d in r <==> d in m && !InRange(d, current, end)
    ensures forall d :: d in r ==> r[d] == m[d]
    decreases Ordinal(end) - Ordinal(current) + 1
  {
    if NotAfter(current, end) then
      OrdinalIdentifies(current);
      DeleteRange(m - {current}, Next(current), end)
    else
      m
  }

  // ---------------------------------------------------------------------------
  // Array.prototype.find over the group list

  /** Index of the first element satisfying `p`, if any. */
  function FirstIndex<T>(xs: seq<T>, p: T -> bool): (r: Option<nat>)
    ensures r.None? <==> forall k :: 0 <= k < |xs| ==> !p(xs[k])
    ensures r.Some? ==> r.value < |xs| && p(xs[r.value])
    ensures r.Some? ==> forall k :: 0 <= k < r.value ==> !p(xs[k])
  {
    if |xs| == 0 then None
    else if p(xs[0]) then Some(0)
    else match FirstIndex(xs[1..], p)
      case None => None
      case Some(i) => Some(i + 1)
  }

  /** `patternGroups.find(g => g.id === groupId)`. */
  function GroupWithId(groups: seq<PatternGroup>, id: string): (r: Option<PatternGroup>)
    ensures r.None? <==> forall k :: 0 <= k < |groups| ==> groups[k].id != id
    ensures r.Some? ==> r.value.id == id
    ensures r.Some? ==> exists k :: 0 <= k < |groups| && groups[k] == r.value
                                    && forall j :: 0 <= j < k ==> groups[j].id != id
  {
    match FirstIndex(groups, (g: PatternGroup) => g.id == id)
    case None => None
    case Some(k) => Some(groups[k])
  }

  // ---------------------------------------------------------------------------
  // Store actions

  /** `setShift(date, type)`. */
  function SetShift(s: ShiftState, date: Date, t: ShiftType): (s': ShiftState)
    ensures date in s'.shifts && s'.shifts[date] == t
    ensures forall d :: d != date ==> SameEntry(s.shifts, s'.shifts, d)
    ensures s'.patternGroups == s.patternGroups
  {
    s.(shifts := s.shifts[date := t])
  }

  /** `addPatternGroup(startDate, endDate, pattern)`, with `id` standing for
      the generated identifier. */
  function AddPatternGroup(s: ShiftState, id: string, start: Date, end: Date, pattern: Pattern): (s': ShiftState)
    ensures s'.patternGroups == s.patternGroups + [PatternGroup(id, pattern, start, end)]
    ensures forall d :: InRange(d, start, end) ==>
              d in s'.shifts && s'.shifts[d] == PatternAt(pattern, DifferenceInDays(d, start))
    ensures forall d :: !InRange(d, start, end) ==> SameEntry(s.shifts, s'.shifts, d)
  {
    var newShifts := GenerateShiftsFromPattern(start, end, pattern);
    ShiftState(s.shifts + newShifts, s.patternGroups + [PatternGroup(id, pattern, start, end)])
  }

  /** The `patternGroups.map` of `updatePatternGroupDates`. */
  function Retime(groups: seq<PatternGroup>, id: string, start: Date, end: Date): (r: seq<PatternGroup>)
    ensures |r| == |groups|
    ensures forall k :: 0 <= k < |r| ==> r[k].id == groups[k].id && r[k].pattern == groups[k].pattern
    ensures forall k :: 0 <= k < |r| && groups[k].id != id ==> r[k] == groups[k]
    ensures forall k :: 0 <= k < |r| && groups[k].id == id ==> r[k].startDate == start && r[k].endDate == end
  {
    seq(|groups|, k requires 0 <= k < |groups| =>
      if groups[k].id == id then groups[k].(startDate := start, endDate := end) else groups[k])
  }

  /** `updatePatternGroupDates(groupId, newStartDate, newEndDate)`: clear the
      group's old range, expand its cycle over the new range, and record the
      new bounds. Unknown ids leave the state as it is. */
  function UpdatePatternGroupDates(s: ShiftState, id: string, newStart: Date, newEnd: Date): (s': ShiftState)
    ensures GroupWithId(s.patternGroups, id).None? ==> s' == s
    ensures GroupWithId(s.patternGroups, id).Some? ==>
              var g := GroupWithId(s.patternGroups, id).value;
              && (forall d :: InRange(d, newStart, newEnd) ==>
                    d in s'.shifts && s'.shifts[d] == PatternAt(g.pattern, DifferenceInDays(d, newStart)))
              && (forall d :: Contains(g, d) && !InRange(d, newStart, newEnd) ==> d !in s'.shifts)
              && (forall d :: !Contains(g, d) && !InRange(d, newStart, newEnd) ==>
                    SameEntry(s.shifts, s'.shifts, d))
    ensures |s'.patternGroups| == |s.patternGroups|
    ensures forall k :: 0 <= k < |s.patternGroups| ==>
              s'.patternGroups[k].id == s.patternGroups[k].id
              && s'.patternGroups[k].pattern == s.patternGroups[k].pattern
    ensures forall k :: 0 <= k < |s.patternGroups| && s.patternGroups[k].id != id ==>
              s'.patternGroups[k] == s.patternGroups[k]
    ensures forall k :: 0 <= k < |s.patternGroups| && s.patternGroups[k].id == id ==>
              s'.patternGroups[k].startDate == newStart && s'.patternGroups[k].endDate == newEnd
  {
    match GroupWithId(s.patternGroups, id)
    case None => s
    case Some(group) =>
      var cleared := DeleteRange(s.shifts, group.startDate, group.endDate);
      var newShifts := GenerateShiftsFromPattern(newStart, newEnd, group.pattern);
      ShiftState(cleared + newShifts, Retime(s.patternGroups, id, newStart, newEnd))
  }

  /** `findPatternGroupForDate(date)`: the first group in list order whose
      range contains the day, or none. */
  function FindPatternGroupForDate(s: ShiftState, date: Date): (r: Option<PatternGroup>)
    ensures r.None? <==> forall k :: 0 <= k < |s.patternGroups| ==> !Contains(s.patternGroups[k], date)
    ensures r.Some? ==> Contains(r.value, date)
    ensures r.Some? ==> exists k :: 0 <= k < |s.patternGroups| && s.patternGroups[k] == r.value
                                    && forall j :: 0 <= j < k ==> !Contains(s.patternGroups[j], date)
  {
    match FirstIndex(s.patternGroups, (g: PatternGroup) => Contains(g, date))
    case None => None
    case Some(k) => Some(s.patternGroups[k])
  }

  /** `clearShifts()`. */
  function ClearShifts(s: ShiftState): (s': ShiftState)
    ensures s' == InitialState
  {
    ShiftState(map[], [])
  }

  // ---------------------------------------------------------------------------
  // Invariant: group ids are unique

  ghost predicate UniqueIds(groups: seq<PatternGroup>) {
    forall i, j :: 0 <= i < j < |groups| ==> groups[i].id != groups[j].id
  }

  predicate IdIsFresh(s: ShiftState, id: string) {
    forall k :: 0 <= k < |s.patternGroups| ==> s.patternGroups[k].id != id
  }

  /** Every action keeps the group ids unique, provided a new group gets an id
      not yet in use. */
  lemma ActionsPreserveUniqueIds(s: ShiftState, date: Date, t: ShiftType, id: string,
                                 start: Date, end: Date, pattern: Pattern, target: string)
    requires UniqueIds(s.patternGroups)
    ensures UniqueIds(InitialState.patternGroups)
    ensures UniqueIds(SetShift(s, date, t).patternGroups)
    ensures IdIsFresh(s, id) ==> UniqueIds(AddPatternGroup(s, id, start, end, pattern).patternGroups)
    ensures UniqueIds(UpdatePatternGroupDates(s, target, start, end).patternGroups)
    ensures UniqueIds(ClearShifts(s).patternGroups)
  {
  }

  /** With unique ids, editing a group's dates touches that one group and no
      other entry of the list. */
  lemma {:induction false} UpdateRetimesExactlyOneGroup(s: ShiftState, k: nat, newStart: Date, newEnd: Date)
    requires UniqueIds(s.patternGroups)
    requires k < |s.patternGroups|
    ensures var s' := UpdatePatternGroupDates(s, s.patternGroups[k].id, newStart, newEnd);
            && s'.patternGroups[k] == s.patternGroups[k].(startDate := newStart, endDate := newEnd)
            && forall j :: 0 <= j < |s.patternGroups| && j != k ==> s'.patternGroups[j] == s.patternGroups[j]
  {
    var s' := UpdatePatternGroupDates(s, s.patternGroups[k].id, newStart, newEnd);
    assert GroupWithId(s.patternGroups, s.patternGroups[k].id).Some?;
    forall j | 0 <= j < |s.patternGroups| && j != k
      ensures s'.patternGroups[j] == s.patternGroups[j]
    {
      if j < k {
        assert s.patternGroups[j].id != s.patternGroups[k].id;
      } else {
        assert s.patternGroups[k].id != s.patternGroups[j].id;
      }
    }
  }

  // ---------------------------------------------------------------------------
  // Properties relating several actions

  /** Applying a cycle over range A and then moving that group to range B
      leaves exactly the expansion over B, nothing of A outside B, every other
      day as it was before, and the group recorded with its new bounds. */
  lemma {:induction false} EditAfterAddRoundTrip(s: ShiftState, id: string, a1: Date, a2: Date,
                                                 b1: Date, b2: Date, pattern: Pattern)
    requires IdIsFresh(s, id)
    ensures var s2 := UpdatePatternGroupDates(AddPatternGroup(s, id, a1, a2, pattern), id, b1, b2);
            && (forall d :: InRange(d, b1, b2) ==>
                  d in s2.shifts && s2.shifts[d] == PatternAt(pattern, DifferenceInDays(d, b1)))
            && (forall d :: InRange(d, a1, a2) && !InRange(d, b1, b2) ==> d !in s2.shifts)
            && (forall d :: !InRange(d, a1, a2) && !InRange(d, b1, b2) ==> SameEntry(s.shifts, s2.shifts, d))
            && s2.patternGroups == s.patternGroups + [PatternGroup(id, pattern, b1, b2)]
  {
    var s1 := AddPatternGroup(s, id, a1, a2, pattern);
    var s2 := UpdatePatternGroupDates(s1, id, b1, b2);
    var n := |s.patternGroups|;
    assert s1.patternGroups[n] == PatternGroup(id, pattern, a1, a2);
    var found := GroupWithId(s1.patternGroups, id);
    assert found.Some?;
    assert found.value == PatternGroup(id, pattern, a1, a2) by {
      var k :| 0 <= k < |s1.patternGroups| && s1.patternGroups[k] == found.value
                && forall j :: 0 <= j < k ==> s1.patternGroups[j].id != id;
    }
    assert |s2.patternGroups| == n + 1;
    forall j | 0 <= j <= n
      ensures s2.patternGroups[j] == (s.patternGroups + [PatternGroup(id, pattern, b1, b2)])[j]
    {
      if j < n {
        assert s1.patternGroups[j] == s.patternGroups[j];
      }
    }
  }

  /** After `clearShifts` no day has a shift and no group is found. */
  lemma ClearForgetsEverything(s: ShiftState, d: Date)
    ensures d !in ClearShifts(s).shifts
    ensures FindPatternGroupForDate(ClearShifts(s), d).None?
  {
  }

  /** The containment test of `findPatternGroupForDate` is written on keys:
      `date >= group.startDate && date <= group.endDate`. For years 0..9999
      it is exactly the chronological test used here. */
  lemma ContainsMatchesKeyComparison(g: PatternGroup, d: Date)
    requires 0 <= d.year <= 9999 && 0 <= g.startDate.year <= 9999 && 0 <= g.endDate.year <= 9999
    ensures Contains(g, d) <==>
              !DateKey.LexLess(DateKey.Format(d), DateKey.Format(g.startDate))
              && !DateKey.LexLess(DateKey.Format(g.endDate), DateKey.Format(d))
  {
    DateKey.KeyOrderIsChronological(d, g.startDate);
    DateKey.KeyOrderIsChronological(g.endDate, d);
  }

  /** Any expansion of the cycle `[day, off]` over four consecutive days is
      day, off, day, off. */
  lemma FourDayAlternation(start: Date, m: map<Date, ShiftType>)
    requires IsExpansion(m, start, Next(Next(Next(start))), [Day, Off])
    ensures m == map[start := Day, Next(start) := Off, Next(Next(start)) := Day, Next(Next(Next(start))) := Off]
  {
    ConsecutiveDays(m, start, Next(start), Next(Next(start)), Next(Next(Next(start))));
  }

  /** `FourDayAlternation` for four days given by their ordinals. */
  lemma ConsecutiveDays(m: map<Date, ShiftType>, d1: Date, d2: Date, d3: Date, d4: Date)
    requires Ordinal(d2) == Ordinal(d1) + 1 && Ordinal(d3) == Ordinal(d2) + 1 && Ordinal(d4) == Ordinal(d3) + 1
    requires IsExpansion(m, d1, d4, [Day, Off])
    ensures m == map[d1 := Day, d2 := Off, d3 := Day, d4 := Off]
  {
    var expected := map[d1 := Day, d2 := Off, d3 := Day, d4 := Off];
    assert PatternAt([Day, Off], 0) == Day && PatternAt([Day, Off], 1) == Off;
    assert PatternAt([Day, Off], 2) == Day && PatternAt([Day, Off], 3) == Off;
    assert InRange(d1, d1, d4) && InRange(d2, d1, d4) && InRange(d3, d1, d4) && InRange(d4, d1, d4);
    forall d: Date | d in m
      ensures d in expected
    {
      var o := Ordinal(d) - Ordinal(d1);
      if o == 0 {
        OrdinalInjective(d, d1);
      } else if o == 1 {
        OrdinalInjective(d, d2);
      } else if o == 2 {
        OrdinalInjective(d, d3);
      } else {
        OrdinalInjective(d, d4);
      }
    }
    assert m.Keys == expected.Keys;
  }

  /** The worked case of the cycle: `[day, off]` from any day (2024-01-01,
      say) to three days later alternates day, off, day, off. */
  lemma AlternatingFourDays(start: Date)
    ensures var d2 := Next(start); var d3 := Next(d2); var d4 := Next(d3);
            GenerateShiftsFromPattern(start, d4, [Day, Off])
            == map[start := Day, d2 := Off, d3 := Day, d4 := Off]
  {
    FourDayAlternation(start, GenerateShiftsFromPattern(start, Next(Next(Next(start))), [Day, Off]));
  }
}
