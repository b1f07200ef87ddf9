/** The stand-alone pattern generators of src/utils/shiftPatterns.ts. They
    walk the range by day offset (`differenceInDays` and `addDays`) rather
    than by stepping a `Date`, but produce the same maps as the store's own
    generator. */
module ShiftPatterns {
  import opened Calendar
  import opened ShiftStore

  /** The pongdang rotation: work on even offsets, rest on odd ones. */
  function PongdangAt(offset: int): ShiftType {
    if offset % 2 == 0 then Day else Off
  }

  /** One iteration of an offset loop: the entry for offset `i` put in front
      of the entries for offsets `i + 1 .. days`. */
  lemma OffsetStep(rest: map<Date, ShiftType>, start: Date, i: nat, days: int, f: int -> ShiftType)
    requires i <= days
    requires forall d: Date :: d in rest <==> i + 1 <= DifferenceInDays(d, start) <= days
    requires forall d :: d in rest ==> rest[d] == f(DifferenceInDays(d, start))
    ensures var r := rest[AddDays(start, i) := f(i)];
            && (forall d: Date :: d in r <==> i <= DifferenceInDays(d, start) <= days)
            && (forall d :: d in r ==> r[d] == f(DifferenceInDays(d, start)))
  {
    OrdinalIdentifies(AddDays(start, i));
  }

  /** The `for (let i = 0; i <= days; i++)` loop of `generatePongdangPattern`
      from `i` on. */
  function PongdangFrom(start: Date, i: nat, days: int): (r: map<Date, ShiftType>)
    ensures forall d: Date :: d in r <==> i <= DifferenceInDays(d, start) <= days
    ensures forall d :: d in r ==> r[d] == PongdangAt(DifferenceInDays(d, start))
    decreases days - i + 1
  {
    if i <= days then
      var rest := PongdangFrom(start, i + 1, days);
      OffsetStep(rest, start, i, days, PongdangAt);
      rest[AddDays(start, i) := if i % 2 == 0 then Day else Off]
    else
      map[]
  }

  /** The same loop in `generateCustomPattern`. */
  function CustomFrom(start: Date, i: nat, days: int, pattern: Pattern): (r: map<Date, ShiftType>)
    ensures forall d: Date :: d in r <==> i <= DifferenceInDays(d, start) <= days
    ensures forall d :: d in r ==> r[d] == PatternAt(pattern, DifferenceInDays(d, start))
    decreases days - i + 1
  {
    if i <= days then
      var rest := CustomFrom(start, i + 1, days, pattern);
      OffsetStep(rest, start, i, days, k => PatternAt(pattern, k));
      rest[AddDays(start, i) := pattern[i % |pattern|]]
    else
      map[]
  }

  /** `generatePongdangPattern(startDate, endDate)`. */
  function GeneratePongdangPattern(start: Date, end: Date): (r: map<Date, ShiftType>)
    ensures forall d: Date :: d in r <==> InRange(d, start, end)
    ensures forall d :: d in r ==> r[d] == PongdangAt(DifferenceInDays(d, start))
  {
    PongdangFrom(start, 0, DifferenceInDays(end, start))
  }

  /** `generateCustomPattern(startDate, endDate, pattern)`; an empty cycle
      gives an empty map. */
  function GenerateCustomPattern(start: Date, end: Date, pattern: seq<ShiftType>): (r: map<Date, ShiftType>)
    ensures |pattern| == 0 ==> r == map[]
    ensures |pattern| > 0 ==> IsExpansion(r, start, end, pattern)
  {
    if |pattern| == 0 then map[] else CustomFrom(start, 0, DifferenceInDays(end, start), pattern)
  }

  // ---------------------------------------------------------------------------
  // Lemmas

  lemma SameMaps(a: map<Date, ShiftType>, b: map<Date, ShiftType>)
    requires forall d: Date :: d in a <==> d in b
    requires forall d :: d in a ==> a[d] == b[d]
    ensures a == b
  {
    assert a.Keys == b.Keys;
  }

  /** The pongdang generator is the custom generator with the cycle `[day, off]`. */
  lemma PongdangIsDayOffCycle(start: Date, end: Date)
    ensures GeneratePongdangPattern(start, end) == GenerateCustomPattern(start, end, [Day, Off])
  {
    var a, b := GeneratePongdangPattern(start, end), GenerateCustomPattern(start, end, [Day, Off]);
    forall d | d in a
      ensures a[d] == b[d]
    {
      var k := DifferenceInDays(d, start);
      assert PongdangAt(k) == PatternAt([Day, Off], k);
    }
    SameMaps(a, b);
  }

  /** For a non-empty cycle, the utility generator and the store's generator
      produce the same map. */
  lemma CustomAgreesWithStore(start: Date, end: Date, pattern: seq<ShiftType>)
    requires |pattern| > 0
    ensures GenerateCustomPattern(start, end, pattern) == GenerateShiftsFromPattern(start, end, pattern)
  {
    SameMaps(GenerateCustomPattern(start, end, pattern), GenerateShiftsFromPattern(start, end, pattern));
  }

  /** A non-empty cycle over `[start, end]` yields `differenceInDays(end, start) + 1`
      entries, and none when the range is reversed. */
  lemma CustomSize(start: Date, end: Date, pattern: seq<ShiftType>)
    requires |pattern| > 0
    ensures |GenerateCustomPattern(start, end, pattern)|
            == if NotAfter(start, end) then DifferenceInDays(end, start) + 1 else 0
  {
    CustomAgreesWithStore(start, end, pattern);
  }

  /** Day offset `i` of the range holds entry `i mod |pattern|` of the cycle,
      for every offset `0 <= i <= differenceInDays(end, start)`. */
  lemma CustomOffsets(start: Date, end: Date, pattern: seq<ShiftType>, i: nat)
    requires |pattern| > 0
    requires i <= DifferenceInDays(end, start)
    ensures AddDays(start, i) in GenerateCustomPattern(start, end, pattern)
    ensures GenerateCustomPattern(start, end, pattern)[AddDays(start, i)] == pattern[i % |pattern|]
  {
    var m, d := GenerateCustomPattern(start, end, pattern), AddDays(start, i);
    assert DifferenceInDays(d, start) == i;
    assert InRange(d, start, end);
    assert m[d] == PatternAt(pattern, i);
  }

  /** With the end before the start the loop bound is negative and every
      generator returns the empty map, raising nothing. */
  lemma ReversedRangeIsEmpty(start: Date, end: Date, pattern: Pattern)
    requires Before(end, start)
    ensures GeneratePongdangPattern(start, end) == map[]
    ensures GenerateCustomPattern(start, end, pattern) == map[]
    ensures GenerateShiftsFromPattern(start, end, pattern) == map[]
  {
    SameMaps(GeneratePongdangPattern(start, end), map[]);
    SameMaps(GenerateCustomPattern(start, end, pattern), map[]);
    SameMaps(GenerateShiftsFromPattern(start, end, pattern), map[]);
  }
}
