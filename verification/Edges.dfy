/**
 Reading triggers: the condition with its re-arm margin, the edge that fires
 once per crossing, after a hold if it has one.
 */
module Edges {
  import opened Wrappers

  datatype Operator = RisesAbove | FallsBelow | Becomes

  /** Threshold and margin are for numeric series, value for the rest. A hold of 0 fires at once. */
  datatype ReadingCondition = ReadingCondition(operator: Operator, threshold: real, margin: real, value: string,
                                               hold: nat)

  datatype Reading = Reading(numericValue: Option<real>, textState: Option<string>)

  const REARM_TOLERANCE: real := 0.000000001

  /** A reading may lack the number or the text the condition is about; then ok is unset and the rest says nothing. */
  datatype Verdict = Verdict(met: bool, rearmed: bool, ok: bool)

  function LowerCase(c: char): char {
    if 'A' <= c <= 'Z' then c - 'A' + 'a' else c
  }

  predicate EqualFold(a: string, b: string) {
    |a| == |b| && forall i :: 0 <= i < |a| ==> LowerCase(a[i]) == LowerCase(b[i])
  }

  function Test(c: ReadingCondition, reading: Reading): Verdict {
    if c.operator.Becomes? then
      if reading.textState.None? then Verdict(false, false, false)
      else
        var met := EqualFold(reading.textState.value, c.value);
        Verdict(met, !met, true)
    else if reading.numericValue.None? then Verdict(false, false, false)
    else
      var value := reading.numericValue.value;
      if c.operator.FallsBelow? then
        Verdict(value < c.threshold, value >= c.threshold + c.margin - REARM_TOLERANCE, true)
      else Verdict(value > c.threshold, value <= c.threshold - c.margin + REARM_TOLERANCE, true)
  }

  predicate Meets(c: ReadingCondition, reading: Reading) {
    Test(c, reading).ok && Test(c, reading).met
  }

  predicate Rearms(c: ReadingCondition, reading: Reading) {
    Test(c, reading).ok && Test(c, reading).rearmed
  }

  // ---------- What a condition asks of a reading ----------

  /** Above the threshold, below it, or the text given whatever the case of its letters. */
  ghost predicate Crosses(c: ReadingCondition, reading: Reading) {
    match c.operator
    case RisesAbove => reading.numericValue.Some? && reading.numericValue.value > c.threshold
    case FallsBelow => reading.numericValue.Some? && reading.numericValue.value < c.threshold
    case Becomes => reading.textState.Some? && SameText(reading.textState.value, c.value)
  }

  /** Back across the threshold by the margin, give or take the tolerance, or another text. */
  ghost predicate GoesBack(c: ReadingCondition, reading: Reading) {
    match c.operator
    case RisesAbove =>
      reading.numericValue.Some? && reading.numericValue.value <= c.threshold - c.margin + 0.000000001
    case FallsBelow =>
      reading.numericValue.Some? && reading.numericValue.value >= c.threshold + c.margin - 0.000000001
    case Becomes => reading.textState.Some? && !SameText(reading.textState.value, c.value)
  }

  /** The same characters, but that a letter from A to Z may be in either case. */
  ghost predicate SameText(a: string, b: string) {
    |a| == |b| && forall i :: 0 <= i < |a| ==> a[i] == b[i] || IsUpperOf(a[i], b[i]) || IsUpperOf(b[i], a[i])
  }

  ghost predicate IsUpperOf(upper: char, lower: char) {
    'A' <= upper <= 'Z' && lower as int == upper as int - 'A' as int + 'a' as int
  }

  lemma FoldsCase(a: string, b: string)
    ensures EqualFold(a, b) <==> SameText(a, b)
  {
    forall x: char, y: char ensures LowerCase(x) == LowerCase(y) <==> x == y || IsUpperOf(x, y) || IsUpperOf(y, x) {}
    hide LowerCase, IsUpperOf;
  }

  /** The test is met by exactly the readings that cross, and re-armed by exactly those that go back. */
  lemma TestTells(c: ReadingCondition, reading: Reading)
    ensures Meets(c, reading) <==> Crosses(c, reading)
    ensures Rearms(c, reading) <==> GoesBack(c, reading)
    ensures Test(c, reading).ok <==> if c.operator.Becomes? then reading.textState.Some? else reading.numericValue.Some?
  {
    if c.operator.Becomes? && reading.textState.Some? {
      FoldsCase(reading.textState.value, c.value);
    }
    hide EqualFold, SameText;
  }

  /**
   What meets a rise is met by every higher reading and re-armed by every lower one; a fall is the
   rise's mirror image.
   */
  lemma RisesAndFalls(c: ReadingCondition, low: real, high: real)
    requires c.operator.RisesAbove? && low <= high
    ensures Meets(c, Reading(Some(low), None)) ==> Meets(c, Reading(Some(high), None))
    ensures Rearms(c, Reading(Some(high), None)) ==> Rearms(c, Reading(Some(low), None))
    ensures !Meets(c, Reading(Some(c.threshold), None))
    ensures var fall := c.(operator := FallsBelow, threshold := -c.threshold);
            && Test(fall, Reading(Some(-low), None)) == Test(c, Reading(Some(low), None))
            && Test(fall, Reading(Some(-high), None)) == Test(c, Reading(Some(high), None))
  {
  }

  /** Some reading would both re-arm the trigger and meet its condition. */
  ghost predicate Chatters(c: ReadingCondition) {
    exists reading :: Meets(c, reading) && Rearms(c, reading)
  }

  /** The margin keeps re-arming apart from meeting exactly when it is no smaller than the tolerance. */
  lemma MarginSeparates(c: ReadingCondition)
    ensures Chatters(c) <==> !c.operator.Becomes? && c.margin < REARM_TOLERANCE
  {
    if !c.operator.Becomes? && c.margin < REARM_TOLERANCE {
      var part := (REARM_TOLERANCE - c.margin) / 2.0;
      var value := if c.operator.FallsBelow? then c.threshold - part else c.threshold + part;
      var reading := Reading(Some(value), None);
      assert Meets(c, reading) && Rearms(c, reading);
    }
  }

  datatype EdgeAction = Nothing | Fire | Hold | Release

  /** What an edge remembers. A new one is armed. */
  datatype EdgeState = EdgeState(fired: bool, holding: bool, holdUntil: Instant, holdCause: Option<int>)

  const NEW_EDGE := EdgeState(false, false, 0, None)

  function Observed(e: EdgeState, c: ReadingCondition, reading: Reading, now: Instant): (EdgeState, EdgeAction) {
    var Verdict(met, rearmed, ok) := Test(c, reading);
    if !ok then (e, Nothing)
    else if e.fired then (e.(fired := !rearmed), Nothing)
    else if e.holding then
      if met then (e, Nothing) else (e.(holding := false), Release)
    else if !met then (e, Nothing)
    else if c.hold == 0 then (e.(fired := true), Fire)
    else (e.(holding := true, holdUntil := now + c.hold), Hold)
  }

  function Elapsed(e: EdgeState, due: Instant): (EdgeState, bool) {
    if e.holding && e.holdUntil == due then (e.(holding := false, fired := true), true) else (e, false)
  }

  class Edge {
    var fired: bool
    var holding: bool
    var holdUntil: Instant
    var holdCause: Option<int>

    ghost function State(): EdgeState
      reads this
    {
      EdgeState(fired, holding, holdUntil, holdCause)
    }

    constructor ()
      ensures State() == NEW_EDGE
    {
      fired, holding, holdUntil, holdCause := false, false, 0, None;
    }

    method Observe(condition: ReadingCondition, reading: Reading, now: Instant) returns (action: EdgeAction)
      modifies this
      ensures State() == Observed(old(State()), condition, reading, now).0
      ensures action == Observed(old(State()), condition, reading, now).1
    {
      var Verdict(met, rearmed, ok) := Test(condition, reading);
      if !ok {
        action := Nothing;
      } else if fired {
        fired := !rearmed;
        action := Nothing;
      } else if !met && holding {
        holding := false;
        action := Release;
      } else if !met || holding {
        action := Nothing;
      } else if condition.hold == 0 {
        fired := true;
        action := Fire;
      } else {
        holding := true;
        holdUntil := now + condition.hold;
        action := Hold;
      }
    }

    method HoldElapsed(due: Instant) returns (elapsed: bool)
      modifies this
      ensures State() == Elapsed(old(State()), due).0
      ensures elapsed == Elapsed(old(State()), due).1
    {
      if !holding || holdUntil != due {
        elapsed := false;
      } else {
        holding := false;
        fired := true;
        elapsed := true;
      }
    }
  }
}
