/**
  `List.slice(start, stop, step)`: a fixed pipeline of take, skip, take_last
  and skip_last stages, chosen by the signs of the arguments, written here as
  the direct composition of those stages. Stages run in this order whatever
  the arguments: `take(stop)` when `stop >= 0`; then `skip(start)` when
  `start > 0` or `take_last(-start)` when `start < 0`; then `skip_last(-stop)`
  when `stop < 0`. A negative step raises before any stage runs.

  A step above one adds a final stage from the lazy-sequence module (pairing
  each element with its position and keeping the positions divisible by the
  step); that module is not part of this model, so the result then records
  the list handed to that stage and the step.
 */
module Slicing {
  import opened Wrappers
  import opened Lists

  /** `sys.maxsize` on a 64-bit CPython: 2^63 - 1. */
  const MaxSize: nat := 0x7FFF_FFFF_FFFF_FFFF

  datatype SliceOutput<T> =
    | Sliced(list: FList<T>)                  // step omitted, 0 or 1
    | Decimated(staged: FList<T>, step: nat)  // step > 1: input of the decimation stage

  function OrElse(option: Option<int>, default: int): int {
    if option.Some? then option.value else default
  }

  /** First stage: `take(stop)` when the stop is given and not negative. */
  function TakeStage<T>(xs: FList<T>, stop: Option<int>): Result<FList<T>> {
    if stop.Some? && stop.value >= 0 then Take(xs, stop.value) else Ok(xs)
  }

  /** Second stage: `skip(start)` for a positive start, `take_last(-start)` for a negative one. */
  function StartStage<T>(xs: FList<T>, start: int): Result<FList<T>> {
    if start > 0 then Skip(xs, start)
    else if start < 0 then TakeLast(xs, -start)
    else Ok(xs)
  }

  /** Third stage: `skip_last(-stop)` for a negative stop. */
  function SkipLastStage<T>(xs: FList<T>, stop: Option<int>): Result<FList<T>> {
    if stop.Some? && stop.value < 0 then SkipLast(xs, -stop.value) else Ok(xs)
  }

  /** The three stages in their fixed order; `stop` Nothing means no bound. */
  function Stages<T>(xs: FList<T>, start: int, stop: Option<int>): (r: Result<FList<T>>)
    ensures r.Fail? ==> r.error == NotEnoughElements
  {
    var taken :- TakeStage(xs, stop);
    var started :- StartStage(taken, start);
    SkipLastStage(started, stop)
  }

  /** A negative step raises; a step above one hands the staged list on. */
  function Finish<T>(staged: Result<FList<T>>, step: int): Result<SliceOutput<T>> {
    if step < 0 then Fail(NegativeStep)
    else
      var list :- staged;
      Ok(if step > 1 then Decimated(list, step) else Sliced(list))
  }

  /**
    `xs.slice(start, stop, step)` as written: an omitted stop defaults to
    `sys.maxsize` and so still runs `take(sys.maxsize)`.
   */
  function Slice<T>(xs: FList<T>, start: Option<int>, stop: Option<int>, step: Option<int>): (r: Result<SliceOutput<T>>)
    ensures OrElse(step, 1) < 0 ==> r == Fail(NegativeStep)
    ensures r.Fail? && r.error != NegativeStep ==> r.error == NotEnoughElements
    ensures r.Ok? ==> (r.value.Decimated? <==> OrElse(step, 1) > 1)
  {
    Finish(Stages(xs, OrElse(start, 0), Some(OrElse(stop, MaxSize))), OrElse(step, 1))
  }

  /**
    Slice with the evident intent of an omitted stop: no take stage at all,
    so the slice runs to the end of the list.
   */
  function SliceToEnd<T>(xs: FList<T>, start: Option<int>, stop: Option<int>, step: Option<int>): (r: Result<SliceOutput<T>>)
    ensures OrElse(step, 1) < 0 ==> r == Fail(NegativeStep)
    ensures stop.Some? ==> r == Slice(xs, start, stop, step)
  {
    Finish(Stages(xs, OrElse(start, 0), stop), OrElse(step, 1))
  }

  // ---------------------------------------------------------------------------
  // What the slices select

  /** With `0 <= start <= stop <= len`, slice selects the elements from start up to stop. */
  lemma SliceWithinBounds<T>(xs: FList<T>, start: nat, stop: nat, step: Option<int>)
    requires start <= stop <= Len(xs)
    requires OrElse(step, 1) in {0, 1}
    ensures Slice(xs, Some(start), Some(stop), step).Ok?
    ensures Slice(xs, Some(start), Some(stop), step).value.Sliced?
    ensures ToSeq(Slice(xs, Some(start), Some(stop), step).value.list) == ToSeq(xs)[start..stop]
  {
    LenIsLength(xs);
    var taken := Take(xs, stop).value;
    assert |ToSeq(taken)| == stop;
    if start > 0 {
      assert ToSeq(taken)[start..] == ToSeq(xs)[start..stop];
    }
  }

  /**
    A stop past the length makes take raise, unlike Python's own slicing,
    which clamps.
   */
  lemma SliceStopPastEnd<T>(xs: FList<T>, start: Option<int>, stop: nat, step: Option<int>)
    requires stop > Len(xs)
    requires OrElse(step, 1) >= 0
    ensures Slice(xs, start, Some(stop), step) == Fail(NotEnoughElements)
  {
    LenIsLength(xs);
  }

  /**
    With a non-negative start inside the list and a negative stop, slice keeps
    the elements from start up to `stop` elements before the end, and none
    when those overlap.
   */
  lemma SliceFromEnd<T>(xs: FList<T>, start: nat, stop: int, step: Option<int>)
    requires start < Len(xs) && stop < 0
    requires OrElse(step, 1) in {0, 1}
    ensures Slice(xs, Some(start), Some(stop), step).Ok?
    ensures Slice(xs, Some(start), Some(stop), step).value.Sliced?
    ensures var l := |ToSeq(xs)| + stop;
      ToSeq(Slice(xs, Some(start), Some(stop), step).value.list) == ToSeq(xs)[start..if l < start then start else l]
  {
    StagesFromEnd(xs, start, stop);
  }

  lemma StagesFromEnd<T>(xs: FList<T>, start: nat, stop: int)
    requires start < Len(xs) && stop < 0
    ensures Stages(xs, start, Some(stop)).Ok?
    ensures var l := |ToSeq(xs)| + stop;
      ToSeq(Stages(xs, start, Some(stop)).value) == ToSeq(xs)[start..if l < start then start else l]
  {
    StartStageSuffix(xs, start);
    var started := StartStage(xs, start).value;
    StagesNegativeStop(xs, start, stop);
    var l := |ToSeq(xs)| + stop;
    SkipLastSuffix(started, ToSeq(xs), start, -stop, if l < start then start else l);
  }

  lemma StagesNegativeStop<T>(xs: FList<T>, start: int, stop: int)
    requires stop < 0 && StartStage(xs, start).Ok?
    ensures Stages(xs, start, Some(stop)) == SkipLast(StartStage(xs, start).value, -stop)
  {
  }

  lemma StartStageSuffix<T>(xs: FList<T>, start: nat)
    requires start < Len(xs)
    ensures start < |ToSeq(xs)|
    ensures StartStage(xs, start).Ok? && ToSeq(StartStage(xs, start).value) == ToSeq(xs)[start..]
  {
    LenIsLength(xs);
  }

  lemma SkipLastSuffix<T>(started: FList<T>, s: seq<T>, start: nat, count: nat, last: int)
    requires start < |s| && ToSeq(started) == s[start..] && count > 0
    requires last == if |s| - count < start then start else |s| - count
    ensures SkipLast(started, count).Ok?
    ensures start <= last <= |s| && ToSeq(SkipLast(started, count).value) == s[start..last]
  {
  }

  /**
    A negative start runs take_last after take(stop), so with a stop it counts
    from the stop, not from the end of the list.
   */
  lemma SliceNegativeStart<T>(xs: FList<T>, start: int, stop: nat, step: Option<int>)
    requires start < 0 && 0 < stop <= Len(xs)
    requires OrElse(step, 1) in {0, 1}
    ensures Slice(xs, Some(start), Some(stop), step).Ok?
    ensures Slice(xs, Some(start), Some(stop), step).value.Sliced?
    ensures var first := if stop + start < 0 then 0 else stop + start;
      ToSeq(Slice(xs, Some(start), Some(stop), step).value.list) == ToSeq(xs)[first..stop]
  {
    LenIsLength(xs);
    var taken := Take(xs, stop).value;
    assert ToSeq(taken) == ToSeq(xs)[..stop];
    var first := if stop + start < 0 then 0 else stop + start;
    assert ToSeq(TakeLast(taken, -start).value) == ToSeq(xs)[first..stop];
  }

  /**
    With both start and stop negative, on a non-empty list, both count from
    the end: the slice keeps the positions from `n + start` (at least 0) up
    to `n + stop`, and none when those overlap.
   */
  lemma SliceBothFromEnd<T>(xs: FList<T>, start: int, stop: int, step: Option<int>)
    requires xs.Cons? && start < 0 && stop < 0
    requires OrElse(step, 1) in {0, 1}
    ensures Slice(xs, Some(start), Some(stop), step).Ok?
    ensures Slice(xs, Some(start), Some(stop), step).value.Sliced?
    ensures var n := |ToSeq(xs)|;
      var first := if n + start < 0 then 0 else n + start;
      var last := if n + stop < first then first else n + stop;
      ToSeq(Slice(xs, Some(start), Some(stop), step).value.list) == ToSeq(xs)[first..last]
  {
    StagesBothFromEnd(xs, start, stop);
  }

  lemma StagesBothFromEnd<T>(xs: FList<T>, start: int, stop: int)
    requires Len(xs) > 0 && start < 0 && stop < 0
    ensures Stages(xs, start, Some(stop)).Ok?
    ensures var n := |ToSeq(xs)|;
      var first := if n + start < 0 then 0 else n + start;
      var last := if n + stop < first then first else n + stop;
      ToSeq(Stages(xs, start, Some(stop)).value) == ToSeq(xs)[first..last]
  {
    TakeLastThenSkipLast(xs, start, stop);
    StagesNegativeStop(xs, start, stop);
  }

  /** take_last(-start) and then skip_last(-stop) on a non-empty list keep the range both count from the end. */
  lemma TakeLastThenSkipLast<T>(xs: FList<T>, start: int, stop: int)
    requires Len(xs) > 0 && start < 0 && stop < 0
    ensures TakeLast(xs, -start).Ok? && SkipLast(TakeLast(xs, -start).value, -stop).Ok?
    ensures var n := |ToSeq(xs)|;
      var first := if n + start < 0 then 0 else n + start;
      var last := if n + stop < first then first else n + stop;
      ToSeq(SkipLast(TakeLast(xs, -start).value, -stop).value) == ToSeq(xs)[first..last]
  {
    var s := ToSeq(xs);
    var n := |s|;
    var first := if n + start < 0 then 0 else n + start;
    assert n > 0 by {
      LenIsLength(xs);
    }
    var kept := TakeLast(xs, -start).value;
    assert n - Min(-start, n) == first;
    assert ToSeq(kept) == s[first..];
    var last := if n + stop < first then first else n + stop;
    SkipLastSuffix(kept, s, first, -stop, last);
  }

  /**
    A start past a stop inside the list makes skip run past the prefix that
    take kept, so slice raises where Python's own slicing gives the empty list.
   */
  lemma SliceStartPastStop<T>(xs: FList<T>, start: int, stop: nat, step: Option<int>)
    requires stop < start && stop <= Len(xs)
    requires OrElse(step, 1) >= 0
    ensures Slice(xs, Some(start), Some(stop), step) == Fail(NotEnoughElements)
  {
    LenIsLength(xs);
    LenIsLength(Take(xs, stop).value);
  }

  /** A start at or past the end with a negative stop leaves skip_last an empty list, so slice raises. */
  lemma SliceFromEndPastStart<T>(xs: FList<T>, start: int, stop: int, step: Option<int>)
    requires Len(xs) <= start && stop < 0
    requires OrElse(step, 1) >= 0
    ensures Slice(xs, Some(start), Some(stop), step) == Fail(NotEnoughElements)
  {
    LenIsLength(xs);
  }

  /** A negative start with stop 0 runs take_last on the empty prefix take(0) kept, so slice raises. */
  lemma SliceNegativeStartZeroStop<T>(xs: FList<T>, start: int, step: Option<int>)
    requires start < 0
    requires OrElse(step, 1) >= 0
    ensures Slice(xs, Some(start), Some(0), step) == Fail(NotEnoughElements)
  {
  }

  /** On Nil every negative stop raises, whatever the start: one of the stages meets Nil with a non-zero count. */
  lemma SliceNilNegativeStop<T>(start: Option<int>, stop: int, step: Option<int>)
    requires stop < 0
    requires OrElse(step, 1) >= 0
    ensures Slice<T>(Nil, start, Some(stop), step) == Fail(NotEnoughElements)
  {
  }

  /** The step only chooses the last stage: a step above one hands on the staged list. */
  lemma SliceStepHandsOn<T>(xs: FList<T>, start: Option<int>, stop: Option<int>, step: int)
    requires step > 1
    ensures var with, without := Slice(xs, start, stop, Some(step)), Slice(xs, start, stop, Nothing);
      with.Ok? <==> without.Ok?
    ensures var with, without := Slice(xs, start, stop, Some(step)), Slice(xs, start, stop, Nothing);
      with.Ok? ==> with.value == Decimated(without.value.list, step)
  {
  }

  /** `slice(1, -2)` of the list 1..8 holds 2..6. */
  lemma SliceExample(xs: FList<int>)
    requires ToSeq(xs) == [1, 2, 3, 4, 5, 6, 7, 8]
    ensures Slice(xs, Some(1), Some(-2), Nothing).Ok?
    ensures ToSeq(Slice(xs, Some(1), Some(-2), Nothing).value.list) == [2, 3, 4, 5, 6]
  {
    LenIsLength(xs);
    SliceFromEnd(xs, 1, -2, Nothing);
    assert ToSeq(xs)[1..6] == [2, 3, 4, 5, 6];
  }

  /** `slice(1, 8, 2)` of 0..8 hands 1..7 to the decimation stage, whose positions 0, 2, 4 and 6 hold 1, 3, 5 and 7. */
  lemma SliceSteppedExample(xs: FList<int>)
    requires ToSeq(xs) == [0, 1, 2, 3, 4, 5, 6, 7, 8]
    ensures Slice(xs, Some(1), Some(8), Some(2)).Ok?
    ensures Slice(xs, Some(1), Some(8), Some(2)).value.Decimated?
    ensures Slice(xs, Some(1), Some(8), Some(2)).value.step == 2
    ensures ToSeq(Slice(xs, Some(1), Some(8), Some(2)).value.staged) == [1, 2, 3, 4, 5, 6, 7]
    ensures var s := ToSeq(Slice(xs, Some(1), Some(8), Some(2)).value.staged);
      [s[0], s[2], s[4], s[6]] == [1, 3, 5, 7]
  {
    LenIsLength(xs);
    SliceWithinBounds(xs, 1, 8, Nothing);
    SliceStepHandsOn(xs, Some(1), Some(8), 2);
    assert ToSeq(xs)[1..8] == [1, 2, 3, 4, 5, 6, 7];
  }

  // ---------------------------------------------------------------------------
  // The omitted stop

  /**
    As written, omitting the stop runs `take(sys.maxsize)`, which raises on
    every list shorter than `sys.maxsize`: the whole-list slice `xs.slice()`
    fails on a one-element list.
   */
  lemma SliceWithoutStopFails<T>(xs: FList<T>, start: Option<int>, step: Option<int>)
    requires Len(xs) < MaxSize
    requires OrElse(step, 1) >= 0
    ensures Slice(xs, start, Nothing, step) == Fail(NotEnoughElements)
  {
    LenIsLength(xs);
  }

  lemma WholeSliceFails(x: int)
    ensures Slice(Singleton(x), Nothing, Nothing, Nothing) == Fail(NotEnoughElements)
  {
    SliceWithoutStopFails(Singleton(x), Nothing, Nothing);
  }

  /** Without a stop, the intended slice runs to the end and never raises for a start inside the list. */
  lemma SliceToEndWithoutStop<T>(xs: FList<T>, start: nat, step: Option<int>)
    requires start <= Len(xs)
    requires OrElse(step, 1) in {0, 1}
    ensures SliceToEnd(xs, Some(start), Nothing, step).Ok?
    ensures SliceToEnd(xs, Some(start), Nothing, step).value.Sliced?
    ensures ToSeq(SliceToEnd(xs, Some(start), Nothing, step).value.list) == ToSeq(xs)[start..]
    ensures SliceToEnd(xs, Nothing, Nothing, step) == Ok(Sliced(xs))
  {
    LenIsLength(xs);
  }
}
