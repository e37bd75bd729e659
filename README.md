# fslash immutable list, modelled in Dafny

`fslash.collections.list` provides an immutable, persistent singly linked
list. A list is either the shared empty value `Nil` or a `Cons` cell that
holds a head, a tail and the length it cached when it was built. Every
operation returns a new list and leaves its input unchanged. Prepending shares
the old list as the tail. Appending copies the spine of the left operand. The
library has `cons`/`head`/`tail`/`try_head`, `append`, `map`, `filter`,
`choose`, `collect`, four counted operations (`take`, `skip`, `take_last`,
`skip_last`), a `slice` built out of those four, equality, length, and the
builders `of_seq`, `of_option`, `singleton` and `concat`.

The source is pure: no operation updates anything in place. The model is
therefore made of datatypes, functions and lemmas, in four modules:

- `Wrappers` (`wrappers.dfy`): fslash.core's option type, and a `Result`
  that stands for the exceptions the list raises. `EmptyList` is the
  `IndexError` of `head`/`tail` on Nil. `NotEnoughElements` is the
  `ValueError` of the four counted operations. `NegativeStep` is the
  `TypeError` of `slice`. Failures propagate with `:-`.
- `Lists` (`lists.dfy`): the list datatype and every list method. The cached
  length is a field of the `Cons` constructor. `MakeCons` plays
  `Cons.__init__`: it sets the field to `1 + len(tail)`. The subset type
  `FList` names the lists in which every cached length is right, so every
  operation takes and returns only such lists. `ToSeq` (the elements the
  iterator yields, head first) is the abstract value that the contracts use.
- `ListProperties` (`list_properties.dfy`): laws that relate several
  operations, and a few worked example scenarios.
- `Slicing` (`slicing.dfy`): `List.slice`, written as its fixed sequence of
  stages.

## Model

| member | source | states |
|---|---|---|
| `Lists.MakeCons` | fslash/collections/list.py:213-215 | a new cell has the given head and tail, iterates as the head followed by the tail, and caches one more than the tail's length |
| `Lists.LenIsLength` | fslash/collections/list.py:337-340 | the cached length that `__len__` returns, modelled by `Lists.Len` (0 for Nil, lines 449-452), always equals the number of elements the list iterates |
| `Lists.ToSeqInjective` | fslash/collections/list.py:212-215 | two lists built by `Cons` are equal exactly when they iterate the same elements; the cached lengths cannot make them differ |
| `Lists.IsEmpty` | fslash/collections/list.py:247-249 | `is_empty` is true exactly when the list has no elements, and exactly when its length is 0 (Nil's version at lines 358-360) |
| `Lists.Prepend` | fslash/collections/list.py:230-233 | `cons(x)` iterates as x followed by the list, is one longer, and its head is x and its tail the original list (Nil's version at lines 362-365) |
| `Lists.Head` | fslash/collections/list.py:241-245 | `head` succeeds exactly on a non-empty list and gives its first element; on Nil it raises IndexError (lines 370-373) |
| `Lists.Tail` | fslash/collections/list.py:272-276 | `tail` succeeds exactly on a non-empty list and gives the elements after the first; on Nil it raises IndexError (lines 397-400) |
| `Lists.TryHead` | fslash/collections/list.py:310-316 | `try_head` is `Some` exactly when `head` would succeed, with the same value; Nil gives `Nothing` (lines 429-433) |
| `Lists.Equals` | fslash/collections/list.py:323-330 | `==` holds exactly when the two lists are the same value, and exactly when they iterate the same elements; Nil equals only Nil (lines 440-443) |
| `Lists.Append` | fslash/collections/list.py:217-219 | `a.append(b)` iterates as the elements of a followed by those of b, and its length is the sum of both lengths (Nil's version at lines 349-350) |
| `Lists.Map` | fslash/collections/list.py:251-253 | `map(f)` has the length of the list, and its i-th element is f applied to the i-th element |
| `Lists.Filter` | fslash/collections/list.py:235-239 | `filter(p)` keeps only elements satisfying p, and what it keeps is a subsequence of the list, in order |
| `Lists.OfOption` | fslash/collections/list.py:537-540 | `of_option` gives a one-element list holding the payload of `Some`, and the empty list for `Nothing` |
| `Lists.Singleton` | fslash/collections/list.py:543-544 | `singleton(v)` iterates as exactly v |
| `Lists.Choose` | fslash/collections/list.py:221-224 | `choose(f)` iterates as the concatenation of `of_option(f(x))` over the elements, in order |
| `Lists.Collect` | fslash/collections/list.py:226-228 | `collect(f)` iterates as the concatenation of the lists `f(x)` over the elements, in order |
| `Lists.Skip` | fslash/collections/list.py:255-261 | `skip(n)` succeeds exactly when n is at most the length and then gives the elements from position n; a count of 0 returns the list itself; past the end it raises ValueError (lines 386-389) |
| `Lists.Take` | fslash/collections/list.py:278-291 | `take(n)` succeeds exactly when n is at most the length and then gives the first n elements; past the end it raises ValueError (lines 411-413) |
| `Lists.SkipLast` | fslash/collections/list.py:263-270 | `skip_last(n)` succeeds exactly when n is 0 or the list is non-empty, and then drops the last min(n, length) elements; on Nil a non-zero count raises ValueError (lines 391-395) |
| `Lists.TakeLast` | fslash/collections/list.py:293-308 | `take_last(n)` succeeds exactly when n is 0 or the list is non-empty, and then keeps the last min(n, length) elements; on Nil a non-zero count raises ValueError (lines 425-427) |
| `Lists.OfSeq` | fslash/collections/list.py:530-534 | `of_seq(s)` iterates as exactly the elements of s, in order, although the fold conses the last element first |
| `Lists.OfSeqOnto` | fslash/collections/list.py:531-534 | the fold of `of_seq` onto a list iterates as the sequence followed by that list |
| `Lists.Concat` | fslash/collections/list.py:479-483 | `concat(sources)` iterates as the elements of every source, in order |
| `Lists.ConcatOnto` | fslash/collections/list.py:480-483 | the fold of `concat` onto a list iterates as all the sources' elements followed by that list |
| `ListProperties.AppendIdentity` | fslash/collections/list.py:349-350 | Nil is a left and a right identity of append |
| `ListProperties.AppendAssociative` | fslash/collections/list.py:217-219 | append is associative |
| `ListProperties.TakeAppendSkip` | fslash/collections/list.py:255-291 | for n up to the length, take(n) and skip(n) both succeed, take(n) has length n, and take(n) appended to skip(n) is the list again |
| `ListProperties.TakeSkipPastEnd` | fslash/collections/list.py:402-413 | a count past the length makes both take and skip raise ValueError |
| `ListProperties.TakeLastSkipLastClamp` | fslash/collections/list.py:263-308 | on a non-empty list take_last and skip_last never raise; they keep min(n, length) and length - min(n, length) elements |
| `ListProperties.SkipLastAppendTakeLast` | fslash/collections/list.py:263-308 | whenever both succeed, skip_last(n) appended to take_last(n) is the list again |
| `ListProperties.NilTakeLastSkipLast` | fslash/collections/list.py:391-427 | on Nil a zero count gives Nil, and any other count raises ValueError |
| `ListProperties.MapComposition` | fslash/collections/list.py:251-253 | mapping f and then g equals mapping their composition |
| `ListProperties.FilterKeepsMultiplicity` | fslash/collections/list.py:235-239 | every element that passes the test occurs in the filtered list as often as in the list |
| `ListProperties.FilterNoLonger` | fslash/collections/list.py:235-239 | filtering never makes a list longer |
| `ListProperties.FilterIdempotent` | fslash/collections/list.py:235-239 | filtering twice with the same test equals filtering once |
| `ListProperties.CollectIsConcatOfMap` | fslash/collections/list.py:226-228 | `collect(f)` equals `concat` of the lists that `map(f)` yields |
| `ListProperties.ChooseIsConcatOfOptions` | fslash/collections/list.py:221-224 | `choose(f)` equals `concat` of `of_option(f(x))` over the elements, and equals `collect` of `of_option` after f |
| `ListProperties.ChooseKeepsPayloads` | fslash/collections/list.py:221-224 | `choose(f)` iterates as exactly the payloads of the `Some` results of f, in list order |
| `ListProperties.ConcatIsRightFold` | fslash/collections/list.py:479-483 | `concat` of no sources is Nil; otherwise it is the first source appended to `concat` of the rest |
| `ListProperties.OfSeqOfElements` | fslash/collections/list.py:530-534 | every list is the `of_seq` of its own elements |
| `ListProperties.OfSeqEmpty` | fslash/collections/list.py:530-534 | `of_seq` of the empty sequence is Nil |
| `ListProperties.ConsOntoOfSeq` | fslash/collections/list.py:230-233 | `of_seq([1, 2, 3]).cons(0)` iterates as 0, 1, 2, 3 and has length 4 |
| `ListProperties.ChooseEvens` | fslash/collections/list.py:221-224 | choosing the even elements of 1, 2, 3, 4 gives 2, 4 |
| `ListProperties.ChosenEvens` | fslash/collections/list.py:221-224 | the `Some` payloads of "even or nothing" over 1, 2, 3, 4 are 2, 4 |
| `ListProperties.ConcatThree` | fslash/collections/list.py:479-483 | `concat([of_seq([1, 2]), Nil, of_seq([3])])` iterates as 1, 2, 3 |
| `ListProperties.EqualsNilAndCons` | fslash/collections/list.py:323-330 | Nil equals Nil; Nil and a one-element list are unequal in both directions; every list equals itself; no list equals itself with an element prepended |
| `Slicing.Stages` | fslash/collections/list.py:161-177 | the three stages, in the source's fixed order, are `Slicing.TakeStage` (lines 167-168), `Slicing.StartStage` (lines 170-174) and `Slicing.SkipLastStage` (lines 176-177); together they only ever fail with ValueError |
| `Slicing.Slice` | fslash/collections/list.py:127-185 | `Slicing.Finish` applies the step (lines 179-183): a negative step raises TypeError whatever the other arguments; any other failure is a ValueError; a successful slice hands on to decimation exactly when the step is above 1. The lemmas below give the elements or the error for every sign of start and stop |
| `Slicing.SliceToEnd` | fslash/collections/list.py:163-168 | the corrected slice raises TypeError on a negative step, and agrees with `slice` whenever a stop is given |
| `Slicing.SliceWithinBounds` | fslash/collections/list.py:167-172 | with 0 <= start <= stop <= length and step 0 or 1, slice gives the elements from start up to stop |
| `Slicing.SliceStopPastEnd` | fslash/collections/list.py:167-168 | a stop past the length makes slice raise ValueError, because take raises; Python's own slicing would clamp |
| `Slicing.SliceFromEnd` | fslash/collections/list.py:170-177 | with a start inside the list and a negative stop, slice keeps the elements from start up to -stop before the end, or none when those overlap |
| `Slicing.StagesFromEnd` | fslash/collections/list.py:170-177 | the stages for a start inside the list and a negative stop succeed and give that same range |
| `Slicing.StartStageSuffix` | fslash/collections/list.py:170-171 | the skip stage for a start inside the list succeeds and gives the elements from start |
| `Slicing.SkipLastSuffix` | fslash/collections/list.py:176-177 | the skip_last stage applied to a suffix of a sequence keeps that suffix up to the given count before the end of the sequence |
| `Slicing.StagesNegativeStop` | fslash/collections/list.py:167-177 | with a negative stop, the take stage is skipped and the stages are the start stage followed by skip_last(-stop) |
| `Slicing.SliceNegativeStart` | fslash/collections/list.py:167-174 | with 0 < stop <= length and step 0 or 1, a negative start runs take_last after take(stop), so it counts back from the stop, not from the end of the list |
| `Slicing.SliceNegativeStartZeroStop` | fslash/collections/list.py:167-174 | a negative start with stop 0 raises ValueError: take(0) keeps Nil, and take_last on Nil with a non-zero count raises (lines 425-427) |
| `Slicing.SliceBothFromEnd` | fslash/collections/list.py:170-177 | on a non-empty list with a negative start and a negative stop, both count from the end: slice keeps positions max(0, n + start) up to max(that, n + stop), where n is the length |
| `Slicing.StagesBothFromEnd` | fslash/collections/list.py:170-177 | the stages for a non-empty list, a negative start and a negative stop succeed and give that same range |
| `Slicing.TakeLastThenSkipLast` | fslash/collections/list.py:173-177 | take_last(-start) followed by skip_last(-stop) on a non-empty list succeeds and keeps that same range |
| `Slicing.SliceNilNegativeStop` | fslash/collections/list.py:170-177 | on Nil every negative stop raises ValueError, whatever the start: skip, take_last or skip_last then meets Nil with a non-zero count (lines 389, 395, 427) |
| `Slicing.SliceStartPastStop` | fslash/collections/list.py:167-171 | a start past a stop inside the list raises ValueError, because skip runs past the prefix take kept; Python's own slicing gives the empty list |
| `Slicing.SliceFromEndPastStart` | fslash/collections/list.py:170-177 | a start at or past the end with a negative stop raises ValueError: the start stage either raises or leaves Nil, and skip_last on Nil raises |
| `Slicing.SliceStepHandsOn` | fslash/collections/list.py:179-180 | a step above 1 changes only the last stage: it succeeds exactly when the unstepped slice does, and hands on that slice's list |
| `Slicing.SliceExample` | fslash/collections/list.py:152 | `slice(1, -2)` of 1..8 gives 2, 3, 4, 5, 6 |
| `Slicing.SliceSteppedExample` | fslash/collections/list.py:179-180 | `slice(1, 8, 2)` of 0..8 hands the list 1..7 and step 2 to the decimation stage; positions 0, 2, 4 and 6 of that list, the ones the stage keeps, hold 1, 3, 5 and 7 |
| `Slicing.SliceWithoutStopFails` | fslash/collections/list.py:164 | as written, omitting the stop raises ValueError on every list shorter than `sys.maxsize`, whatever the start and for any non-negative step |
| `Slicing.WholeSliceFails` | fslash/collections/list.py:164 | as written, `slice()` of a one-element list raises ValueError |
| `Slicing.SliceToEndWithoutStop` | fslash/collections/list.py:163-168 | the corrected slice without a stop never raises for a start inside the list: it gives the elements from start to the end, and the whole list when no start is given either |

## Left out

- `List.match` (lines 26-29) hands the list to the third-party `pampy` pattern matcher. That library is not part of this model.
- `List.pipe` (lines 31-33) applies fslash.core's `pipe`. It is not modelled as an operation. `Slice` writes the stages it pipes as direct function composition.
- The `step > 1` stage of `slice` (line 180) uses the lazy-sequence module (`zip`, `init_infinite`, `filter`), which is not part of this model. That stage pairs each element with its position and keeps the `(position, element)` pairs whose position the step divides, so a stepped slice yields a lazy sequence of pairs, not a list. `Slice` returns `Decimated(staged, step)`: the list that stage is given, and the step. It does not compute the pairs. The same module's `fold_back` behind `of_seq` and `concat` is modelled directly as a recursion that takes the last element first.
- The free functions at lines 458-622 are not modelled separately, because each just calls the method of the same name. `head`, `is_empty` and `tail` (lines 515-520 and 577-578) are plain one-argument delegations that take the list directly. The others are curried: `append`, `choose`, `collect`, `filter`, `map`, `skip`, `skip_last`, `take`, `take_last` and `try_head` return a function of the list. Two of them have a stray parameter. `choose` (line 465) takes one before the chooser, which callers must fill. `try_head` (line 614) takes a `self` as its only parameter and ignores it; the list goes to the function it returns. `empty` (line 486) is `Nil`.
- `__iter__` (lines 332-335 and 445-447) is a generator. It is modelled by the function `ToSeq`, the sequence it yields.
- `__add__` (lines 318-321 and 435-438) is `append`, so `Append` is its model.
- Object identity is not modelled: the `is Nil` tests in skip_last, take_last and `__eq__`, and the sharing of tails between lists. Since `Nil` is a single shared value, `other is Nil` is the same as being the empty list.
- Counts are natural numbers. A negative count passed to `take`, `skip`, `take_last` or `skip_last` directly is outside the model; in the source, `take` and `skip` recurse down the list and end in the `ValueError` on Nil; on a non-empty list `skip_last` keeps the whole list and `take_last` keeps none. `slice` never passes a negative count: it negates the negative arguments first.
- The messages carried by the exceptions are not modelled, and neither is the distinction between the exception classes beyond the three error kinds.
- Lists.Filter: its own contract says that the kept elements pass the test and form a subsequence of the list. That every passing element is kept is stated by the lemma `FilterKeepsMultiplicity` instead.
- Lists.Map, Lists.Filter, Lists.Choose and Lists.Collect take the mapper, predicate, chooser or mapping as a total function with no effects. The source calls an arbitrary Python callable that could raise or have side effects. The order of the calls is therefore not modelled either. `filter` and `choose` recurse on the tail before they call the callback on the head (lines 223-224 and 238-239), so they call it on the last element first. `map` and `collect` call it on the head first (lines 253 and 228).
- Lists.Equals compares elements with Dafny's equality on values, whereas the source calls each element's own `__eq__`.
- `sys.maxsize` is taken as 2^63 - 1, its value on a 64-bit build of CPython.
- Recursion depth: the source recurses once per element and can exhaust Python's stack on long lists. The model has no such limit.

## Findings

| source | as written | input that shows it | evidently intended | confidence | as-written member | corrected member |
|---|---|---|---|---|---|---|
| fslash/collections/list.py:164-168 | an omitted stop defaults to `sys.maxsize`, which is non-negative, so `take(sys.maxsize)` always runs, and it raises `ValueError` on every list shorter than `sys.maxsize` | `Cons(x, Nil).slice()` (no arguments), or `xs.slice(1)` on any list | an omitted stop means "to the end of the list", as in Python slicing, so no take stage runs | high; not executed | `Slicing.WholeSliceFails` (and `Slicing.SliceWithoutStopFails` for every short list) | `Slicing.SliceToEnd`, with `Slicing.SliceToEndWithoutStop` proving it never raises for a start inside the list |

## Notes on slice

These describe how the code of `slice` behaves where its docstring reads differently. They are not claimed as bugs, and the model follows the code.

- The docstring (lines 141-142) says negative numbers count from the end of the list. For a negative stop they do (`Slicing.SliceFromEnd`, `Slicing.SliceBothFromEnd`). A negative start with a non-negative stop runs `take_last` after `take(stop)`, so it counts back from the stop (`Slicing.SliceNegativeStart`).
- The docstring example `xs.slice(1, 10)` (line 151) reads like Python slicing, where a stop past the end clamps. In the code `take` raises `ValueError` there (`Slicing.SliceStopPastEnd`). A start past the stop also raises rather than giving an empty list (`Slicing.SliceStartPastStop`).
