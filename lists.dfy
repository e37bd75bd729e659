/**
  The immutable, persistent singly linked list of fslash.collections.list.

  A list is either the shared empty value `Nil` or a `Cons` cell holding a
  head, a tail and the length cached when the cell was built. Every node is
  built through `MakeCons` (the `Cons.__init__` of the source), which is what
  keeps the cached length right; the subset type `FList` names the lists in
  which every cell's cached length is correct, so every operation below takes
  and returns only such lists. `ToSeq` is the abstract value of a list (the
  elements its iterator yields, head first).
 */
module Lists {
  import opened Wrappers

  datatype List<T> = Nil | Cons(head: T, tail: List<T>, len: nat)

  /** `len(xs)`: the cached length, read in O(1). */
  function Len<T>(xs: List<T>): nat {
    if xs.Nil? then 0 else xs.len
  }

  /** Every cell caches one more than the length of its tail. */
  ghost predicate Valid<T>(xs: List<T>) {
    match xs
    case Nil => true
    case Cons(_, tail, n) => n == 1 + Len(tail) && Valid(tail)
  }

  /** The lists the source can build. */
  type FList<T> = xs: List<T> | Valid(xs) witness Nil

  /** The elements of a list in iteration order, head first. */
  function ToSeq<T>(xs: List<T>): seq<T> {
    match xs
    case Nil => []
    case Cons(head, tail, _) => [head] + ToSeq(tail)
  }

  /** Flattening of a sequence of lists, in order. */
  ghost function Elements<T>(sources: seq<List<T>>): seq<T> {
    if |sources| == 0 then [] else ToSeq(sources[0]) + Elements(sources[1..])
  }

  /** `s` can be obtained from `t` by deleting elements, keeping the order. */
  ghost predicate IsSubsequence<T>(s: seq<T>, t: seq<T>)
    decreases |t|
  {
    if s == [] then true
    else if t == [] then false
    else (s[0] == t[0] && IsSubsequence(s[1..], t[1..])) || IsSubsequence(s, t[1..])
  }

  function Min(a: nat, b: nat): nat {
    if a <= b then a else b
  }

  // ---------------------------------------------------------------------------
  // Node representation

  /** `Cons(head, tail)`: builds a cell and caches `1 + len(tail)`. */
  function MakeCons<T>(head: T, tail: FList<T>): (r: FList<T>)
    ensures r.Cons? && r.head == head && r.tail == tail
    ensures ToSeq(r) == [head] + ToSeq(tail)
    ensures Len(r) == 1 + Len(tail)
  {
    Cons(head, tail, 1 + Len(tail))
  }

  /** The cached length always equals the number of elements. */
  lemma {:induction false} LenIsLength<T>(xs: FList<T>)
    ensures Len(xs) == |ToSeq(xs)|
  {
    match xs
    case Nil =>
    case Cons(_, tail, _) => LenIsLength(tail);
  }

  /** A list is determined by its elements: the cached lengths cannot differ. */
  lemma {:induction false} ToSeqInjective<T>(a: FList<T>, b: FList<T>)
    ensures a == b <==> ToSeq(a) == ToSeq(b)
  {
    if ToSeq(a) == ToSeq(b) {
      match a
      case Nil =>
      case Cons(h, t, _) =>
        var t' := b.tail;
        assert ToSeq(b) == [b.head] + ToSeq(t');
        assert ToSeq(t) == ToSeq(a)[1..] == ToSeq(b)[1..] == ToSeq(t');
        ToSeqInjective(t, t');
    }
  }

  // ---------------------------------------------------------------------------
  // Inspection

  /** `xs.is_empty()`. */
  function IsEmpty<T>(xs: FList<T>): (r: bool)
    ensures r <==> ToSeq(xs) == []
    ensures r <==> Len(xs) == 0
  {
    LenIsLength(xs);
    xs.Nil?
  }

  /** `xs.cons(element)`: prepends in O(1), sharing `xs` as the tail. */
  function Prepend<T>(xs: FList<T>, element: T): (r: FList<T>)
    ensures ToSeq(r) == [element] + ToSeq(xs)
    ensures Len(r) == Len(xs) + 1
    ensures Head(r) == Ok(element) && Tail(r) == Ok(xs)
  {
    MakeCons(element, xs)
  }

  /** `xs.head()`: raises IndexError on Nil. */
  function Head<T>(xs: FList<T>): (r: Result<T>)
    ensures r.Ok? <==> ToSeq(xs) != []
    ensures r.Ok? ==> r.value == ToSeq(xs)[0]
    ensures r.Fail? ==> r.error == EmptyList
  {
    match xs
    case Nil => Fail(EmptyList)
    case Cons(head, _, _) => Ok(head)
  }

  /** `xs.tail()`: raises IndexError on Nil; shares the tail. */
  function Tail<T>(xs: FList<T>): (r: Result<FList<T>>)
    ensures r.Ok? <==> ToSeq(xs) != []
    ensures r.Ok? ==> ToSeq(r.value) == ToSeq(xs)[1..]
    ensures r.Fail? ==> r.error == EmptyList
  {
    match xs
    case Nil => Fail(EmptyList)
    case Cons(_, tail, _) => Ok(tail)
  }

  /** `xs.try_head()`: the head as an option; never raises. */
  function TryHead<T>(xs: FList<T>): (r: Option<T>)
    ensures r.Some? <==> Head(xs).Ok?
    ensures r.Some? ==> r.value == Head(xs).value
  {
    match xs
    case Nil => Nothing
    case Cons(head, _, _) => Some(head)
  }

  /** `xs == other`: structural comparison, a non-empty list never equals Nil. */
  function Equals<T(==)>(a: FList<T>, b: FList<T>): (r: bool)
    ensures r <==> a == b
    ensures r <==> ToSeq(a) == ToSeq(b)
  {
    ToSeqInjective(a, b);
    match a
    case Nil => b.Nil?
    case Cons(head, tail, _) =>
      if b.Nil? then false else head == b.head && Equals(tail, b.tail)
  }

  // ---------------------------------------------------------------------------
  // Structural operations

  /** `a.append(b)` (also `a + b`): copies the spine of `a`, shares `b`. */
  function Append<T>(a: FList<T>, b: FList<T>): (r: FList<T>)
    ensures ToSeq(r) == ToSeq(a) + ToSeq(b)
    ensures Len(r) == Len(a) + Len(b)
  {
    match a
    case Nil => b
    case Cons(head, tail, _) =>
      var rest := Append(tail, b);
      assert [head] + (ToSeq(tail) + ToSeq(b)) == ToSeq(a) + ToSeq(b);
      MakeCons(head, rest)
  }

  /** `xs.map(mapper)`. */
  function Map<T, U>(xs: FList<T>, mapper: T -> U): (r: FList<U>)
    ensures |ToSeq(r)| == |ToSeq(xs)| && Len(r) == Len(xs)
    ensures forall i :: 0 <= i < |ToSeq(xs)| ==> ToSeq(r)[i] == mapper(ToSeq(xs)[i])
  {
    match xs
    case Nil => Nil
    case Cons(head, tail, _) => MakeCons(mapper(head), Map(tail, mapper))
  }

  /** `xs.filter(predicate)`: exactly the elements satisfying `test` (the source's `predicate`), in order. */
  function Filter<T>(xs: FList<T>, test: T -> bool): (r: FList<T>)
    ensures forall x :: x in ToSeq(r) ==> test(x)
    ensures IsSubsequence(ToSeq(r), ToSeq(xs))
  {
    match xs
    case Nil => Nil
    case Cons(head, tail, _) =>
      var filtered := Filter(tail, test);
      if test(head) then
        var r := MakeCons(head, filtered);
        assert ToSeq(r)[1..] == ToSeq(filtered);
        r
      else
        assert ToSeq(xs)[1..] == ToSeq(tail);
        filtered
  }

  /** `of_option(option)`: a singleton for `Some`, Nil for `Nothing`. */
  function OfOption<T>(option: Option<T>): (r: FList<T>)
    ensures ToSeq(r) == if option.Some? then [option.value] else []
  {
    match option
    case Some(value) => Singleton(value)
    case Nothing => Nil
  }

  /** `singleton(value)`. */
  function Singleton<T>(value: T): (r: FList<T>)
    ensures ToSeq(r) == [value]
  {
    MakeCons(value, Nil)
  }

  /** `of_option` after `chooser`: the list each element contributes to `choose`. */
  function OfOptionAfter<T, U>(chooser: T -> Option<U>): T -> FList<U> {
    x => OfOption(chooser(x))
  }

  /** `xs.choose(chooser)`: the `Some` payloads of `chooser`, in order. */
  function Choose<T, U>(xs: FList<T>, chooser: T -> Option<U>): (r: FList<U>)
    ensures ToSeq(r) == Elements(ToSeq(Map(xs, OfOptionAfter(chooser))))
  {
    match xs
    case Nil => Nil
    case Cons(head, tail, _) =>
      var filtered := Choose(tail, chooser);
      var r := Append(OfOption(chooser(head)), filtered);
      assert ToSeq(Map(xs, OfOptionAfter(chooser)))[1..] == ToSeq(Map(tail, OfOptionAfter(chooser)));
      r
  }

  /** `xs.collect(mapping)`: the in-order concatenation of `mapping(x)`. */
  function Collect<T, U>(xs: FList<T>, mapping: T -> FList<U>): (r: FList<U>)
    ensures ToSeq(r) == Elements(ToSeq(Map(xs, mapping)))
  {
    match xs
    case Nil => Nil
    case Cons(head, tail, _) =>
      var r := Append(mapping(head), Collect(tail, mapping));
      assert ToSeq(Map(xs, mapping))[1..] == ToSeq(Map(tail, mapping));
      r
  }

  /** `xs.skip(count)`: raises ValueError when `count` runs past the end. */
  function Skip<T>(xs: FList<T>, count: nat): (r: Result<FList<T>>)
    ensures r.Ok? <==> count <= |ToSeq(xs)|
    ensures r.Ok? ==> ToSeq(r.value) == ToSeq(xs)[count..]
    ensures r.Fail? ==> r.error == NotEnoughElements
    ensures count == 0 ==> r == Ok(xs)
  {
    if count == 0 then Ok(xs)
    else
      match xs
      case Nil => Fail(NotEnoughElements)
      case Cons(_, tail, _) =>
        assert count <= |ToSeq(xs)| ==> ToSeq(xs)[count..] == ToSeq(tail)[count - 1..];
        Skip(tail, count - 1)
  }

  /** `xs.take(count)`: raises ValueError when `count` runs past the end. */
  function Take<T>(xs: FList<T>, count: nat): (r: Result<FList<T>>)
    ensures r.Ok? <==> count <= |ToSeq(xs)|
    ensures r.Ok? ==> ToSeq(r.value) == ToSeq(xs)[..count]
    ensures r.Fail? ==> r.error == NotEnoughElements
  {
    if count == 0 then Ok(Nil)
    else
      match xs
      case Nil => Fail(NotEnoughElements)
      case Cons(head, tail, _) =>
        var rest :- Take(tail, count - 1);
        assert ToSeq(xs)[..count] == [head] + ToSeq(tail)[..count - 1];
        Ok(MakeCons(head, rest))
  }

  /**
    `xs.skip_last(count)`: drops the last `count` elements. It recurses to the
    end first and keeps a head only when its tail is at least `count` long, so
    on a non-empty list a too-large count yields Nil; on Nil any non-zero count
    raises ValueError.
   */
  function SkipLast<T>(xs: FList<T>, count: nat): (r: Result<FList<T>>)
    ensures r.Ok? <==> (count == 0 || ToSeq(xs) != [])
    ensures r.Ok? ==> ToSeq(r.value) == ToSeq(xs)[..|ToSeq(xs)| - Min(count, |ToSeq(xs)|)]
    ensures r.Fail? ==> r.error == NotEnoughElements
  {
    if count == 0 then Ok(xs)
    else
      match xs
      case Nil => Fail(NotEnoughElements)
      case Cons(head, tail, _) =>
        var queue := if tail.Nil? then tail else SkipLast(tail, count).value;
        LenIsLength(tail);
        var s, t := ToSeq(xs), ToSeq(tail);
        assert s[..|s| - Min(count, |s|)] == if |t| >= count then [head] + t[..|t| - count] else [];
        Ok(if Len(tail) >= count then MakeCons(head, queue) else queue)
  }

  /**
    `xs.take_last(count)`: keeps the last `count` elements. It recurses to the
    end first and adds a head while the partial result is shorter than
    `count`, so on a non-empty list a too-large count yields the whole list;
    on Nil any non-zero count raises ValueError.
   */
  function TakeLast<T>(xs: FList<T>, count: nat): (r: Result<FList<T>>)
    ensures r.Ok? <==> (count == 0 || ToSeq(xs) != [])
    ensures r.Ok? ==> ToSeq(r.value) == ToSeq(xs)[|ToSeq(xs)| - Min(count, |ToSeq(xs)|)..]
    ensures r.Fail? ==> r.error == NotEnoughElements
  {
    if count == 0 then Ok(Nil)
    else
      match xs
      case Nil => Fail(NotEnoughElements)
      case Cons(head, tail, _) =>
        var queue := if tail.Nil? then tail else TakeLast(tail, count).value;
        LenIsLength(queue);
        var s, t := ToSeq(xs), ToSeq(tail);
        assert |t| < count ==> ToSeq(queue) == t && s[|s| - Min(count, |s|)..] == s;
        assert |t| >= count ==> s[|s| - Min(count, |s|)..] == t[|t| - count..];
        Ok(if Len(queue) < count then MakeCons(head, queue) else queue)
  }

  // ---------------------------------------------------------------------------
  // Builders

  /** `of_seq(xs)`: a right fold of `Cons`, last element first, onto `Nil`. */
  function OfSeq<T>(s: seq<T>): (r: FList<T>)
    ensures ToSeq(r) == s
  {
    OfSeqOnto(s, Nil)
  }

  /** The fold of `of_seq`: conses the elements of `s`, last first, onto `acc`. */
  function OfSeqOnto<T>(s: seq<T>, acc: FList<T>): (r: FList<T>)
    ensures ToSeq(r) == s + ToSeq(acc)
    decreases |s|
  {
    if |s| == 0 then acc
    else
      var last := |s| - 1;
      var r := OfSeqOnto(s[..last], MakeCons(s[last], acc));
      assert s[..last] + ([s[last]] + ToSeq(acc)) == s + ToSeq(acc);
      r
  }

  /** `concat(sources)`: a right fold of `append`, last source first, onto `Nil`. */
  function Concat<T>(sources: seq<FList<T>>): (r: FList<T>)
    ensures ToSeq(r) == Elements(sources)
  {
    ConcatOnto(sources, Nil)
  }

  /** The fold of `concat`: appends the sources, last first, onto `acc`. */
  function ConcatOnto<T>(sources: seq<FList<T>>, acc: FList<T>): (r: FList<T>)
    ensures ToSeq(r) == Elements(sources) + ToSeq(acc)
    decreases |sources|
  {
    if |sources| == 0 then acc
    else
      var last := |sources| - 1;
      var r := ConcatOnto(sources[..last], Append(sources[last], acc));
      ConcatStep(sources, acc, r);
      r
  }

  lemma ConcatStep<T>(sources: seq<FList<T>>, acc: FList<T>, r: FList<T>)
    requires |sources| > 0
    requires ToSeq(r) == Elements(sources[..|sources| - 1]) + ToSeq(Append(sources[|sources| - 1], acc))
    ensures ToSeq(r) == Elements(sources) + ToSeq(acc)
  {
    var last := |sources| - 1;
    var init, final := Elements(sources[..last]), ToSeq(sources[last]);
    assert Elements(sources) == init + final by {
      ElementsSnoc(sources);
    }
    assert ToSeq(Append(sources[last], acc)) == final + ToSeq(acc);
    assert init + (final + ToSeq(acc)) == (init + final) + ToSeq(acc);
  }

  lemma {:induction false} ElementsSnoc<T>(sources: seq<List<T>>)
    requires |sources| > 0
    ensures Elements(sources) == Elements(sources[..|sources| - 1]) + ToSeq(sources[|sources| - 1])
    decreases |sources|
  {
    if |sources| > 1 {
      var rest := sources[1..];
      ElementsSnoc(rest);
      assert rest[..|rest| - 1] == sources[..|sources| - 1][1..];
    } else {
      assert sources[..0] == [];
    }
  }
}
