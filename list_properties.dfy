/**
  Laws that relate the list operations to each other: identities of append,
  the complementarity of take/skip and take_last/skip_last, map composition,
  filter idempotence, choose and collect as concatenations, the builders as
  right folds, and a few worked example scenarios.
 */
module ListProperties {
  import opened Wrappers
  import opened Lists

  /** `compose(f, g)` of fslash.core: first `f`, then `g`. */
  function Compose<A, B, C>(f: A -> B, g: B -> C): A -> C {
    x => g(f(x))
  }

  // ---------------------------------------------------------------------------
  // Append

  /** Nil is a left and a right identity of append. */
  lemma AppendIdentity<T>(a: FList<T>)
    ensures Append(Nil, a) == a
    ensures Append(a, Nil) == a
  {
    ToSeqInjective(Append(a, Nil), a);
  }

  lemma AppendAssociative<T>(a: FList<T>, b: FList<T>, c: FList<T>)
    ensures Append(Append(a, b), c) == Append(a, Append(b, c))
  {
    ToSeqInjective(Append(Append(a, b), c), Append(a, Append(b, c)));
  }

  // ---------------------------------------------------------------------------
  // Take and skip

  /** Within the length, take and skip split the list. */
  lemma TakeAppendSkip<T>(xs: FList<T>, count: nat)
    requires count <= Len(xs)
    ensures Take(xs, count).Ok? && Skip(xs, count).Ok?
    ensures Len(Take(xs, count).value) == count
    ensures Append(Take(xs, count).value, Skip(xs, count).value) == xs
  {
    LenIsLength(xs);
    var front, back := Take(xs, count).value, Skip(xs, count).value;
    LenIsLength(front);
    assert ToSeq(xs)[..count] + ToSeq(xs)[count..] == ToSeq(xs);
    ToSeqInjective(Append(front, back), xs);
  }

  /** Past the length, both take and skip raise. */
  lemma TakeSkipPastEnd<T>(xs: FList<T>, count: nat)
    requires count > Len(xs)
    ensures Take(xs, count) == Fail(NotEnoughElements)
    ensures Skip(xs, count) == Fail(NotEnoughElements)
  {
    LenIsLength(xs);
  }

  // ---------------------------------------------------------------------------
  // Take_last and skip_last

  /**
    On a non-empty list take_last and skip_last never raise; they clamp the
    count to the length.
   */
  lemma TakeLastSkipLastClamp<T>(xs: FList<T>, count: nat)
    requires xs.Cons?
    ensures TakeLast(xs, count).Ok? && SkipLast(xs, count).Ok?
    ensures Len(TakeLast(xs, count).value) == Min(count, Len(xs))
    ensures Len(SkipLast(xs, count).value) == Len(xs) - Min(count, Len(xs))
  {
    LenIsLength(xs);
    LenIsLength(TakeLast(xs, count).value);
    LenIsLength(SkipLast(xs, count).value);
  }

  /** Whenever both succeed, skip_last and take_last split the list. */
  lemma SkipLastAppendTakeLast<T>(xs: FList<T>, count: nat)
    requires xs.Cons? || count == 0
    ensures TakeLast(xs, count).Ok? && SkipLast(xs, count).Ok?
    ensures Append(SkipLast(xs, count).value, TakeLast(xs, count).value) == xs
  {
    var front, back := SkipLast(xs, count).value, TakeLast(xs, count).value;
    var s := ToSeq(xs);
    var k := |s| - Min(count, |s|);
    assert ToSeq(front) + ToSeq(back) == s[..k] + s[k..] == s;
    ToSeqInjective(Append(front, back), xs);
  }

  /** On Nil a zero count gives Nil, any other count raises. */
  lemma NilTakeLastSkipLast<T>(count: nat)
    ensures TakeLast<T>(Nil, count) == if count == 0 then Ok(Nil) else Fail(NotEnoughElements)
    ensures SkipLast<T>(Nil, count) == if count == 0 then Ok(Nil) else Fail(NotEnoughElements)
  {
  }

  // ---------------------------------------------------------------------------
  // Map and filter

  lemma MapComposition<A, B, C>(xs: FList<A>, f: A -> B, g: B -> C)
    ensures Map(Map(xs, f), g) == Map(xs, Compose(f, g))
  {
    var lhs, rhs := Map(Map(xs, f), g), Map(xs, Compose(f, g));
    assert ToSeq(lhs) == ToSeq(rhs) by {
      forall i | 0 <= i < |ToSeq(xs)|
        ensures ToSeq(lhs)[i] == ToSeq(rhs)[i]
      {
        assert ToSeq(rhs)[i] == Compose(f, g)(ToSeq(xs)[i]);
      }
    }
    ToSeqInjective(lhs, rhs);
  }

  /** An element that passes the test occurs in the filtered list as often as in the list. */
  lemma {:induction false} FilterKeepsMultiplicity<T>(xs: FList<T>, test: T -> bool)
    ensures forall x :: test(x) ==> multiset(ToSeq(Filter(xs, test)))[x] == multiset(ToSeq(xs))[x]
  {
    match xs
    case Nil =>
    case Cons(head, tail, _) =>
      FilterKeepsMultiplicity(tail, test);
      assert ToSeq(xs) == [head] + ToSeq(tail);
  }

  /** Filtering never lengthens a list. */
  lemma {:induction false} FilterNoLonger<T>(xs: FList<T>, test: T -> bool)
    ensures Len(Filter(xs, test)) <= Len(xs)
  {
    match xs
    case Nil =>
    case Cons(_, tail, _) => FilterNoLonger(tail, test);
  }

  lemma {:induction false} FilterIdempotent<T>(xs: FList<T>, test: T -> bool)
    ensures Filter(Filter(xs, test), test) == Filter(xs, test)
  {
    match xs
    case Nil =>
    case Cons(head, tail, _) =>
      FilterIdempotent(tail, test);
      if test(head) {
        var f := Filter(tail, test);
        assert Filter(xs, test) == MakeCons(head, f);
        assert Filter(MakeCons(head, f), test) == MakeCons(head, Filter(f, test));
      }
  }

  // ---------------------------------------------------------------------------
  // Choose, collect and the builders

  /** `collect(f)` is the concatenation of the lists `map(f)` yields. */
  lemma CollectIsConcatOfMap<T, U>(xs: FList<T>, mapping: T -> FList<U>)
    ensures Collect(xs, mapping) == Concat(ToSeq(Map(xs, mapping)))
  {
    ToSeqInjective(Collect(xs, mapping), Concat(ToSeq(Map(xs, mapping))));
  }

  /** `choose(f)` is the concatenation of `of_option(f(x))` over the elements. */
  lemma ChooseIsConcatOfOptions<T, U>(xs: FList<T>, chooser: T -> Option<U>)
    ensures Choose(xs, chooser) == Concat(ToSeq(Map(xs, OfOptionAfter(chooser))))
    ensures Choose(xs, chooser) == Collect(xs, OfOptionAfter(chooser))
  {
    var all := Concat(ToSeq(Map(xs, OfOptionAfter(chooser))));
    ToSeqInjective(Choose(xs, chooser), all);
    CollectIsConcatOfMap(xs, OfOptionAfter(chooser));
  }

  /** The payloads of the `Some` results of `chooser` over `s`, in order. */
  ghost function Chosen<T, U>(s: seq<T>, chooser: T -> Option<U>): seq<U> {
    if |s| == 0 then []
    else (if chooser(s[0]).Some? then [chooser(s[0]).value] else []) + Chosen(s[1..], chooser)
  }

  /** `choose(chooser)` keeps exactly the `Some` payloads, in the order of the list. */
  lemma {:induction false} ChooseKeepsPayloads<T, U>(xs: FList<T>, chooser: T -> Option<U>)
    ensures ToSeq(Choose(xs, chooser)) == Chosen(ToSeq(xs), chooser)
  {
    match xs
    case Nil =>
    case Cons(head, tail, _) =>
      ChooseKeepsPayloads(tail, chooser);
      assert ToSeq(xs)[1..] == ToSeq(tail);
  }

  /** `concat` is a right fold of append that ends in Nil. */
  lemma ConcatIsRightFold<T>(sources: seq<FList<T>>)
    ensures Concat(sources) == if |sources| == 0 then Nil else Append(sources[0], Concat(sources[1..]))
  {
    if |sources| > 0 {
      ToSeqInjective(Concat(sources), Append(sources[0], Concat(sources[1..])));
    }
  }

  /** `of_seq` inverts iteration, so every list is the `of_seq` of its elements. */
  lemma OfSeqOfElements<T>(xs: FList<T>)
    ensures OfSeq(ToSeq(xs)) == xs
  {
    ToSeqInjective(OfSeq(ToSeq(xs)), xs);
  }

  /** `of_seq` of the empty sequence is the shared Nil. */
  lemma OfSeqEmpty<T>()
    ensures OfSeq<T>([]) == Nil
  {
    ToSeqInjective(OfSeq<T>([]), Nil);
  }

  // ---------------------------------------------------------------------------
  // Worked example scenarios

  /** `of_seq([1, 2, 3]).cons(0)` iterates as 0, 1, 2, 3 and has length 4. */
  lemma ConsOntoOfSeq()
    ensures ToSeq(Prepend(OfSeq([1, 2, 3]), 0)) == [0, 1, 2, 3]
    ensures Len(Prepend(OfSeq([1, 2, 3]), 0)) == 4
  {
    LenIsLength(Prepend(OfSeq([1, 2, 3]), 0));
  }

  function EvenOrNothing(x: int): Option<int> {
    if x % 2 == 0 then Some(x) else Nothing
  }

  /** Choosing the even elements of 1, 2, 3, 4 gives 2, 4. */
  lemma ChooseEvens(xs: FList<int>)
    requires ToSeq(xs) == [1, 2, 3, 4]
    ensures ToSeq(Choose(xs, EvenOrNothing)) == [2, 4]
  {
    ChooseKeepsPayloads(xs, EvenOrNothing);
    ChosenEvens(ToSeq(xs));
  }

  lemma ChosenEvens(s: seq<int>)
    requires s == [1, 2, 3, 4]
    ensures Chosen(s, EvenOrNothing) == [2, 4]
  {
    assert s[1..][1..][1..][1..] == [];
    assert Chosen(s[1..][1..][1..], EvenOrNothing) == [4];
    assert Chosen(s[1..], EvenOrNothing) == [2, 4];
  }

  /** `concat([of_seq([1, 2]), Nil, of_seq([3])])` iterates as 1, 2, 3. */
  lemma ConcatThree(a: FList<int>, c: FList<int>)
    requires ToSeq(a) == [1, 2] && ToSeq(c) == [3]
    ensures ToSeq(Concat([a, Nil, c])) == [1, 2, 3]
  {
    var sources: seq<FList<int>> := [a, Nil, c];
    assert Elements(sources[2..]) == [3] by {
      assert sources[2..][1..] == [];
    }
    assert Elements(sources[1..]) == [3] by {
      assert sources[1..][1..] == sources[2..];
    }
  }

  /** Structural equality: Nil equals only Nil, and no list equals a longer one. */
  lemma EqualsNilAndCons<T>(x: T, xs: FList<T>)
    ensures Equals<T>(Nil, Nil)
    ensures !Equals(Nil, Prepend(Nil, x)) && !Equals(Prepend(Nil, x), Nil)
    ensures Equals(xs, xs)
    ensures !Equals(xs, Prepend(xs, x))
  {
    assert |ToSeq(Prepend(xs, x))| == |ToSeq(xs)| + 1;
  }
}
