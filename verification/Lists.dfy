/** Sorting as `sort_by` does it, and what makes the result the only one. */
module Lists {

  predicate Distinct<T(==)>(s: seq<T>) {
    forall i, j | 0 <= i < j < |s| :: s[i] != s[j]
  }

  /** An order that puts any two things one way or the other, ties allowed. */
  ghost predicate TotalOrder<T(!new)>(before: (T, T) -> bool) {
    && (forall x, y :: before(x, y) || before(y, x))
    && (forall x, y, z :: before(x, y) && before(y, z) ==> before(x, z))
  }

  ghost predicate Sorted<T>(before: (T, T) -> bool, s: seq<T>) {
    forall i, j | 0 <= i < j < |s| :: before(s[i], s[j])
  }

  /** The elements of `s` that tie with `x`, in their order. */
  function Ties<T>(before: (T, T) -> bool, x: T, s: seq<T>): seq<T> {
    if s == [] then []
    else (if before(x, s[0]) && before(s[0], x) then [s[0]] else []) + Ties(before, x, s[1..])
  }

  /** `x` put in front of the first element it comes before or ties with. */
  function Insert<T>(before: (T, T) -> bool, x: T, s: seq<T>): seq<T> {
    if s == [] || before(x, s[0]) then [x] + s else [s[0]] + Insert(before, x, s[1..])
  }

  /** A stable sort. Any other gives the same, by `SortingIsUnique`. */
  function Sort<T>(before: (T, T) -> bool, s: seq<T>): seq<T> {
    if s == [] then [] else Insert(before, s[0], Sort(before, s[1..]))
  }

  lemma {:induction false} InsertSorts<T(!new)>(before: (T, T) -> bool, x: T, s: seq<T>)
    requires TotalOrder(before) && Sorted(before, s)
    ensures Sorted(before, Insert(before, x, s))
    ensures multiset(Insert(before, x, s)) == multiset{x} + multiset(s)
  {
    if s == [] {
    } else if before(x, s[0]) {
      assert multiset([x] + s) == multiset{x} + multiset(s);
    } else {
      InsertSorts(before, x, s[1..]);
      var rest := Insert(before, x, s[1..]);
      assert s == [s[0]] + s[1..];
      forall i | 0 <= i < |rest| ensures before(s[0], rest[i]) {
        assert rest[i] in multiset(rest);
        if rest[i] != x { assert rest[i] in s[1..]; }
      }
    }
  }

  lemma {:induction false} InsertKeepsTies<T(!new)>(before: (T, T) -> bool, y: T, x: T, s: seq<T>)
    requires TotalOrder(before)
    ensures Ties(before, y, Insert(before, x, s)) == Ties(before, y, [x] + s)
  {
    if s != [] && !before(x, s[0]) {
      InsertKeepsTies(before, y, x, s[1..]);
      assert ([x] + s)[1..] == s && ([x] + s[1..])[1..] == s[1..];
    }
  }

  lemma {:induction false} SortSorts<T(!new)>(before: (T, T) -> bool, s: seq<T>)
    requires TotalOrder(before)
    ensures Sorted(before, Sort(before, s))
    ensures multiset(Sort(before, s)) == multiset(s)
  {
    if s != [] {
      SortSorts(before, s[1..]);
      InsertSorts(before, s[0], Sort(before, s[1..]));
      assert s == [s[0]] + s[1..];
    }
  }

  lemma {:induction false} SortKeepsTies<T(!new)>(before: (T, T) -> bool, y: T, s: seq<T>)
    requires TotalOrder(before)
    ensures Ties(before, y, Sort(before, s)) == Ties(before, y, s)
  {
    if s != [] {
      SortKeepsTies(before, y, s[1..]);
      InsertKeepsTies(before, y, s[0], Sort(before, s[1..]));
      assert ([s[0]] + Sort(before, s[1..]))[1..] == Sort(before, s[1..]);
    }
  }

  lemma {:induction false} TiesAreTies<T(!new)>(before: (T, T) -> bool, x: T, s: seq<T>)
    requires TotalOrder(before)
    ensures forall y | y in Ties(before, x, s) :: y in s && before(x, y) && before(y, x)
    ensures x in s ==> x in Ties(before, x, s)
  {
    if s != [] { TiesAreTies(before, x, s[1..]); }
  }

  lemma TiesAreShared<T(!new)>(before: (T, T) -> bool, x: T, s: seq<T>, t: seq<T>)
    requires TotalOrder(before) && Ties(before, x, s) == Ties(before, x, t)
    ensures x in s ==> x in t
  {
    TiesAreTies(before, x, s);
    TiesAreTies(before, x, t);
  }

  /** Two sorted sequences with the same ties in the same order are one sequence. */
  lemma {:induction false} SortingIsUnique<T(!new)>(before: (T, T) -> bool, a: seq<T>, b: seq<T>)
    requires TotalOrder(before) && Sorted(before, a) && Sorted(before, b)
    requires forall x :: Ties(before, x, a) == Ties(before, x, b)
    ensures a == b
  {
    if a != [] {
      TiesAreShared(before, a[0], a, b);
      TiesAreShared(before, b[0], b, a);
      assert before(a[0], b[0]) && before(b[0], a[0]);
      assert Ties(before, a[0], a)[0] == a[0] && Ties(before, a[0], b)[0] == b[0];
      forall x ensures Ties(before, x, a[1..]) == Ties(before, x, b[1..]) {
        assert Ties(before, x, a) == Ties(before, x, b);
        if before(x, a[0]) && before(a[0], x) {
          assert Ties(before, x, a[1..]) == Ties(before, x, a)[1..];
          assert Ties(before, x, b[1..]) == Ties(before, x, b)[1..];
        } else {
          assert Ties(before, x, a[1..]) == Ties(before, x, a);
          assert Ties(before, x, b[1..]) == Ties(before, x, b);
        }
      }
      SortingIsUnique(before, a[1..], b[1..]);
      assert a == [a[0]] + a[1..] && b == [b[0]] + b[1..];
    } else if b != [] {
      TiesAreShared(before, b[0], b, a);
    }
  }

  /** So sorting depends only on which elements there are and how those that tie are ordered. */
  lemma SortForgetsOrder<T(!new)>(before: (T, T) -> bool, a: seq<T>, b: seq<T>)
    requires TotalOrder(before)
    requires forall x :: Ties(before, x, a) == Ties(before, x, b)
    ensures Sort(before, a) == Sort(before, b)
  {
    SortSorts(before, a);
    SortSorts(before, b);
    forall x ensures Ties(before, x, Sort(before, a)) == Ties(before, x, Sort(before, b)) {
      SortKeepsTies(before, x, a);
      SortKeepsTies(before, x, b);
    }
    SortingIsUnique(before, Sort(before, a), Sort(before, b));
  }

  lemma {:induction false} TiesOfConcat<T>(before: (T, T) -> bool, x: T, a: seq<T>, b: seq<T>)
    ensures Ties(before, x, a + b) == Ties(before, x, a) + Ties(before, x, b)
  {
    if a == [] {
      assert a + b == b;
    } else {
      assert (a + b)[1..] == a[1..] + b;
      TiesOfConcat(before, x, a[1..], b);
    }
  }

  /** A sorted sequence is left alone. */
  lemma SortOfSorted<T(!new)>(before: (T, T) -> bool, s: seq<T>)
    requires TotalOrder(before) && Sorted(before, s)
    ensures Sort(before, s) == s
  {
    SortSorts(before, s);
    forall x ensures Ties(before, x, Sort(before, s)) == Ties(before, x, s) {
      SortKeepsTies(before, x, s);
    }
    SortingIsUnique(before, Sort(before, s), s);
  }

  // ----- Keeping some -----

  function Filter<T>(keep: T -> bool, s: seq<T>): seq<T> {
    if s == [] then [] else (if keep(s[0]) then [s[0]] else []) + Filter(keep, s[1..])
  }

  lemma {:induction false} FilterKeeps<T>(keep: T -> bool, s: seq<T>)
    ensures forall x | x in Filter(keep, s) :: x in s && keep(x)
    ensures forall x | x in s && keep(x) :: x in Filter(keep, s)
    ensures |Filter(keep, s)| <= |s|
  {
    if s != [] {
      FilterKeeps(keep, s[1..]);
      assert forall x :: x in s <==> x == s[0] || x in s[1..];
    }
  }

  lemma {:induction false} FilterOfConcat<T>(keep: T -> bool, a: seq<T>, b: seq<T>)
    ensures Filter(keep, a + b) == Filter(keep, a) + Filter(keep, b)
  {
    if a == [] {
      assert a + b == b;
    } else {
      assert (a + b)[1..] == a[1..] + b;
      FilterOfConcat(keep, a[1..], b);
      var first := if keep(a[0]) then [a[0]] else [];
      assert Filter(keep, a + b) == first + Filter(keep, a[1..] + b);
      assert first + (Filter(keep, a[1..]) + Filter(keep, b)) == (first + Filter(keep, a[1..])) + Filter(keep, b);
    }
  }

  lemma FilterOneMore<T>(keep: T -> bool, s: seq<T>, i: nat)
    requires i < |s|
    ensures Filter(keep, s[..i + 1]) == Filter(keep, s[..i]) + if keep(s[i]) then [s[i]] else []
  {
    assert s[..i + 1] == s[..i] + [s[i]];
    FilterOfConcat(keep, s[..i], [s[i]]);
  }

  lemma {:induction false} FiltersCommute<T>(one: T -> bool, other: T -> bool, s: seq<T>)
    ensures Filter(one, Filter(other, s)) == Filter(other, Filter(one, s))
  {
    if s != [] {
      FiltersCommute(one, other, s[1..]);
      FilterOfConcat(one, if other(s[0]) then [s[0]] else [], Filter(other, s[1..]));
      FilterOfConcat(other, if one(s[0]) then [s[0]] else [], Filter(one, s[1..]));
    }
  }

  lemma {:induction false} FilterAll<T>(keep: T -> bool, s: seq<T>)
    ensures (forall x | x in s :: keep(x)) ==> Filter(keep, s) == s
    ensures (forall x | x in s :: !keep(x)) ==> Filter(keep, s) == []
  {
    if s != [] {
      FilterAll(keep, s[1..]);
      assert s == [s[0]] + s[1..];
    }
  }

  lemma {:induction false} TiesOfFilter<T>(before: (T, T) -> bool, x: T, keep: T -> bool, s: seq<T>)
    ensures Ties(before, x, Filter(keep, s)) == Filter(keep, Ties(before, x, s))
  {
    if s != [] {
      TiesOfFilter(before, x, keep, s[1..]);
      var first := if keep(s[0]) then [s[0]] else [];
      var tied := if before(x, s[0]) && before(s[0], x) then [s[0]] else [];
      TiesOfConcat(before, x, first, Filter(keep, s[1..]));
      FilterOfConcat(keep, tied, Ties(before, x, s[1..]));
    }
  }

  lemma {:induction false} FilterOfSorted<T>(before: (T, T) -> bool, keep: T -> bool, s: seq<T>)
    requires Sorted(before, s)
    ensures Sorted(before, Filter(keep, s))
  {
    if s != [] {
      FilterOfSorted(before, keep, s[1..]);
      FilterKeeps(keep, s[1..]);
      var rest := Filter(keep, s[1..]);
      forall i | 0 <= i < |rest| ensures before(s[0], rest[i]) {
        assert rest[i] in Filter(keep, s[1..]);
        assert rest[i] in s[1..];
        var k :| 0 <= k < |s[1..]| && s[1..][k] == rest[i];
        assert s[k + 1] == rest[i];
      }
    }
  }

  lemma FilterOfSort<T(!new)>(before: (T, T) -> bool, keep: T -> bool, s: seq<T>)
    requires TotalOrder(before)
    ensures Filter(keep, Sort(before, s)) == Sort(before, Filter(keep, s))
  {
    SortSorts(before, s);
    SortSorts(before, Filter(keep, s));
    FilterOfSorted(before, keep, Sort(before, s));
    forall x ensures Ties(before, x, Filter(keep, Sort(before, s))) == Ties(before, x, Sort(before, Filter(keep, s))) {
      SortKeepsTies(before, x, s);
      SortKeepsTies(before, x, Filter(keep, s));
      TiesOfFilter(before, x, keep, s);
      TiesOfFilter(before, x, keep, Sort(before, s));
    }
    SortingIsUnique(before, Filter(keep, Sort(before, s)), Sort(before, Filter(keep, s)));
  }

  // ----- Changing each -----

  function Map<T, U>(f: T -> U, s: seq<T>): (r: seq<U>)
    ensures |r| == |s| && forall i | 0 <= i < |s| :: r[i] == f(s[i])
  {
    seq(|s|, i requires 0 <= i < |s| => f(s[i]))
  }

  lemma MapOneMore<T, U>(f: T -> U, s: seq<T>)
    requires s != []
    ensures Map(f, s) == Map(f, s[..|s| - 1]) + [f(s[|s| - 1])]
  {
  }

  ghost predicate KeepsOrder<T(!new), U>(before: (T, T) -> bool, after: (U, U) -> bool, f: T -> U) {
    forall x, y :: before(x, y) <==> after(f(x), f(y))
  }

  lemma {:induction false} InsertOfMap<T(!new), U>(before: (T, T) -> bool, after: (U, U) -> bool, f: T -> U, x: T,
          s: seq<T>)
    requires KeepsOrder(before, after, f)
    ensures Map(f, Insert(before, x, s)) == Insert(after, f(x), Map(f, s))
  {
    if s != [] && !before(x, s[0]) {
      InsertOfMap(before, after, f, x, s[1..]);
      assert Map(f, s)[1..] == Map(f, s[1..]);
    }
  }

  lemma {:induction false} SortOfMap<T(!new), U>(before: (T, T) -> bool, after: (U, U) -> bool, f: T -> U, s: seq<T>)
    requires KeepsOrder(before, after, f)
    ensures Map(f, Sort(before, s)) == Sort(after, Map(f, s))
  {
    if s != [] {
      SortOfMap(before, after, f, s[1..]);
      InsertOfMap(before, after, f, s[0], Sort(before, s[1..]));
      assert Map(f, s)[1..] == Map(f, s[1..]);
    }
  }

  lemma {:induction false} FilterOfMap<T>(f: T -> T, keep: T -> bool, s: seq<T>)
    requires forall x | x in s :: keep(f(x)) == keep(x)
    ensures Filter(keep, Map(f, s)) == Map(f, Filter(keep, s))
  {
    if s != [] {
      FilterOfMap(f, keep, s[1..]);
      assert Map(f, s)[1..] == Map(f, s[1..]);
    }
  }

  /** Two conditions that no element meets together share out what meets either. */
  lemma {:induction false} FilterSplits<T, U>(f: T -> U, either: T -> bool, one: T -> bool, other: T -> bool, s: seq<T>)
    requires forall x | x in s :: either(x) == (one(x) || other(x)) && !(one(x) && other(x))
    ensures multiset(Map(f, Filter(either, s))) == multiset(Map(f, Filter(one, s))) + multiset(Map(f, Filter(other, s)))
  {
    if s != [] {
      FilterSplits(f, either, one, other, s[1..]);
      MapOfFilter(f, either, s);
      MapOfFilter(f, one, s);
      MapOfFilter(f, other, s);
    }
  }

  lemma MapOfFilter<T, U>(f: T -> U, keep: T -> bool, s: seq<T>)
    requires s != []
    ensures Map(f, Filter(keep, s)) == (if keep(s[0]) then [f(s[0])] else []) + Map(f, Filter(keep, s[1..]))
  {
  }

  lemma {:induction false} DistinctCounts<T>(s: seq<T>)
    ensures Distinct(s) <==> forall x :: multiset(s)[x] <= 1
  {
    if s != [] {
      DistinctCounts(s[1..]);
      assert s == [s[0]] + s[1..];
      if Distinct(s) {
        assert s[0] !in s[1..];
      } else if Distinct(s[1..]) {
        assert s[0] in s[1..];
        assert multiset(s)[s[0]] >= 2;
      } else {
        var x :| multiset(s[1..])[x] > 1;
        assert multiset(s)[x] > 1;
      }
    }
  }

  // ----- Dropping repeats -----

  /** `Vec::dedup`: one of every run of equal neighbours. */
  function Dedup<T(==)>(s: seq<T>): seq<T> {
    if |s| < 2 then s
    else if s[0] == s[1] then Dedup(s[1..])
    else [s[0]] + Dedup(s[1..])
  }

  ghost predicate Ascending<T>(before: (T, T) -> bool, s: seq<T>) {
    forall i, j | 0 <= i < j < |s| :: before(s[i], s[j]) && s[i] != s[j]
  }

  ghost predicate Antisymmetric<T(!new)>(before: (T, T) -> bool) {
    forall x, y :: before(x, y) && before(y, x) ==> x == y
  }

  lemma {:induction false} DedupOfSorted<T(!new)>(before: (T, T) -> bool, s: seq<T>)
    requires Sorted(before, s) && Antisymmetric(before)
    ensures Ascending(before, Dedup(s))
    ensures s != [] ==> Dedup(s) != [] && Dedup(s)[0] == s[0]
    ensures forall x :: x in Dedup(s) <==> x in s
  {
    if |s| >= 2 {
      DedupOfSorted(before, s[1..]);
      assert forall x :: x in s <==> x == s[0] || x in s[1..];
      var rest := Dedup(s[1..]);
      if s[0] != s[1] {
        forall i | 0 <= i < |rest| ensures before(s[0], rest[i]) && s[0] != rest[i] {
          assert rest[i] in s[1..];
          var k :| 0 <= k < |s[1..]| && s[1..][k] == rest[i];
          assert before(s[0], s[k + 1]) && (k > 0 ==> before(s[1], s[k + 1]));
        }
      }
    }
  }

  // ----- Orders where only equals tie -----

  lemma {:induction false} TiesAreCopies<T(!new)>(before: (T, T) -> bool, x: T, s: seq<T>)
    requires TotalOrder(before) && Antisymmetric(before)
    ensures |Ties(before, x, s)| == multiset(s)[x]
    ensures forall i | 0 <= i < |Ties(before, x, s)| :: Ties(before, x, s)[i] == x
  {
    if s != [] {
      TiesAreCopies(before, x, s[1..]);
      assert s == [s[0]] + s[1..];
      assert multiset(s)[x] == multiset(s[1..])[x] + if s[0] == x then 1 else 0;
      assert before(x, x);
    }
  }

  /** Sorting by such an order depends on nothing but what there is to sort. */
  lemma SortForgetsAll<T(!new)>(before: (T, T) -> bool, a: seq<T>, b: seq<T>)
    requires TotalOrder(before) && Antisymmetric(before)
    requires multiset(a) == multiset(b)
    ensures Sort(before, a) == Sort(before, b)
  {
    forall x ensures Ties(before, x, a) == Ties(before, x, b) {
      TiesAreCopies(before, x, a);
      TiesAreCopies(before, x, b);
    }
    SortForgetsOrder(before, a, b);
  }

  // ----- Gathering pieces in some order -----

  function Pieces<T>(piece: nat -> seq<T>, order: seq<nat>): seq<T> {
    if order == [] then [] else Pieces(piece, order[..|order| - 1]) + piece(order[|order| - 1])
  }

  lemma {:induction false} PiecesContain<T>(piece: nat -> seq<T>, order: seq<nat>, x: T)
    ensures x in Pieces(piece, order) <==> exists k :: 0 <= k < |order| && x in piece(order[k])
    decreases |order|
  {
    if order != [] {
      var n := |order| - 1;
      PiecesContain(piece, order[..n], x);
      if k :| 0 <= k < |order| && x in piece(order[k]) {
        assert k < n ==> order[..n][k] == order[k];
      }
      if k :| 0 <= k < n && x in piece(order[..n][k]) {
        assert order[..n][k] == order[k];
      }
    }
  }

  lemma {:induction false} TiesOfPieces<T>(before: (T, T) -> bool, x: T, piece: nat -> seq<T>, order: seq<nat>,
          only: nat)
    requires Distinct(order)
    requires forall i | i in order && i != only :: Ties(before, x, piece(i)) == []
    ensures Ties(before, x, Pieces(piece, order)) == if only in order then Ties(before, x, piece(only)) else []
    decreases |order|
  {
    if order != [] {
      var n := |order| - 1;
      assert order == order[..n] + [order[n]];
      assert order[n] !in order[..n];
      TiesOfPieces(before, x, piece, order[..n], only);
      TiesOfConcat(before, x, Pieces(piece, order[..n]), piece(order[n]));
    }
  }

  /** Sorting forgets the order pieces came in when no two pieces hold things that tie. */
  lemma SortedPiecesForgetOrder<T(!new)>(before: (T, T) -> bool, piece: nat -> seq<T>, a: seq<nat>, b: seq<nat>)
    requires TotalOrder(before) && Distinct(a) && Distinct(b) && forall i :: i in a <==> i in b
    requires forall x, i, j | i in a && j in a && i != j :: Ties(before, x, piece(i)) == [] || Ties(before, x, piece(j)) == []
    ensures Sort(before, Pieces(piece, a)) == Sort(before, Pieces(piece, b))
  {
    forall x ensures Ties(before, x, Pieces(piece, a)) == Ties(before, x, Pieces(piece, b)) {
      var only := if i :| i in a && Ties(before, x, piece(i)) != [] then i else 0;
      TiesOfPieces(before, x, piece, a, only);
      TiesOfPieces(before, x, piece, b, only);
    }
    SortForgetsOrder(before, Pieces(piece, a), Pieces(piece, b));
  }

  function Without<T>(s: seq<T>, k: nat): (r: seq<T>)
    requires k < |s|
    ensures |r| == |s| - 1
  {
    s[..k] + s[k + 1..]
  }

  lemma WithoutTakesOne<T>(s: seq<T>, k: nat)
    requires k < |s|
    ensures multiset(Without(s, k)) == multiset(s) - multiset{s[k]}
  {
    assert s == s[..k] + ([s[k]] + s[k + 1..]);
    assert multiset(s) == multiset(s[..k]) + (multiset{s[k]} + multiset(s[k + 1..]));
  }

  lemma WithoutKeepsLast<T>(s: seq<T>, k: nat)
    requires k < |s| - 1
    ensures Without(s, k)[..|s| - 2] == Without(s[..|s| - 1], k) && Without(s, k)[|s| - 2] == s[|s| - 1]
  {
  }

  lemma MultisetSwap<T>(a: multiset<T>, b: multiset<T>, c: multiset<T>)
    ensures (a + b) + c == (a + c) + b
  {
  }

  /** The pieces as a collection. */
  function Gathered<T>(piece: nat -> seq<T>, order: seq<nat>): multiset<T> {
    if order == [] then multiset{} else Gathered(piece, order[..|order| - 1]) + multiset(piece(order[|order| - 1]))
  }

  lemma {:induction false} PiecesAreGathered<T>(piece: nat -> seq<T>, order: seq<nat>)
    ensures multiset(Pieces(piece, order)) == Gathered(piece, order)
    decreases |order|
  {
    if order != [] { PiecesAreGathered(piece, order[..|order| - 1]); }
  }

  lemma {:induction false} GatheredWithout<T>(piece: nat -> seq<T>, order: seq<nat>, k: nat)
    requires k < |order|
    ensures Gathered(piece, order) == Gathered(piece, Without(order, k)) + multiset(piece(order[k]))
    decreases |order|
  {
    var n := |order| - 1;
    if k < n {
      GatheredWithout(piece, order[..n], k);
      WithoutKeepsLast(order, k);
      MultisetSwap(Gathered(piece, Without(order[..n], k)), multiset(piece(order[k])), multiset(piece(order[n])));
    } else {
      assert Without(order, k) == order[..n];
    }
  }

  lemma {:induction false} GatheredForgetsOrder<T>(piece: nat -> seq<T>, a: seq<nat>, b: seq<nat>)
    requires multiset(a) == multiset(b)
    ensures Gathered(piece, a) == Gathered(piece, b)
    decreases |a|
  {
    if a == [] {
      assert |multiset(b)| == |b|;
    } else {
      hide Gathered, Without;
      assert a[0] in multiset(b);
      var k :| 0 <= k < |b| && b[k] == a[0];
      WithoutTakesOne(a, 0);
      WithoutTakesOne(b, k);
      GatheredForgetsOrder(piece, Without(a, 0), Without(b, k));
      GatheredWithout(piece, a, 0);
      GatheredWithout(piece, b, k);
    }
  }

  function Kept<T>(keep: T -> bool, x: T): multiset<T> {
    if keep(x) then multiset{x} else multiset{}
  }

  lemma KeptFirst<T>(keep: T -> bool, s: seq<T>)
    requires s != []
    ensures multiset(Filter(keep, s)) == multiset(Filter(keep, s[1..])) + Kept(keep, s[0])
  {
  }

  lemma WithoutKeepsFirst<T>(s: seq<T>, k: nat)
    requires 0 < k < |s|
    ensures Without(s, k)[0] == s[0] && Without(s, k)[1..] == Without(s[1..], k - 1)
  {
  }

  lemma {:induction false} FilterWithout<T>(keep: T -> bool, s: seq<T>, k: nat)
    requires k < |s|
    ensures multiset(Filter(keep, s)) == multiset(Filter(keep, Without(s, k))) + Kept(keep, s[k])
    decreases k
  {
    KeptFirst(keep, s);
    if k == 0 {
      assert Without(s, 0) == s[1..];
    } else {
      hide Kept, Without;
      var rest := Without(s, k);
      FilterWithout(keep, s[1..], k - 1);
      KeptFirst(keep, rest);
      WithoutKeepsFirst(s, k);
      MultisetSwap(multiset(Filter(keep, rest[1..])), Kept(keep, s[k]), Kept(keep, s[0]));
    }
  }

  /** What is kept of some things depends, as a collection, only on the collection. */
  lemma {:induction false} FilterForgetsOrder<T>(keep: T -> bool, a: seq<T>, b: seq<T>)
    requires multiset(a) == multiset(b)
    ensures multiset(Filter(keep, a)) == multiset(Filter(keep, b))
    decreases |a|
  {
    if a == [] {
      assert |multiset(b)| == |b|;
      assert b == [];
    } else {
      assert a[0] in multiset(b);
      var k :| 0 <= k < |b| && b[k] == a[0];
      WithoutTakesOne(a, 0);
      WithoutTakesOne(b, k);
      FilterForgetsOrder(keep, Without(a, 0), Without(b, k));
      FilterWithout(keep, a, 0);
      FilterWithout(keep, b, k);
    }
  }

  lemma MapWithout<T, U>(f: T -> U, s: seq<T>, k: nat)
    requires k < |s|
    ensures multiset(Map(f, s)) == multiset(Map(f, Without(s, k))) + multiset{f(s[k])}
  {
    var made := Map(f, s);
    assert Map(f, Without(s, k)) == Without(made, k);
    WithoutTakesOne(made, k);
    assert made[k] in made;
    PutBack(multiset(made), made[k]);
  }

  lemma {:induction false} MapForgetsOrder<T, U>(f: T -> U, a: seq<T>, b: seq<T>)
    requires multiset(a) == multiset(b)
    ensures multiset(Map(f, a)) == multiset(Map(f, b))
    decreases |a|
  {
    if a == [] {
      assert |multiset(b)| == |b|;
      assert b == [];
    } else {
      hide Map, Without;
      assert a[0] in multiset(b);
      var k :| 0 <= k < |b| && b[k] == a[0];
      WithoutTakesOne(a, 0);
      WithoutTakesOne(b, k);
      MapForgetsOrder(f, Without(a, 0), Without(b, k));
      MapWithout(f, a, 0);
      MapWithout(f, b, k);
    }
  }

  lemma PutBack<U>(m: multiset<U>, x: U)
    ensures x in m ==> (m - multiset{x}) + multiset{x} == m
  {
  }

  lemma {:induction false} FilterOfDistinct<T, U>(f: T -> U, keep: T -> bool, s: seq<T>)
    requires Distinct(Map(f, s))
    ensures Distinct(Map(f, Filter(keep, s)))
  {
    if s != [] {
      assert forall i | 0 <= i < |s| - 1 :: Map(f, s[1..])[i] == Map(f, s)[i + 1];
      FilterOfDistinct(f, keep, s[1..]);
      MapOfFilter(f, keep, s);
      FilterKeeps(keep, s[1..]);
      var rest := Filter(keep, s[1..]);
      forall i | 0 <= i < |rest| ensures f(rest[i]) != f(s[0]) {
        assert rest[i] in s[1..];
        var k :| 0 <= k < |s[1..]| && s[1..][k] == rest[i];
        assert Map(f, s)[0] != Map(f, s)[k + 1];
      }
    }
  }
}
