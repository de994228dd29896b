/** Small value types and sequence helpers shared by the components of the app. */
module Common {

  datatype Option<+T> = None | Some(value: T)

  function Min(a: int, b: int): (m: int)
    ensures m <= a && m <= b
    ensures m == a || m == b
  {
    if a <= b then a else b
  }

  function Max(a: int, b: int): (m: int)
    ensures m >= a && m >= b
    ensures m == a || m == b
  {
    if a <= b then b else a
  }

  /** Every element occurs at most once. */
  ghost predicate NoDuplicates<T>(s: seq<T>)
  {
    forall x | x in s :: multiset(s)[x] == 1
  }

  /** JavaScript's `s.filter(v => v !== x)`: drop every occurrence of `x`, keep the rest in order. */
  function RemoveAll<T(==)>(s: seq<T>, x: T): (r: seq<T>)
    ensures x !in r
    ensures forall y | y in r :: y in s
    ensures forall y | y in s && y != x :: multiset(r)[y] == multiset(s)[y]
  {
    if s == [] then []
    else
      assert s == [s[0]] + s[1..];
      (if s[0] == x then [] else [s[0]]) + RemoveAll(s[1..], x)
  }

  /** Filtering distributes over a trailing element. */
  lemma {:induction false} RemoveAllSnoc<T>(s: seq<T>, y: T, x: T)
    ensures RemoveAll(s + [y], x) == RemoveAll(s, x) + (if y == x then [] else [y])
  {
    if s == [] {
      assert [] + [y] == [y];
    } else {
      var t := s + [y];
      var head := if s[0] == x then [] else [s[0]];
      var tail := if y == x then [] else [y];
      assert t[0] == s[0] && t[1..] == s[1..] + [y];
      RemoveAllSnoc(s[1..], y, x);
      calc {
        RemoveAll(t, x);
        head + RemoveAll(s[1..] + [y], x);
        head + (RemoveAll(s[1..], x) + tail);
        (head + RemoveAll(s[1..], x)) + tail;
        RemoveAll(s, x) + tail;
      }
    }
  }

  /** Filtering shortens the list by exactly the number of occurrences removed. */
  lemma {:induction false} RemoveAllLength<T>(s: seq<T>, x: T)
    ensures |RemoveAll(s, x)| == |s| - multiset(s)[x]
  {
    if s != [] {
      assert s == [s[0]] + s[1..];
      RemoveAllLength(s[1..], x);
    }
  }

  /** Filtering out a value that is not there changes nothing. */
  lemma {:induction false} RemoveAllAbsent<T>(s: seq<T>, x: T)
    requires x !in s
    ensures RemoveAll(s, x) == s
  {
    if s != [] {
      assert s == [s[0]] + s[1..];
      RemoveAllAbsent(s[1..], x);
    }
  }

  /** Filtering keeps a duplicate-free list duplicate-free. */
  lemma RemoveAllNoDuplicates<T>(s: seq<T>, x: T)
    requires NoDuplicates(s)
    ensures NoDuplicates(RemoveAll(s, x))
  {
    var r := RemoveAll(s, x);
    forall y | y in r ensures multiset(r)[y] == 1 {
      assert multiset(r)[y] == multiset(s)[y];
    }
  }

  /** A prefix holds no more of anything than the whole. */
  lemma PrefixMultiset<T>(s: seq<T>, k: nat)
    requires k <= |s|
    ensures multiset(s[..k]) <= multiset(s)
  {
    assert s == s[..k] + s[k..];
  }
}
