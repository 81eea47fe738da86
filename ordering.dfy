/** The orders the server's SQL `ORDER BY` clauses impose: text compared
    code point by code point, and a stable sort by a total preorder. SQL
    leaves the relative order of rows with equal keys unspecified; the
    model keeps them in scan order. */
module Ordering {

  /** `a < b` on text, code point by code point, a proper prefix first
      (PostgreSQL's "C" collation). */
  predicate TextLess(a: string, b: string) {
    if a == [] then b != []
    else if b == [] then false
    else if a[0] != b[0] then a[0] < b[0]
    else TextLess(a[1..], b[1..])
  }

  lemma {:induction false} TextLessIrreflexive(a: string)
    ensures !TextLess(a, a)
  {
    if a != [] {
      TextLessIrreflexive(a[1..]);
    }
  }

  lemma {:induction false} TextLessTransitive(a: string, b: string, c: string)
    requires TextLess(a, b) && TextLess(b, c)
    ensures TextLess(a, c)
  {
    if a != [] && b != [] && c != [] && a[0] == b[0] && b[0] == c[0] {
      TextLessTransitive(a[1..], b[1..], c[1..]);
    }
  }

  /** Any two different texts are ordered one way, and never both ways. */
  lemma {:induction false} TextLessTrichotomy(a: string, b: string)
    ensures a != b <==> (TextLess(a, b) || TextLess(b, a))
    ensures !(TextLess(a, b) && TextLess(b, a))
  {
    if a != [] && b != [] && a[0] == b[0] {
      TextLessTrichotomy(a[1..], b[1..]);
      assert a == [a[0]] + a[1..] && b == [b[0]] + b[1..];
    }
  }

  /** `a <= b` on text. */
  predicate TextAtMost(a: string, b: string) {
    a == b || TextLess(a, b)
  }

  /** Every pair is comparable and the relation chains: the shape an
      `ORDER BY` key list has. */
  ghost predicate TotalPreorder<T(!new)>(le: (T, T) -> bool) {
    && (forall a, b :: le(a, b) || le(b, a))
    && (forall a, b, c :: le(a, b) && le(b, c) ==> le(a, c))
  }

  lemma TextAtMostIsTotalPreorder()
    ensures TotalPreorder(TextAtMost)
  {
    forall a, b ensures TextAtMost(a, b) || TextAtMost(b, a) {
      TextLessTrichotomy(a, b);
    }
    forall a, b, c | TextAtMost(a, b) && TextAtMost(b, c) ensures TextAtMost(a, c) {
      if a != b && b != c {
        TextLessTransitive(a, b, c);
      }
    }
  }

  predicate Sorted<T>(s: seq<T>, le: (T, T) -> bool) {
    forall i, j :: 0 <= i < j < |s| ==> le(s[i], s[j])
  }

  /** Places `x` before the first element it is at most; equal keys keep
      `x` in front, which makes the sort below stable. */
  function Insert<T>(x: T, s: seq<T>, le: (T, T) -> bool): seq<T>
  {
    if s == [] then [x]
    else if le(x, s[0]) then [x] + s
    else [s[0]] + Insert(x, s[1..], le)
  }

  /** Insertion sort of `s` by `le`. */
  function SortBy<T>(s: seq<T>, le: (T, T) -> bool): seq<T>
  {
    if s == [] then [] else Insert(s[0], SortBy(s[1..], le), le)
  }

  lemma {:induction false} InsertPermutes<T>(x: T, s: seq<T>, le: (T, T) -> bool)
    ensures multiset(Insert(x, s, le)) == multiset(s) + multiset{x}
  {
    if s != [] && !le(x, s[0]) {
      InsertPermutes(x, s[1..], le);
      assert s == [s[0]] + s[1..];
    }
  }

  lemma {:induction false} InsertSorted<T(!new)>(x: T, s: seq<T>, le: (T, T) -> bool)
    requires TotalPreorder(le) && Sorted(s, le)
    ensures Sorted(Insert(x, s, le), le)
  {
    if s != [] && !le(x, s[0]) {
      var t := Insert(x, s[1..], le);
      InsertSorted(x, s[1..], le);
      InsertPermutes(x, s[1..], le);
      forall j | 0 <= j < |t| ensures le(s[0], t[j]) {
        assert t[j] in multiset(t);
        if t[j] != x {
          assert t[j] in multiset(s[1..]);
          var k :| 0 <= k < |s[1..]| && s[1..][k] == t[j];
          assert s[k + 1] == t[j];
        }
      }
    }
  }

  /** The sorted sequence is a permutation of its input. */
  lemma {:induction false} SortByPermutes<T>(s: seq<T>, le: (T, T) -> bool)
    ensures multiset(SortBy(s, le)) == multiset(s)
  {
    if s != [] {
      SortByPermutes(s[1..], le);
      InsertPermutes(s[0], SortBy(s[1..], le), le);
      assert s == [s[0]] + s[1..];
    }
  }

  /** The sorted sequence is ordered by `le` whenever `le` is a total preorder. */
  lemma {:induction false} SortBySorted<T(!new)>(s: seq<T>, le: (T, T) -> bool)
    requires TotalPreorder(le)
    ensures Sorted(SortBy(s, le), le)
  {
    if s != [] {
      SortBySorted(s[1..], le);
      InsertSorted(s[0], SortBy(s[1..], le), le);
    }
  }

  /** Membership survives sorting in both directions. */
  lemma SortByMembers<T>(s: seq<T>, le: (T, T) -> bool, x: T)
    ensures x in SortBy(s, le) <==> x in s
  {
    SortByPermutes(s, le);
    assert x in SortBy(s, le) <==> x in multiset(SortBy(s, le));
    assert x in s <==> x in multiset(s);
  }

  /** No two elements share a key. */
  predicate DistinctBy<T>(s: seq<T>, key: T -> int) {
    forall i, j :: 0 <= i < j < |s| ==> key(s[i]) != key(s[j])
  }

  /** Reordering keeps keys distinct. */
  lemma {:induction false} PermutationKeepsDistinct<T>(a: seq<T>, b: seq<T>, key: T -> int)
    requires multiset(a) == multiset(b) && DistinctBy(a, key)
    ensures DistinctBy(b, key)
    decreases |b|
  {
    if b != [] {
      var x, rest := b[0], b[1..];
      assert b == [x] + rest;
      assert x in multiset(a);
      var p :| 0 <= p < |a| && a[p] == x;
      var left := a[..p] + a[p + 1..];
      RemoveAt(a, p, key);
      assert multiset(rest) == multiset(b) - multiset{x};
      PermutationKeepsDistinct(left, rest, key);
      forall j | 0 <= j < |rest| ensures key(x) != key(rest[j]) {
        assert rest[j] in multiset(left);
        var q :| 0 <= q < |left| && left[q] == rest[j];
      }
      forall i, j | 0 <= i < j < |b| ensures key(b[i]) != key(b[j]) {
        assert b[j] == rest[j - 1];
        if i > 0 {
          assert b[i] == rest[i - 1];
        }
      }
    }
  }

  /** `a` without its element at `p`: the multiset loses that element, and
      keys stay distinct and differ from the removed one's. */
  lemma RemoveAt<T>(a: seq<T>, p: nat, key: T -> int)
    requires p < |a| && DistinctBy(a, key)
    ensures var left := a[..p] + a[p + 1..];
            && multiset(left) == multiset(a) - multiset{a[p]}
            && DistinctBy(left, key)
            && forall i :: 0 <= i < |left| ==> key(left[i]) != key(a[p])
  {
    RemoveAtMultiset(a, p);
    var left := a[..p] + a[p + 1..];
    forall i | 0 <= i < |left| ensures left[i] == a[if i < p then i else i + 1] {
      if i < p {
        assert left[i] == a[..p][i];
      } else {
        assert left[i] == a[p + 1..][i - p];
      }
    }
  }

  lemma RemoveAtMultiset<T>(a: seq<T>, p: nat)
    requires p < |a|
    ensures multiset(a[..p] + a[p + 1..]) == multiset(a) - multiset{a[p]}
  {
    assert a == a[..p] + [a[p]] + a[p + 1..];
    assert multiset(a) == multiset(a[..p]) + multiset{a[p]} + multiset(a[p + 1..]);
  }
}
