/**
 * List updates the source writes with `filter` and spread: remove every copy of
 * an item, toggle an item in or out, drop the element at an index; and the
 * ordering a store query applies with `.order(column)`.
 */
module Seqs {
  import opened Text

  /** `s.filter(y => y !== x)`: every copy of `x` gone, everything else kept in order. */
  function Without<T(==)>(s: seq<T>, x: T): (r: seq<T>)
    ensures x !in r
    ensures multiset(r) == multiset(s)[x := 0]
    ensures x !in s ==> r == s
  {
    if s == [] then []
    else
      assert s == [s[0]] + s[1..];
      if s[0] == x then Without(s[1..], x) else [s[0]] + Without(s[1..], x)
  }

  lemma {:induction false} WithoutAppend<T>(s: seq<T>, t: seq<T>, x: T)
    ensures Without(s + t, x) == Without(s, x) + Without(t, x)
  {
    if s != [] {
      assert (s + t)[1..] == s[1..] + t;
      WithoutAppend(s[1..], t, x);
    } else {
      assert s + t == t;
    }
  }

  /** `s.includes(x) ? s.filter(y => y !== x) : [...s, x]`. */
  function Toggle<T(==)>(s: seq<T>, x: T): (r: seq<T>)
    ensures x in r <==> x !in s
    ensures multiset(r)[x := 0] == multiset(s)[x := 0]
    ensures x in s ==> |r| < |s|
    ensures x !in s ==> r == s + [x]
  {
    if x in s then
      Without(s, x)
    else
      assert multiset(s + [x]) == multiset(s) + multiset{x};
      s + [x]
  }

  /** Toggling an absent item in and then out again restores the list. */
  lemma ToggleTwiceAbsent<T>(s: seq<T>, x: T)
    requires x !in s
    ensures Toggle(Toggle(s, x), x) == s
  {
    WithoutAppend(s, [x], x);
  }

  /** `s.filter((_, j) => j !== i)`: exactly the element at index `i` dropped, or nothing when `i` is out of range. */
  function RemoveAt<T>(s: seq<T>, i: int): (r: seq<T>)
    ensures 0 <= i < |s| ==> r == s[..i] + s[i + 1..]
    ensures !(0 <= i < |s|) ==> r == s
  {
    if s == [] then []
    else
      var n := |s| - 1;
      assert s[..n][..i] == s[..i] && s[..n][i + 1..] == s[i + 1..n] <== 0 <= i < n;
      RemoveAt(s[..n], i) + (if n == i then [] else [s[n]])
  }

  /** Keys in ascending order along the list. */
  predicate SortedBy<T>(s: seq<T>, key: T -> string) {
    forall i, j :: 0 <= i < j < |s| ==> LexLe(key(s[i]), key(s[j]))
  }

  /** Puts `x` in front of the first element whose key is larger. */
  function InsertBy<T>(x: T, s: seq<T>, key: T -> string): (r: seq<T>)
    requires SortedBy(s, key)
    ensures SortedBy(r, key)
    ensures multiset(r) == multiset(s) + multiset{x}
    ensures |r| == |s| + 1
    ensures forall j :: 0 <= j < |r| ==> r[j] == x || r[j] in s
  {
    if s == [] then [x]
    else if LexLe(key(x), key(s[0])) then
      assert forall j :: 0 < j < |s| ==> LexLe(key(x), key(s[j])) by {
        forall j | 0 < j < |s| ensures LexLe(key(x), key(s[j])) { LexLeTransitive(key(x), key(s[0]), key(s[j])); }
      }
      [x] + s
    else
      var rest := InsertBy(x, s[1..], key);
      LexLeTotal(key(x), key(s[0]));
      assert forall j :: 0 <= j < |rest| ==> LexLe(key(s[0]), key(rest[j])) by {
        forall j | 0 <= j < |rest| ensures LexLe(key(s[0]), key(rest[j])) {
          if rest[j] != x {
            var k :| 0 <= k < |s[1..]| && s[1..][k] == rest[j];
            assert s[k + 1] == rest[j];
          }
        }
      }
      assert s == [s[0]] + s[1..];
      [s[0]] + rest
  }

  /** The rows ordered by `key`: a permutation of `s` that is sorted. */
  function SortBy<T>(s: seq<T>, key: T -> string): (r: seq<T>)
    ensures SortedBy(r, key)
    ensures multiset(r) == multiset(s)
    ensures |r| == |s|
  {
    if s == [] then []
    else
      assert s == [s[0]] + s[1..];
      InsertBy(s[0], SortBy(s[1..], key), key)
  }
}
