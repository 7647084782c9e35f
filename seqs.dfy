/**
 * `Array.prototype.filter` and the `filtered[0] ?? null` idiom that both
 * content selectors use to pick the first surviving row.
 */
module Seqs {
  import opened Wrappers

  /** The elements of `s` that satisfy `p`, in their original order. */
  function Filter<T>(s: seq<T>, p: T -> bool): (r: seq<T>)
    ensures |r| <= |s|
    ensures forall x :: x in r ==> x in s && p(x)
  {
    if s == [] then []
    else if p(s[0]) then [s[0]] + Filter(s[1..], p)
    else Filter(s[1..], p)
  }

  /** `i` is the position of the earliest element of `s` satisfying `p`. */
  ghost predicate IsFirst<T>(s: seq<T>, p: T -> bool, i: int) {
    0 <= i < |s| && p(s[i]) && forall j :: 0 <= j < i ==> !p(s[j])
  }

  /** A filter is empty exactly when no element passes, and otherwise starts
      with the earliest element that passes. */
  lemma {:induction false} FilterFront<T>(s: seq<T>, p: T -> bool)
    ensures |Filter(s, p)| == 0 <==> forall k :: 0 <= k < |s| ==> !p(s[k])
    ensures |Filter(s, p)| > 0 ==> exists i :: IsFirst(s, p, i) && Filter(s, p)[0] == s[i]
  {
    if s != [] {
      if p(s[0]) {
        assert IsFirst(s, p, 0);
      } else {
        FilterFront(s[1..], p);
        if |Filter(s[1..], p)| > 0 {
          var i :| IsFirst(s[1..], p, i) && Filter(s[1..], p)[0] == s[1..][i];
          assert IsFirst(s, p, i + 1);
        } else {
          forall k | 0 <= k < |s| ensures !p(s[k]) {
            if k > 0 { assert s[k] == s[1..][k - 1]; }
          }
        }
      }
    }
  }

  /** `Filter(s, p)[0] ?? null`: the earliest element passing `p`, if any. */
  function FirstWhere<T>(s: seq<T>, p: T -> bool): (r: Option<T>)
    ensures r.None? <==> forall k :: 0 <= k < |s| ==> !p(s[k])
    ensures r.Some? ==> exists i :: IsFirst(s, p, i) && r.value == s[i]
  {
    FilterFront(s, p);
    var filtered := Filter(s, p);
    if |filtered| == 0 then None else Some(filtered[0])
  }

  /** Two lists whose elements pass their predicates at the same positions
      have their first passing element at the same position. */
  lemma FirstWhereAligned<T, U>(a: seq<T>, p: T -> bool, b: seq<U>, q: U -> bool)
    requires |a| == |b|
    requires forall k :: 0 <= k < |a| ==> p(a[k]) == q(b[k])
    ensures FirstWhere(a, p).None? <==> FirstWhere(b, q).None?
    ensures FirstWhere(a, p).Some? ==>
      exists i :: 0 <= i < |a| && FirstWhere(a, p) == Some(a[i]) && FirstWhere(b, q) == Some(b[i])
  {
    var ra, rb := FirstWhere(a, p), FirstWhere(b, q);
    if ra.Some? {
      assert exists i :: IsFirst(a, p, i) && ra.value == a[i];
      var i :| IsFirst(a, p, i) && ra.value == a[i];
      assert IsFirst(b, q, i) by {
        forall j | 0 <= j < i ensures !q(b[j]) { assert !p(a[j]); }
      }
      assert rb.Some?;
      assert exists j :: IsFirst(b, q, j) && rb.value == b[j];
      var j :| IsFirst(b, q, j) && rb.value == b[j];
      assert i == j;
    } else {
      forall k | 0 <= k < |b| ensures !q(b[k]) { assert !p(a[k]); }
    }
  }

  /** Every element that passes is kept: with `Filter`'s own contract, an
      element is in the filter exactly when it is in the input and passes. */
  lemma {:induction false} FilterComplete<T>(s: seq<T>, p: T -> bool, x: T)
    requires x in s && p(x)
    ensures x in Filter(s, p)
  {
    if s[0] != x {
      assert x in s[1..];
      FilterComplete(s[1..], p, x);
    }
  }

  /** Filtering keeps the input order: filtering a concatenation
      concatenates the filtered parts. */
  lemma {:induction false} FilterAppend<T>(s: seq<T>, t: seq<T>, p: T -> bool)
    ensures Filter(s + t, p) == Filter(s, p) + Filter(t, p)
  {
    if s == [] {
      assert s + t == t;
    } else {
      assert (s + t)[0] == s[0] && (s + t)[1..] == s[1..] + t;
      FilterAppend(s[1..], t, p);
    }
  }
}
