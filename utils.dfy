/** The shared helpers of lib/utils.ts. */
module Utils {

  function Min(a: real, b: real): real { if a <= b then a else b }
  function Max(a: real, b: real): real { if a >= b then a else b }

  /**
   * `Math.max(min, Math.min(max, n))`. When the bounds are inverted the outer
   * `Math.max` wins, so the result is then `lo`.
   */
  function Clamp(n: real, lo: real, hi: real): (r: real)
    ensures lo <= hi ==> lo <= r <= hi
    ensures lo <= n <= hi ==> r == n
    ensures n < lo ==> r == lo
    ensures lo <= hi < n ==> r == hi
    ensures hi < lo ==> r == lo
  {
    Max(lo, Min(hi, n))
  }

  /** Clamping a value already clamped to the same bounds changes nothing. */
  lemma ClampIdempotent(n: real, lo: real, hi: real)
    ensures Clamp(Clamp(n, lo, hi), lo, hi) == Clamp(n, lo, hi)
  {
  }

  /** Clamping never reverses the order of two inputs. */
  lemma ClampMonotone(n: real, m: real, lo: real, hi: real)
    requires n <= m
    ensures Clamp(n, lo, hi) <= Clamp(m, lo, hi)
  {
  }

  predicate IsLowerAscii(c: char) { 'a' <= c <= 'z' }

  /** `String.prototype.toUpperCase` on one character, restricted to ASCII. */
  function UpperAscii(c: char): (u: char)
    ensures !IsLowerAscii(u)
    ensures IsLowerAscii(c) ==> 'A' <= u <= 'Z' && u as int + 32 == c as int
    ensures !IsLowerAscii(c) ==> u == c
  {
    if IsLowerAscii(c) then (c as int - 32) as char else c
  }

  /** `d.charAt(0).toUpperCase() + d.slice(1)`: the domain with its first letter capitalised. */
  function DomainLabel(d: string): (r: string)
    ensures |r| == |d|
    ensures d == [] ==> r == []
    ensures d != [] ==> r[0] == UpperAscii(d[0]) && r[1..] == d[1..]
  {
    if d == [] then [] else [UpperAscii(d[0])] + d[1..]
  }

  /** Labelling an already labelled domain changes nothing. */
  lemma DomainLabelIdempotent(d: string)
    ensures DomainLabel(DomainLabel(d)) == DomainLabel(d)
  {
  }

  /** A domain that does not start with a lower-case ASCII letter is its own label. */
  lemma DomainLabelFixesCapitalised(d: string)
    requires d == [] || !IsLowerAscii(d[0])
    ensures DomainLabel(d) == d
  {
  }
}
