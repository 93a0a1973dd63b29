/** Scanning text the way the core's regular expressions do: a literal at a position,
    the longest run of characters of one class (a greedy `+` or `*`), and the leftmost
    position where a pattern matches (`String.prototype.match` without the `g` flag). */
module Scan {
  import opened Wrappers

  /** `t` occurs in `s` at position `i`. */
  predicate StartsAt(s: string, i: nat, t: string) {
    i + |t| <= |s| && s[i..i + |t|] == t
  }

  /** The end of the longest run of characters satisfying `f` that starts at `p`. */
  function Span(s: string, p: nat, f: char -> bool): (r: nat)
    requires p <= |s|
    ensures p <= r <= |s|
    ensures forall k :: p <= k < r ==> f(s[k])
    ensures r == |s| || !f(s[r])
    decreases |s| - p
  {
    if p < |s| && f(s[p]) then Span(s, p + 1, f) else p
  }

  /** A run is determined by where it starts: any end with the two properties is the end. */
  lemma SpanUnique(s: string, p: nat, f: char -> bool, r: nat)
    requires p <= r <= |s|
    requires forall k :: p <= k < r ==> f(s[k])
    requires r == |s| || !f(s[r])
    ensures Span(s, p, f) == r
  {
  }

  /** The first position in `i..n` where `at` finds a match, with what it found there. */
  function First<T>(i: nat, n: nat, at: nat -> Option<T>): (r: Option<(nat, T)>)
    ensures r.Some? ==> i <= r.value.0 <= n && at(r.value.0) == Some(r.value.1)
    ensures r.Some? ==> forall j :: i <= j < r.value.0 ==> at(j).None?
    ensures r.None? <==> forall j :: i <= j <= n ==> at(j).None?
    decreases n + 1 - i
  {
    if i > n then None
    else
      match at(i)
      case Some(v) => Some((i, v))
      case None => First(i + 1, n, at)
  }

  /** The first match is at `i` when `at` matches there and nowhere before. */
  lemma FirstIs<T>(n: nat, at: nat -> Option<T>, i: nat)
    requires i <= n && at(i).Some?
    requires forall k: nat :: k < i ==> at(k).None?
    ensures First(0, n, at) == Some((i, at(i).value))
  {
    assert First(0, n, at).Some?;
  }

  /** The same for a search that starts at `i0`. */
  lemma FirstFromIs<T>(i0: nat, n: nat, at: nat -> Option<T>, i: nat)
    requires i0 <= i <= n && at(i).Some?
    requires forall k: nat :: i0 <= k < i ==> at(k).None?
    ensures First(i0, n, at) == Some((i, at(i).value))
  {
    assert First(i0, n, at).Some?;
  }

  /** `s.includes(t)`. */
  predicate Includes(s: string, t: string) {
    First(0, |s|, (i: nat) => if StartsAt(s, i, t) then Some(i) else None).Some?
  }

  lemma IncludesSpec(s: string, t: string)
    ensures Includes(s, t) <==> exists i: nat :: StartsAt(s, i, t)
  {
    var at := (i: nat) => if StartsAt(s, i, t) then Some(i) else None;
    if exists i: nat :: StartsAt(s, i, t) {
      var i: nat :| StartsAt(s, i, t);
      assert at(i).Some?;
    }
  }
}
