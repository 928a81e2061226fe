/**
 * Sequence helpers shared by every screen: the optional value the TypeScript
 * code writes as `T | null` / `T | undefined`, `Array.prototype.find` and
 * `Array.prototype.filter`, and the first-occurrence de-duplication that
 * `Array.from(new Set(xs))` performs.
 */
module Seqs {

  datatype Option<+T> = None | Some(value: T) {
    /** `x ?? d` in the source. */
    function GetOr(default: T): T {
      match this
      case Some(v) => v
      case None => default
    }
  }

  /** `s.find(p)`: the first element of `s` that satisfies `p`, if any. */
  function Find<T>(s: seq<T>, p: T -> bool): (r: Option<T>)
    ensures r.None? <==> forall k :: 0 <= k < |s| ==> !p(s[k])
    ensures r.Some? ==> exists k :: 0 <= k < |s| && s[k] == r.value && p(s[k]) &&
                                    forall j :: 0 <= j < k ==> !p(s[j])
    decreases |s|
  {
    if s == [] then None
    else if p(s[0]) then Some(s[0])
    else
      var r := Find(s[1..], p);
      assert forall k :: 1 <= k < |s| ==> s[k] == s[1..][k - 1];
      r
  }

  /** The element at the first position satisfying `p` is the one `find` returns. */
  lemma FindFirst<T>(s: seq<T>, p: T -> bool, k: int)
    requires 0 <= k < |s| && p(s[k])
    requires forall j :: 0 <= j < k ==> !p(s[j])
    ensures Find(s, p) == Some(s[k])
  {
    var i :| 0 <= i < |s| && s[i] == Find(s, p).value && p(s[i]) && forall j :: 0 <= j < i ==> !p(s[j]);
    assert i == k;
  }

  /** An element that fails `p` never changes what `find` returns, wherever it sits. */
  lemma {:induction false} FindSkips<T>(a: seq<T>, x: T, b: seq<T>, p: T -> bool)
    requires !p(x)
    ensures Find(a + [x] + b, p) == Find(a + b, p)
    decreases |a|
  {
    if a == [] {
      assert (a + [x] + b)[1..] == a + b;
    } else {
      assert (a + [x] + b)[1..] == a[1..] + [x] + b;
      assert (a + b)[1..] == a[1..] + b;
      FindSkips(a[1..], x, b, p);
    }
  }

  /** Elements appended after a found element do not change what `find` returns. */
  lemma {:induction false} FindPrefix<T>(s: seq<T>, extra: seq<T>, p: T -> bool)
    requires Find(s, p).Some?
    ensures Find(s + extra, p) == Find(s, p)
    decreases |s|
  {
    if !p(s[0]) {
      assert (s + extra)[1..] == s[1..] + extra;
      FindPrefix(s[1..], extra, p);
    }
  }

  /** How many elements of `s` satisfy `p`. */
  function CountIf<T>(s: seq<T>, p: T -> bool): nat
    decreases |s|
  {
    if s == [] then 0 else (if p(s[0]) then 1 else 0) + CountIf(s[1..], p)
  }

  /** Counting the elements that differ from `v` counts all but the occurrences of `v`. */
  lemma {:induction false} CountIfOthers<T>(s: seq<T>, p: T -> bool, v: T)
    requires forall x :: p(x) == (x != v)
    ensures CountIf(s, p) == |s| - multiset(s)[v]
    decreases |s|
  {
    if s != [] {
      CountIfOthers(s[1..], p, v);
      assert s == [s[0]] + s[1..];
      assert multiset(s) == multiset([s[0]]) + multiset(s[1..]);
    }
  }

  /**
   * Keeps, in order, the elements of `s` that satisfy `p` (`s.filter(p)`):
   * every kept element satisfies `p`, every satisfying element is kept, as
   * many times as it satisfies `p` in `s`, and the first kept element is the
   * one `find` returns.
   */
  function Filter<T>(s: seq<T>, p: T -> bool): (r: seq<T>)
    ensures |r| == CountIf(s, p) <= |s|
    ensures forall k :: 0 <= k < |r| ==> r[k] in s && p(r[k])
    ensures forall k :: 0 <= k < |s| && p(s[k]) ==> s[k] in r
    ensures r == [] <==> Find(s, p).None?
    ensures r != [] ==> Find(s, p) == Some(r[0])
    decreases |s|
  {
    if s == [] then []
    else if p(s[0]) then [s[0]] + Filter(s[1..], p)
    else Filter(s[1..], p)
  }

  /** `r` can be obtained from `s` by deleting elements, keeping the order of the rest. */
  ghost predicate SubsequenceOf<T>(r: seq<T>, s: seq<T>)
    decreases |s|
  {
    r == [] ||
    (s != [] && (SubsequenceOf(r, s[1..]) || (r[0] == s[0] && SubsequenceOf(r[1..], s[1..]))))
  }

  lemma {:induction false} FilterIsSubsequence<T>(s: seq<T>, p: T -> bool)
    ensures SubsequenceOf(Filter(s, p), s)
    decreases |s|
  {
    if s != [] {
      FilterIsSubsequence(s[1..], p);
      if p(s[0]) {
        var r := Filter(s, p);
        assert r[0] == s[0] && r[1..] == Filter(s[1..], p);
      }
    }
  }

  /** A filter whose predicate holds everywhere returns its input unchanged. */
  lemma {:induction false} FilterKeepsAll<T>(s: seq<T>, p: T -> bool)
    requires forall k :: 0 <= k < |s| ==> p(s[k])
    ensures Filter(s, p) == s
    decreases |s|
  {
    if s != [] {
      FilterKeepsAll(s[1..], p);
    }
  }

  /** A filter whose predicate holds nowhere returns the empty sequence. */
  lemma {:induction false} FilterDropsAll<T>(s: seq<T>, p: T -> bool)
    requires forall k :: 0 <= k < |s| ==> !p(s[k])
    ensures Filter(s, p) == []
    decreases |s|
  {
    if s != [] {
      FilterDropsAll(s[1..], p);
    }
  }

  ghost predicate NoDups<T>(s: seq<T>) {
    forall i, j :: 0 <= i < j < |s| ==> s[i] != s[j]
  }

  /** The position of the first occurrence of `x` in `s`. */
  function IndexOf<T(==)>(s: seq<T>, x: T): (k: nat)
    requires x in s
    ensures k < |s| && s[k] == x && x !in s[..k]
    decreases |s|
  {
    if s[0] == x then 0
    else
      var k := 1 + IndexOf(s[1..], x);
      assert s[..k] == [s[0]] + s[1..][..k - 1];
      k
  }

  /** A position holding `x` with no earlier `x` is the first occurrence. */
  lemma IndexOfUnique<T>(s: seq<T>, x: T, k: nat)
    requires k < |s| && s[k] == x && x !in s[..k]
    ensures IndexOf(s, x) == k
  {
  }

  /** Appending one element moves no first occurrence. */
  lemma IndexOfSnoc<T>(init: seq<T>, last: T, y: T)
    requires y in init
    ensures IndexOf(init + [last], y) == IndexOf(init, y)
  {
    var k := IndexOf(init, y);
    assert (init + [last])[..k] == init[..k];
    IndexOfUnique(init + [last], y, k);
  }

  /** An element new to the sequence occurs first at the end. */
  lemma IndexOfSnocNew<T>(init: seq<T>, last: T)
    requires last !in init
    ensures IndexOf(init + [last], last) == |init|
  {
    assert (init + [last])[..|init|] == init;
    IndexOfUnique(init + [last], last, |init|);
  }

  /** The elements of `r` occur in `s`, and `r` lists them in order of their first occurrence in `s`. */
  ghost predicate InFirstOccurrenceOrder<T>(r: seq<T>, s: seq<T>) {
    && (forall k :: 0 <= k < |r| ==> r[k] in s)
    && forall i, j :: 0 <= i < j < |r| ==> IndexOf(s, r[i]) < IndexOf(s, r[j])
  }

  /**
   * `Array.from(new Set(s))`: the distinct elements of `s`, each once, ordered
   * by the position of their first occurrence in `s`. Defined from the right end
   * so that it reads as the Set being filled element by element from the left.
   */
  function Dedup<T(==)>(s: seq<T>): (r: seq<T>)
    ensures NoDups(r)
    ensures forall k :: 0 <= k < |s| ==> s[k] in r
    ensures InFirstOccurrenceOrder(r, s)
    decreases |s|
  {
    if s == [] then []
    else
      var d := Dedup(s[..|s| - 1]);
      DedupStep(s, d);
      if s[|s| - 1] in d then d else d + [s[|s| - 1]]
  }

  /** One step of `Dedup`: adding the last element when it is new keeps every property. */
  lemma DedupStep<T>(s: seq<T>, d: seq<T>)
    requires s != []
    requires NoDups(d)
    requires forall k :: 0 <= k < |s| - 1 ==> s[k] in d
    requires InFirstOccurrenceOrder(d, s[..|s| - 1])
    ensures var r := if s[|s| - 1] in d then d else d + [s[|s| - 1]];
      && NoDups(r)
      && (forall k :: 0 <= k < |s| ==> s[k] in r)
      && InFirstOccurrenceOrder(r, s)
  {
    var init, last := s[..|s| - 1], s[|s| - 1];
    assert s == init + [last];
    assert forall k :: 0 <= k < |init| ==> init[k] == s[k];
    DedupStepOrder(init, last, d);
  }

  /** One step of `Dedup` keeps the elements ordered by first occurrence. */
  lemma DedupStepOrder<T>(init: seq<T>, last: T, d: seq<T>)
    requires InFirstOccurrenceOrder(d, init)
    requires forall k :: 0 <= k < |init| ==> init[k] in d
    ensures InFirstOccurrenceOrder(if last in d then d else d + [last], init + [last])
  {
    var s := init + [last];
    var r := if last in d then d else d + [last];
    forall i, j | 0 <= i < j < |r| ensures IndexOf(s, r[i]) < IndexOf(s, r[j]) {
      IndexOfSnoc(init, last, d[i]);
      if j < |d| {
        IndexOfSnoc(init, last, d[j]);
      } else {
        IndexOfSnocNew(init, last);
      }
    }
  }

  /** Adding one element to a Set keeps the earlier elements in place and appends it if new. */
  lemma DedupSnoc<T>(s: seq<T>, x: T)
    ensures Dedup(s + [x]) == Dedup(s) + (if x in s then [] else [x])
  {
    assert (s + [x])[..|s + [x]| - 1] == s;
  }

  /** A sequence without duplicates survives the round trip through a Set unchanged. */
  lemma {:induction false} DedupOfDistinct<T>(s: seq<T>)
    requires NoDups(s)
    ensures Dedup(s) == s
    decreases |s|
  {
    if s != [] {
      var init := s[..|s| - 1];
      assert NoDups(init);
      DedupOfDistinct(init);
      assert s[|s| - 1] !in init;
      assert Dedup(s) == init + [s[|s| - 1]];
      assert init + [s[|s| - 1]] == s;
    }
  }
}
