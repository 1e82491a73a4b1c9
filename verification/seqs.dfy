/**
 * Ruby's `Array#find`, `any?` and `all?` over pure predicates. The core
 * calls them with blocks that have no side effects (the blocks that do
 * are written out as loops where they are used).
 */
module Seqs {
  import opened Wrappers

  /** The position of the first element satisfying `p`, or `|xs|` when none does. */
  function IndexOfFirst<T>(xs: seq<T>, p: T -> bool): (r: nat)
    ensures r <= |xs|
    ensures forall j :: 0 <= j < r ==> !p(xs[j])
    ensures r < |xs| ==> p(xs[r])
  {
    if |xs| == 0 then 0
    else if p(xs[0]) then 0
    else 1 + IndexOfFirst(xs[1..], p)
  }

  /** `Array#find`: the first element satisfying `p`. */
  function Find<T>(xs: seq<T>, p: T -> bool): (r: Option<T>)
    ensures r.None? <==> forall j :: 0 <= j < |xs| ==> !p(xs[j])
    ensures r.Some? ==> p(r.value) && r.value in xs
    ensures r.Some? ==> r.value == xs[IndexOfFirst(xs, p)]
  {
    var i := IndexOfFirst(xs, p);
    if i < |xs| then Some(xs[i]) else None
  }

  /** `Array#any?` */
  predicate Any<T>(xs: seq<T>, p: T -> bool)
  {
    exists j :: 0 <= j < |xs| && p(xs[j])
  }

  /** `Array#all?` */
  predicate All<T>(xs: seq<T>, p: T -> bool)
  {
    forall j :: 0 <= j < |xs| ==> p(xs[j])
  }

  /**
   * `Array#all?` over a block that may raise: the first outcome that is not
   * `true` decides, and nothing after it is looked at.
   */
  function AllOk<T>(xs: seq<T>, f: T -> Result<bool>): (r: Result<bool>)
    ensures r == Ok(true) <==> forall j :: 0 <= j < |xs| ==> f(xs[j]) == Ok(true)
    ensures r != Ok(true) ==> exists k :: 0 <= k < |xs| && r == f(xs[k]) && forall j :: 0 <= j < k ==> f(xs[j]) == Ok(true)
  {
    if |xs| == 0 then Ok(true)
    else
      var first := f(xs[0]);
      if first != Ok(true) then first
      else
        var rest := AllOk(xs[1..], f);
        assert rest != Ok(true) ==> exists k :: 0 <= k < |xs| && rest == f(xs[k]) && forall j :: 0 <= j < k ==> f(xs[j]) == Ok(true) by {
          if rest != Ok(true) {
            var k :| 0 <= k < |xs[1..]| && rest == f(xs[1..][k]) && forall j :: 0 <= j < k ==> f(xs[1..][j]) == Ok(true);
            assert rest == f(xs[k + 1]);
          }
        }
        rest
  }

  /**
   * `Array#any?` over a block that may raise: the first outcome that is not
   * `false` decides, and nothing after it is looked at.
   */
  function AnyOk<T>(xs: seq<T>, f: T -> Result<bool>): (r: Result<bool>)
    ensures r == Ok(false) <==> forall j :: 0 <= j < |xs| ==> f(xs[j]) == Ok(false)
    ensures r != Ok(false) ==> exists k :: 0 <= k < |xs| && r == f(xs[k]) && forall j :: 0 <= j < k ==> f(xs[j]) == Ok(false)
  {
    if |xs| == 0 then Ok(false)
    else
      var first := f(xs[0]);
      if first != Ok(false) then first
      else
        var rest := AnyOk(xs[1..], f);
        assert rest != Ok(false) ==> exists k :: 0 <= k < |xs| && rest == f(xs[k]) && forall j :: 0 <= j < k ==> f(xs[j]) == Ok(false) by {
          if rest != Ok(false) {
            var k :| 0 <= k < |xs[1..]| && rest == f(xs[1..][k]) && forall j :: 0 <= j < k ==> f(xs[1..][j]) == Ok(false);
            assert rest == f(xs[k + 1]);
          }
        }
        rest
  }

  /**
   * `find`, `any?` or `all?` over a block that threads a state (the
   * evaluator context): runs `step` on the elements in order for as long
   * as each answers `Ok(expected)`, and gives how many did and the state
   * after them. The element it stopped at, if any, answered something
   * else.
   */
  function Scan<T, S>(step: (T, S) -> (Result<bool>, S), xs: seq<T>, expected: bool, s: S): (r: (nat, S))
    ensures r.0 <= |xs|
    ensures r.0 < |xs| ==> step(xs[r.0], r.1).0 != Ok(expected)
    ensures r.0 == 0 ==> r.1 == s
  {
    if |xs| == 0 then (0, s)
    else
      var (m, s1) := step(xs[0], s);
      if m != Ok(expected) then (0, s)
      else
        var (k, s2) := Scan(step, xs[1..], expected, s1);
        assert k < |xs[1..]| ==> xs[1..][k] == xs[k + 1];
        (k + 1, s2)
  }

  /**
   * `find` over a block that threads a state and may raise: the first
   * element the block answers true for, the first error it raises, or nil
   * when it answers false for every element.
   */
  function FindThreaded<T, S>(step: (T, S) -> (Result<bool>, S), xs: seq<T>, s: S): (r: (Result<Option<T>>, S))
    ensures xs == [] ==> r == (Ok(None), s)
    ensures r.0.Ok? && r.0.value.Some? ==> r.0.value.value in xs
  {
    if |xs| == 0 then (Ok(None), s)
    else
      var (m, s1) := step(xs[0], s);
      if m.Failure? then (Failure(m.error), s1)
      else if m.value then (Ok(Some(xs[0])), s1)
      else
        var r := FindThreaded(step, xs[1..], s1);
        assert r.0.Ok? && r.0.value.Some? ==> r.0.value.value in xs;
        r
  }

  /**
   * `find` as a scan: the elements before the k-th all answer false, and
   * the k-th decides, its true giving the element found and its error the
   * error; when every element answers false nothing is found.
   */
  lemma {:induction false} FindThreadedIsScan<T, S>(step: (T, S) -> (Result<bool>, S), xs: seq<T>, s: S)
    ensures var scan := Scan(step, xs, false, s);
      var k, t := scan.0, scan.1;
      var r := FindThreaded(step, xs, s);
      && (k == |xs| ==> r == (Ok(None), t))
      && (k < |xs| ==>
            var m := step(xs[k], t);
            && (m.0 == Ok(true) ==> r == (Ok(Some(xs[k])), m.1))
            && (m.0.Failure? ==> r == (Failure(m.0.error), m.1)))
  {
    if |xs| > 0 {
      var m := step(xs[0], s);
      if m.0 == Ok(false) {
        FindThreadedIsScan(step, xs[1..], m.1);
        var scan := Scan(step, xs[1..], false, m.1);
        assert scan.0 < |xs[1..]| ==> xs[1..][scan.0] == xs[scan.0 + 1];
      }
    }
  }

  /**
   * `any?` (with `expected` false) or `all?` (with `expected` true) over a
   * block that threads a state and may raise: the block runs while it
   * answers `expected`, and the first other answer (the opposite verdict or
   * an error) is the result; with every element answering `expected`, so
   * is the result.
   */
  function AnyOrAllThreaded<T, S>(step: (T, S) -> (Result<bool>, S), xs: seq<T>, expected: bool, s: S): (r: (Result<bool>, S))
    ensures xs == [] ==> r == (Ok(expected), s)
  {
    if |xs| == 0 then (Ok(expected), s)
    else
      var m := step(xs[0], s);
      if m.0 == Ok(expected) then AnyOrAllThreaded(step, xs[1..], expected, m.1) else m
  }

  /** `any?` and `all?` as a scan: the elements before the k-th answer `expected`, and the k-th's answer is the result. */
  lemma {:induction false} AnyOrAllThreadedIsScan<T, S>(step: (T, S) -> (Result<bool>, S), xs: seq<T>, expected: bool, s: S)
    ensures var scan := Scan(step, xs, expected, s);
      var k, t := scan.0, scan.1;
      var r := AnyOrAllThreaded(step, xs, expected, s);
      && (k == |xs| ==> r == (Ok(expected), t))
      && (k < |xs| ==> r == step(xs[k], t))
  {
    if |xs| > 0 {
      var m := step(xs[0], s);
      if m.0 == Ok(expected) {
        AnyOrAllThreadedIsScan(step, xs[1..], expected, m.1);
        var scan := Scan(step, xs[1..], expected, m.1);
        assert scan.0 < |xs[1..]| ==> xs[1..][scan.0] == xs[scan.0 + 1];
      }
    }
  }

  /** `Array#map` (or `each` pushing onto a list): `f` applied to each element, in order. */
  function Map<T, U>(f: T -> U, xs: seq<T>): seq<U>
  {
    if |xs| == 0 then []
    else Map(f, xs[..|xs| - 1]) + [f(xs[|xs| - 1])]
  }

  /** The mapped list has one element per input element, each the image of the one at its position. */
  lemma {:induction false} MapAt<T, U>(f: T -> U, xs: seq<T>)
    ensures |Map(f, xs)| == |xs|
    ensures forall i :: 0 <= i < |xs| ==> Map(f, xs)[i] == f(xs[i])
  {
    if |xs| > 0 {
      var init := xs[..|xs| - 1];
      MapAt(f, init);
      forall i | 0 <= i < |init|
        ensures Map(f, xs)[i] == f(xs[i])
      {
        assert xs[i] == init[i];
      }
    }
  }

  /** Mapping one more element appends its image. */
  lemma MapStep<T, U>(f: T -> U, xs: seq<T>, i: nat)
    requires i < |xs|
    ensures Map(f, xs[..i + 1]) == Map(f, xs[..i]) + [f(xs[i])]
  {
    assert xs[..i + 1][..i] == xs[..i];
  }

  /** `f` applied to every element, or None when any element maps to None. */
  function AllSome<T, U>(xs: seq<T>, f: T -> Option<U>): (r: Option<seq<U>>)
    ensures r.Some? <==> forall i :: 0 <= i < |xs| ==> f(xs[i]).Some?
    ensures r.Some? ==> |r.value| == |xs| && forall i :: 0 <= i < |xs| ==> Some(r.value[i]) == f(xs[i])
  {
    if |xs| == 0 then Some([])
    else
      var first := f(xs[0]);
      var rest := AllSome(xs[1..], f);
      if first.None? then None
      else if rest.None? then
        assert exists i :: 0 <= i < |xs[1..]| && f(xs[1..][i]).None?;
        None
      else
        assert forall i :: 1 <= i < |xs| ==> xs[i] == xs[1..][i - 1];
        Some([first.value] + rest.value)
  }

  /** A non-empty list is its front followed by its last element. */
  lemma SplitLast<T>(xs: seq<T>)
    requires |xs| > 0
    ensures xs[..|xs| - 1] + [xs[|xs| - 1]] == xs
  {
  }
}
