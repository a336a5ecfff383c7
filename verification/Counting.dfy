/** Counting the rows of a table, and sliding windows over their timestamps. */
module Counting {

  function Count<T>(p: T -> bool, xs: seq<T>): nat {
    if xs == [] then 0 else Count(p, xs[..|xs| - 1]) + (if p(xs[|xs| - 1]) then 1 else 0)
  }

  lemma CountSnoc<T>(p: T -> bool, xs: seq<T>, x: T)
    ensures Count(p, xs + [x]) == Count(p, xs) + (if p(x) then 1 else 0)
  {
    assert (xs + [x])[..|xs|] == xs;
  }

  lemma {:induction false} CountUpdate<T>(p: T -> bool, xs: seq<T>, i: nat, x: T)
    requires i < |xs|
    ensures Count(p, xs[i := x]) == Count(p, xs) - (if p(xs[i]) then 1 else 0) + (if p(x) then 1 else 0)
  {
    var n := |xs| - 1;
    if i < n {
      CountUpdate(p, xs[..n], i, x);
      assert xs[i := x][..n] == xs[..n][i := x];
    } else {
      assert xs[i := x][..n] == xs[..n];
    }
  }

  /** Where every row that satisfies `p` has a counterpart in `ys` that satisfies `q`. */
  lemma {:induction false} CountAtMost<T>(p: T -> bool, xs: seq<T>, q: T -> bool, ys: seq<T>)
    requires |xs| == |ys| && forall i | 0 <= i < |xs| :: p(xs[i]) ==> q(ys[i])
    ensures Count(p, xs) <= Count(q, ys)
  {
    if xs != [] { CountAtMost(p, xs[..|xs| - 1], q, ys[..|ys| - 1]); }
  }

  lemma {:induction false} CountNone<T>(p: T -> bool, xs: seq<T>)
    requires forall i | 0 <= i < |xs| :: !p(xs[i])
    ensures Count(p, xs) == 0
  {
    if xs != [] { CountNone(p, xs[..|xs| - 1]); }
  }

  lemma {:induction false} CountAll<T>(p: T -> bool, xs: seq<T>)
    requires forall i | 0 <= i < |xs| :: p(xs[i])
    ensures Count(p, xs) == |xs|
  {
    if xs != [] { CountAll(p, xs[..|xs| - 1]); }
  }

  lemma {:induction false} CountSole<T>(p: T -> bool, xs: seq<T>, i: nat)
    requires i < |xs| && forall k | 0 <= k < |xs| && p(xs[k]) :: k == i
    ensures Count(p, xs) <= 1
  {
    var n := |xs| - 1;
    if i < n { CountSole(p, xs[..n], i); } else { CountNone(p, xs[..n]); }
  }

  // ---------- sliding windows ----------

  /** Rows of interest no older than `since`. */
  function CountSince<T>(key: T -> bool, at: T -> int, xs: seq<T>, since: int): nat {
    Count(x => key(x) && at(x) >= since, xs)
  }

  lemma CountSinceNone<T>(key: T -> bool, at: T -> int, xs: seq<T>, since: int)
    requires forall i | 0 <= i < |xs| :: at(xs[i]) < since
    ensures CountSince(key, at, xs, since) == 0
  {
    CountNone(x => key(x) && at(x) >= since, xs);
  }

  lemma CountSinceSnoc<T>(key: T -> bool, at: T -> int, xs: seq<T>, x: T, since: int)
    ensures CountSince(key, at, xs + [x], since) == CountSince(key, at, xs, since) + (if key(x) && at(x) >= since then 1 else 0)
  {
    CountSnoc(y => key(y) && at(y) >= since, xs, x);
  }

  lemma CountSinceAll<T>(key: T -> bool, at: T -> int, xs: seq<T>, since: int)
    requires forall i | 0 <= i < |xs| :: key(xs[i]) && at(xs[i]) >= since
    ensures CountSince(key, at, xs, since) == |xs|
  {
    CountAll(x => key(x) && at(x) >= since, xs);
  }

  /** Rows of interest in the interval of the given width from `start`. */
  function CountIn<T>(key: T -> bool, at: T -> int, xs: seq<T>, start: int, width: nat): nat {
    Count(x => key(x) && start <= at(x) <= start + width, xs)
  }

  /** No interval of that width holds more rows of interest than the limit. */
  ghost predicate Limited<T>(key: T -> bool, at: T -> int, xs: seq<T>, width: nat, limit: nat) {
    forall start :: CountIn(key, at, xs, start, width) <= limit
  }

  /**
    A row joins after a count of all rows since `since` stayed below the limit. The count has
    no upper time bound, so it also counts rows newer than the clock reading that set `since`;
    all it takes is that the row is stamped no earlier than a width after `since`.
   */
  lemma AdmittedKeepsLimit<T>(key: T -> bool, at: T -> int, xs: seq<T>, x: T, since: int, width: nat, limit: nat)
    requires Limited(key, at, xs, width, limit)
    requires key(x) ==> since + width <= at(x) && CountSince(key, at, xs, since) < limit
    ensures Limited(key, at, xs + [x], width, limit)
  {
    forall start ensures CountIn(key, at, xs + [x], start, width) <= limit {
      var inside := y => key(y) && start <= at(y) <= start + width;
      CountSnoc(inside, xs, x);
      assert CountIn(key, at, xs, start, width) <= limit;
      if inside(x) { CountAtMost(inside, xs, y => key(y) && at(y) >= since, xs); }
    }
  }

  /** A row that joins when that count has reached the limit, and no row is newer than it, exceeds the limit. */
  lemma RefusedWouldExceed<T>(key: T -> bool, at: T -> int, xs: seq<T>, x: T, width: nat, limit: nat)
    requires key(x) && CountSince(key, at, xs, at(x) - width) >= limit
    requires forall i | 0 <= i < |xs| && key(xs[i]) :: at(xs[i]) <= at(x)
    ensures !Limited(key, at, xs + [x], width, limit)
  {
    var start := at(x) - width;
    var inside := y => key(y) && start <= at(y) <= start + width;
    CountAtMost(y => key(y) && at(y) >= start, xs, inside, xs);
    CountSnoc(inside, xs, x);
    assert CountIn(key, at, xs + [x], start, width) > limit;
  }

  lemma NoRowsLimited<T>(key: T -> bool, at: T -> int, width: nat, limit: nat)
    ensures Limited(key, at, [], width, limit)
  {
  }

  /** Rewriting rows without touching what is counted. */
  lemma RewriteKeepsLimit<T>(key: T -> bool, at: T -> int, xs: seq<T>, ys: seq<T>, width: nat, limit: nat)
    requires Limited(key, at, xs, width, limit) && |xs| == |ys|
    requires forall i | 0 <= i < |xs| :: key(ys[i]) == key(xs[i]) && at(ys[i]) == at(xs[i])
    ensures Limited(key, at, ys, width, limit)
  {
    forall start ensures CountIn(key, at, ys, start, width) <= limit {
      var inside := y => key(y) && start <= at(y) <= start + width;
      CountAtMost(inside, ys, inside, xs);
      assert CountIn(key, at, xs, start, width) <= limit;
    }
  }
}
