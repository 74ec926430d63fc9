/** Small value types and sequence helpers shared by the ledger model.
    `Option` stands for JavaScript's `undefined`/`null` on optional inputs,
    `Outcome` for the `{ ok, error }` objects the store's actions return. */
module Common {

  datatype Option<+T> = None | Some(value: T) {
    /** `x ?? d` / `x || d` for a value whose only falsy form is "missing". */
    function GetOr(default: T): T {
      match this
      case Some(v) => v
      case None => default
    }
  }

  /** `{ ok: true, … }` or `{ ok: false, error }`. */
  datatype Outcome<+T> = Ok(value: T) | Failed(error: string)

  /** `Array.prototype.filter`: the elements that satisfy `keep`, in order. */
  function Filter<T>(s: seq<T>, keep: T -> bool): (r: seq<T>)
    ensures |r| <= |s|
    ensures forall i :: 0 <= i < |r| ==> keep(r[i])
  {
    if s == [] then [] else (if keep(s[0]) then [s[0]] else []) + Filter(s[1..], keep)
  }

  /** An element is kept exactly when it occurs in the input and passes the test. */
  lemma {:induction false} FilterMembership<T>(s: seq<T>, keep: T -> bool, x: T)
    ensures x in Filter(s, keep) <==> x in s && keep(x)
  {
    if s != [] {
      FilterMembership(s[1..], keep, x);
      assert s == [s[0]] + s[1..];
    }
  }

  /** Filtering a sequence with a given first element. */
  lemma FilterCons<T>(x: T, s: seq<T>, keep: T -> bool)
    ensures Filter([x] + s, keep) == (if keep(x) then [x] else []) + Filter(s, keep)
  {
    assert ([x] + s)[1..] == s;
  }

  /** The kept elements are exactly the input's elements that pass the test. */
  lemma FilterMembers<T>(s: seq<T>, keep: T -> bool)
    ensures forall x :: x in Filter(s, keep) <==> x in s && keep(x)
  {
    forall x ensures x in Filter(s, keep) <==> x in s && keep(x) {
      FilterMembership(s, keep, x);
    }
  }

  /** Filtering by a test `p` and then by a stricter test `q` is filtering by `q`. */
  lemma {:induction false} FilterNarrow<T>(s: seq<T>, p: T -> bool, q: T -> bool)
    requires forall i :: 0 <= i < |s| ==> q(s[i]) ==> p(s[i])
    ensures Filter(Filter(s, p), q) == Filter(s, q)
  {
    if s != [] {
      var x, rest := s[0], s[1..];
      assert s == [x] + rest;
      FilterNarrow(rest, p, q);
      FilterCons(x, rest, p);
      FilterAppend(if p(x) then [x] else [], Filter(rest, p), q);
      FilterCons(x, rest, q);
      FilterCons(x, [], q);
      assert [x] + [] == [x];
    }
  }

  /** Filtering by two tests that no element passes together leaves nothing. */
  lemma FilterDisjoint<T>(s: seq<T>, p: T -> bool, q: T -> bool)
    requires forall i :: 0 <= i < |s| ==> !(p(s[i]) && q(s[i]))
    ensures Filter(Filter(s, p), q) == []
  {
    var r := Filter(s, p);
    forall i | 0 <= i < |r| ensures !q(r[i]) {
      FilterMembership(s, p, r[i]);
      var k :| 0 <= k < |s| && s[k] == r[i];
    }
    FilterNone(r, q);
  }

  /** Filtering distributes over concatenation: the relative order of kept
      elements is that of the input. */
  lemma {:induction false} FilterAppend<T>(a: seq<T>, b: seq<T>, keep: T -> bool)
    ensures Filter(a + b, keep) == Filter(a, keep) + Filter(b, keep)
  {
    if a == [] {
      assert a + b == b;
    } else {
      assert (a + b)[1..] == a[1..] + b;
      FilterAppend(a[1..], b, keep);
    }
  }

  /** A filter that keeps everything changes nothing. */
  lemma {:induction false} FilterAll<T>(s: seq<T>, keep: T -> bool)
    requires forall i :: 0 <= i < |s| ==> keep(s[i])
    ensures Filter(s, keep) == s
  {
    if s != [] {
      FilterAll(s[1..], keep);
    }
  }

  /** A filter that keeps nothing yields the empty sequence. */
  lemma {:induction false} FilterNone<T>(s: seq<T>, keep: T -> bool)
    requires forall i :: 0 <= i < |s| ==> !keep(s[i])
    ensures Filter(s, keep) == []
  {
    if s != [] {
      FilterNone(s[1..], keep);
    }
  }

  /** Filtering twice by the same test is filtering once. */
  lemma {:induction false} FilterIdempotent<T>(s: seq<T>, keep: T -> bool)
    ensures Filter(Filter(s, keep), keep) == Filter(s, keep)
  {
    FilterAll(Filter(s, keep), keep);
  }

  /** `sub` is obtained from `s` by deleting elements: its i-th element sits
      in `s` at position `pos[i]`, and the positions increase. */
  ghost predicate PositionsOf<T>(pos: seq<nat>, sub: seq<T>, s: seq<T>) {
    |pos| == |sub|
    && (forall i :: 0 <= i < |pos| ==> pos[i] < |s| && s[pos[i]] == sub[i])
    && (forall i, j :: 0 <= i < j < |pos| ==> pos[i] < pos[j])
  }

  /** Positions in the tail, moved one place on, are positions in the whole. */
  lemma ShiftPositions<T>(pos: seq<nat>, sub: seq<T>, s: seq<T>) returns (shifted: seq<nat>)
    requires s != [] && PositionsOf(pos, sub, s[1..])
    ensures PositionsOf(shifted, sub, s)
    ensures forall i :: 0 <= i < |shifted| ==> shifted[i] > 0
  {
    shifted := seq(|pos|, i requires 0 <= i < |pos| => pos[i] + 1);
    forall i | 0 <= i < |shifted| ensures s[shifted[i]] == sub[i] {
      assert s[shifted[i]] == s[1..][pos[i]];
    }
  }

  /** Keeping the head adds position 0 in front. */
  lemma ConsPosition<T>(pos: seq<nat>, sub: seq<T>, s: seq<T>)
    requires s != [] && PositionsOf(pos, sub, s)
    requires forall i :: 0 <= i < |pos| ==> pos[i] > 0
    ensures PositionsOf([0] + pos, [s[0]] + sub, s)
  {
    var p, q := [0] + pos, [s[0]] + sub;
    forall i | 0 < i < |p| ensures p[i] < |s| && s[p[i]] == q[i] {
      assert p[i] == pos[i - 1] && q[i] == sub[i - 1];
    }
    forall i, j | 0 <= i < j < |p| ensures p[i] < p[j] {
      assert p[j] == pos[j - 1];
      if i > 0 {
        assert p[i] == pos[i - 1];
      }
    }
  }

  /** The filtered sequence is obtained from the input by deleting elements:
      the i-th kept element sits at a strictly increasing position `pos[i]`. */
  lemma {:induction false} FilterSubsequence<T>(s: seq<T>, keep: T -> bool) returns (pos: seq<nat>)
    ensures PositionsOf(pos, Filter(s, keep), s)
  {
    if s == [] {
      pos := [];
    } else {
      var rest := FilterSubsequence(s[1..], keep);
      var shifted := ShiftPositions(rest, Filter(s[1..], keep), s);
      if keep(s[0]) {
        ConsPosition(shifted, Filter(s[1..], keep), s);
        pos := [0] + shifted;
      } else {
        pos := shifted;
      }
    }
  }

  /** Where the parts of a four-part concatenation sit. */
  lemma Concat4<T>(a: seq<T>, b: seq<T>, c: seq<T>, d: seq<T>)
    ensures var s := a + b + c + d;
      |s| == |a| + |b| + |c| + |d|
      && s[..|a|] == a && s[|a|..|a| + |b|] == b && s[|s| - |d|..] == d
  {
    var s := a + b + c + d;
    assert s == a + (b + (c + d));
    assert s[|a|..] == b + (c + d);
  }

  /** Appending four parts one after another appends their concatenation. */
  lemma AppendFour<T>(s: seq<T>, a: seq<T>, b: seq<T>, c: seq<T>, d: seq<T>)
    ensures s + a + b + c + d == s + (a + b + c + d)
  {
  }

  /** Two parts of which one is empty can trade places. */
  lemma SwapEmpty<T>(a: seq<T>, b: seq<T>, c: seq<T>)
    requires a == [] || b == []
    ensures a + (b + c) == b + (a + c)
  {
    if a == [] {
      assert a + (b + c) == b + c == b + (a + c);
    } else {
      assert a + (b + c) == a + c == b + (a + c);
    }
  }

  /** `xs.find((x) => x.id === id)`: the first element whose id is `id`,
      or nothing when no element has it. */
  function Find<T>(xs: seq<T>, idOf: T -> string, id: string): (r: Option<T>)
    ensures r.Some? <==> exists k :: 0 <= k < |xs| && idOf(xs[k]) == id
    ensures r.Some? ==> idOf(r.value) == id && r.value in xs
    ensures r.Some? ==> exists k :: (0 <= k < |xs| && xs[k] == r.value &&
      forall j :: 0 <= j < k ==> idOf(xs[j]) != id)
  {
    if xs == [] then None
    else if idOf(xs[0]) == id then Some(xs[0])
    else Find(xs[1..], idOf, id)
  }

  /** `s.slice(0, n)`: the first `n` elements, or all of them when there are fewer. */
  function Take<T>(s: seq<T>, n: nat): (r: seq<T>)
    ensures |r| == if n < |s| then n else |s|
    ensures r <= s
  {
    if n < |s| then s[..n] else s
  }
}
