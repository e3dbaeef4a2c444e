/** Facts about sequences that several modules need: regrouping, and filtering. */
module Sequences {
  lemma Associate<T>(a: seq<T>, b: seq<T>, c: seq<T>)
    ensures a + b + c == a + (b + c)
  {
  }

  lemma Regroup<T>(a: seq<T>, b: seq<T>, c: seq<T>, d: seq<T>)
    ensures a + b + c + d == a + (b + c + d)
  {
    Associate(a, b, c);
    Associate(a, b + c, d);
  }

  lemma Rebracket<T>(a: seq<T>, b: seq<T>, c: seq<T>, d: seq<T>, e: seq<T>)
    ensures a + (b + (c + d + e)) == a + b + c + d + e
  {
    Regroup(b, c, d, e);
    Regroup(a, b, c, d);
    Associate(a, b + c + d, e);
  }

  // ---------------------------------------------------------------- filtering

  function Filter<T>(s: seq<T>, keep: T -> bool): seq<T> {
    if s == [] then []
    else Filter(s[..|s| - 1], keep) + (if keep(s[|s| - 1]) then [s[|s| - 1]] else [])
  }

  /** `part` lists, in order, exactly the elements of `s` at the given positions, which are those to keep. */
  ghost predicate Selects<T>(positions: seq<nat>, s: seq<T>, keep: T -> bool, part: seq<T>) {
    && |positions| == |part|
    && (forall i, j :: 0 <= i < j < |positions| ==> positions[i] < positions[j])
    && (forall i :: 0 <= i < |positions| ==> positions[i] < |s| && part[i] == s[positions[i]])
    && (forall k :: 0 <= k < |s| ==> (k in positions <==> keep(s[k])))
  }

  /** Filtering selects a subsequence: nothing reordered, repeated, or lost. */
  lemma {:induction false} FilterSelects<T>(s: seq<T>, keep: T -> bool) returns (positions: seq<nat>)
    ensures Selects(positions, s, keep, Filter(s, keep))
  {
    positions := [];
    if s != [] {
      var n := |s| - 1;
      var before := FilterSelects(s[..n], keep);
      if keep(s[n]) {
        positions := before + [n];
        SelectsLast(before, s, keep, Filter(s[..n], keep));
      } else {
        positions := before;
        SelectsWithoutLast(before, s, keep, Filter(s[..n], keep));
      }
    }
  }

  lemma SelectsWithoutLast<T>(before: seq<nat>, s: seq<T>, keep: T -> bool, part: seq<T>)
    requires s != [] && !keep(s[|s| - 1]) && Selects(before, s[..|s| - 1], keep, part)
    ensures Selects(before, s, keep, part)
  {
    forall k | 0 <= k < |s| ensures k in before <==> keep(s[k]) {
      if k < |s| - 1 {
        assert s[..|s| - 1][k] == s[k];
      }
    }
  }

  lemma SelectsLast<T>(before: seq<nat>, s: seq<T>, keep: T -> bool, part: seq<T>)
    requires s != [] && keep(s[|s| - 1]) && Selects(before, s[..|s| - 1], keep, part)
    ensures Selects(before + [|s| - 1], s, keep, part + [s[|s| - 1]])
  {
    var n := |s| - 1;
    var positions := before + [n];
    forall k | 0 <= k < |s| ensures k in positions <==> keep(s[k]) {
      if k < n {
        assert s[..n][k] == s[k];
      } else {
        assert positions[|before|] == n;
      }
    }
  }

  lemma {:induction false} FilterSame<T>(s: seq<T>, p: T -> bool, q: T -> bool)
    requires forall i :: 0 <= i < |s| ==> p(s[i]) == q(s[i])
    ensures Filter(s, p) == Filter(s, q)
  {
    if s != [] {
      assert forall i :: 0 <= i < |s| - 1 ==> s[..|s| - 1][i] == s[i];
      FilterSame(s[..|s| - 1], p, q);
    }
  }

  lemma {:induction false} FilterMember<T(!new)>(s: seq<T>, keep: T -> bool, x: T)
    ensures x in Filter(s, keep) <==> x in s && keep(x)
  {
    if s != [] {
      FilterMember(s[..|s| - 1], keep, x);
      assert s == s[..|s| - 1] + [s[|s| - 1]];
    }
  }
}
