/**
  Splitting a sequence at a separator element and joining groups back with it.

  One concept serves three places of the evaluator: the legacy token list is split
  on the literal tokens "or" and "and", a bare argument list is split on ',' (the
  shape of JavaScript's `String.prototype.split` with a one-character separator),
  and a list of words is joined with ' ' (`Array.prototype.join`).
  Both functions recurse on the LAST element, so that a left-to-right loop can be
  proved against them one step at a time.
*/
module Sequences {

  /** Number of occurrences of `sep` in `xs`. */
  function Count<T(==)>(xs: seq<T>, sep: T): nat
  {
    if |xs| == 0 then 0
    else Count(xs[..|xs| - 1], sep) + (if xs[|xs| - 1] == sep then 1 else 0)
  }

  /** The groups of `xs` between occurrences of `sep`, in order, separators dropped. */
  function SplitOn<T(==)>(xs: seq<T>, sep: T): (r: seq<seq<T>>)
    ensures |r| == Count(xs, sep) + 1
  {
    if |xs| == 0 then [[]]
    else
      var prev := SplitOn(xs[..|xs| - 1], sep);
      var x := xs[|xs| - 1];
      if x == sep then prev + [[]]
      else prev[..|prev| - 1] + [prev[|prev| - 1] + [x]]
  }

  /** The groups concatenated with one `sep` between neighbours; the empty list joins to []. */
  function JoinWith<T>(groups: seq<seq<T>>, sep: T): seq<T>
  {
    if |groups| == 0 then []
    else if |groups| == 1 then groups[0]
    else JoinWith(groups[..|groups| - 1], sep) + [sep] + groups[|groups| - 1]
  }

  /** No group produced by SplitOn contains the separator. */
  lemma {:induction false} SplitOnDropsSeparators<T>(xs: seq<T>, sep: T)
    ensures forall i :: 0 <= i < |SplitOn(xs, sep)| ==> sep !in SplitOn(xs, sep)[i]
  {
    if |xs| > 0 {
      SplitOnDropsSeparators(xs[..|xs| - 1], sep);
    }
  }

  /** Re-joining the groups with the separator gives back the input. */
  lemma {:induction false} JoinSplit<T>(xs: seq<T>, sep: T)
    ensures JoinWith(SplitOn(xs, sep), sep) == xs
  {
    if |xs| > 0 {
      var init, x := xs[..|xs| - 1], xs[|xs| - 1];
      assert xs == init + [x];
      JoinSplit(init, sep);
      JoinSplitStep(init, x, sep);
    }
  }

  /** One step of JoinSplit: the join of the split is extended by the appended element. */
  lemma JoinSplitStep<T>(init: seq<T>, x: T, sep: T)
    requires JoinWith(SplitOn(init, sep), sep) == init
    ensures JoinWith(SplitOn(init + [x], sep), sep) == init + [x]
  {
    var prev := SplitOn(init, sep);
    SplitSnoc(init, x, sep);
    var r := SplitOn(init + [x], sep);
    if x == sep {
      assert r == prev + [[]];
      assert r[..|r| - 1] == prev;
      JoinLast(r, sep);
    } else {
      assert r == prev[..|prev| - 1] + [prev[|prev| - 1] + [x]];
      assert r[..|r| - 1] == prev[..|prev| - 1];
      if |prev| > 1 {
        JoinLast(prev, sep);
        JoinLast(r, sep);
      }
    }
  }

  /** Every element of every group is an element of the input. */
  lemma {:induction false} SplitOnElements<T>(xs: seq<T>, sep: T)
    ensures forall i, j :: 0 <= i < |SplitOn(xs, sep)| && 0 <= j < |SplitOn(xs, sep)[i]| ==> SplitOn(xs, sep)[i][j] in xs
  {
    if |xs| > 0 {
      SplitOnElements(xs[..|xs| - 1], sep);
      assert forall y :: y in xs[..|xs| - 1] ==> y in xs;
    }
  }

  /** Joining, unfolded at the last group, for a list of at least two groups. */
  lemma JoinLast<T>(gs: seq<seq<T>>, sep: T)
    requires |gs| >= 2
    ensures JoinWith(gs, sep) == JoinWith(gs[..|gs| - 1], sep) + [sep] + gs[|gs| - 1]
  {
  }

  /** SplitOn unfolded at an appended element. */
  lemma SplitSnoc<T>(xs: seq<T>, x: T, sep: T)
    ensures var r := SplitOn(xs, sep);
            SplitOn(xs + [x], sep) == if x == sep then r + [[]] else r[..|r| - 1] + [r[|r| - 1] + [x]]
  {
    assert (xs + [x])[..|xs|] == xs;
  }

  /** Growing the last group of a non-empty list twice is growing it once by both. */
  lemma LastGroupGrows<T>(r: seq<seq<T>>, g: seq<T>, x: T)
    requires |r| > 0
    ensures var p := r[..|r| - 1] + [r[|r| - 1] + g];
            p[..|p| - 1] + [p[|p| - 1] + [x]] == r[..|r| - 1] + [r[|r| - 1] + (g + [x])]
  {
    var p := r[..|r| - 1] + [r[|r| - 1] + g];
    assert p[..|p| - 1] == r[..|r| - 1];
    assert p[|p| - 1] + [x] == r[|r| - 1] + (g + [x]);
  }

  /** Appending elements that contain no separator extends the last group only. */
  lemma {:induction false} SplitExtend<T>(xs: seq<T>, g: seq<T>, sep: T)
    requires sep !in g
    ensures SplitOn(xs + g, sep) ==
      SplitOn(xs, sep)[..|SplitOn(xs, sep)| - 1] + [SplitOn(xs, sep)[|SplitOn(xs, sep)| - 1] + g]
  {
    var r := SplitOn(xs, sep);
    if |g| > 0 {
      var g', x := g[..|g| - 1], g[|g| - 1];
      assert xs + g == (xs + g') + [x] by {
        assert g == g' + [x];
      }
      SplitExtend(xs, g', sep);
      var p := SplitOn(xs + g', sep);
      assert p == r[..|r| - 1] + [r[|r| - 1] + g'];
      SplitSnoc(xs + g', x, sep);
      assert x != sep by {
        assert g[|g| - 1] == x;
      }
      LastGroupGrows(r, g', x);
      assert g' + [x] == g;
    } else {
      assert xs + g == xs;
      assert r[|r| - 1] + g == r[|r| - 1];
      assert r[..|r| - 1] + [r[|r| - 1]] == r;
    }
  }

  /** A separator at the end opens a new, empty group. */
  lemma SplitAfterSeparator<T>(xs: seq<T>, sep: T)
    ensures SplitOn(xs + [sep], sep) == SplitOn(xs, sep) + [[]]
  {
    assert (xs + [sep])[..|xs|] == xs;
  }

  /** One step of SplitJoin: a last separator-free group appended after a separator. */
  lemma SplitJoinStep<T>(init: seq<seq<T>>, last: seq<T>, sep: T)
    requires |init| >= 1 && sep !in last
    requires SplitOn(JoinWith(init, sep), sep) == init
    ensures SplitOn(JoinWith(init + [last], sep), sep) == init + [last]
  {
    var gs := init + [last];
    assert gs[..|gs| - 1] == init;
    var j := JoinWith(init, sep) + [sep];
    assert JoinWith(gs, sep) == j + last by {
      JoinLast(gs, sep);
    }
    var sj := SplitOn(j, sep);
    assert sj == init + [[]] by {
      SplitAfterSeparator(JoinWith(init, sep), sep);
    }
    SplitExtend(j, last, sep);
    assert sj[..|sj| - 1] == init;
    assert sj[|sj| - 1] + last == last;
  }

  /** The other direction of the round trip: splitting a join of separator-free groups gives the groups. */
  lemma {:induction false} SplitJoin<T>(gs: seq<seq<T>>, sep: T)
    requires |gs| >= 1
    requires forall i :: 0 <= i < |gs| ==> sep !in gs[i]
    ensures SplitOn(JoinWith(gs, sep), sep) == gs
  {
    if |gs| == 1 {
      SplitExtend([], gs[0], sep);
      assert [] + gs[0] == gs[0];
    } else {
      var init, last := gs[..|gs| - 1], gs[|gs| - 1];
      assert gs == init + [last];
      SplitJoin(init, sep);
      SplitJoinStep(init, last, sep);
    }
  }
}
