/** `SignRecorder._choose_sign`: the decision that turns two re-scored
    reference tables and the recording buffers into one gesture name. */
module Fusion {
  import opened Frames
  import opened Corpus

  datatype Option<T> = None | Some(value: T)

  /** How many of the best-ranked rows of each table take part (`batch_size`). */
  const DefaultBatchSize: nat := 30

  /** How many per-name means each modality keeps (`.head(4)`). */
  const Keep: nat := 4

  // ---------------------------------------------------------------------
  // Presence scores
  // ---------------------------------------------------------------------

  /** One presence score per modality: `mp_outlier_score`, `ul_outlier_score`. */
  datatype Presence = Presence(camera: real, sensor: real)

  /** The presence scores of a recording of nominal length `n` (`seq_len`).
      When the left hand was absent in all `n` frames of either modality each
      score is the fraction of frames with a right hand; otherwise each score
      weighs both hands half and half. */
  function PresenceScores(mpLh: seq<Frame>, mpRh: seq<Frame>, ulLh: seq<Frame>, ulRh: seq<Frame>, n: nat): (p: Presence)
    requires n > 0
    ensures p.camera <= 1.0 && p.sensor <= 1.0
  {
    var frames := n as real;
    Shares(AbsentCount(mpLh), frames);
    Shares(AbsentCount(mpRh), frames);
    Shares(AbsentCount(ulLh), frames);
    Shares(AbsentCount(ulRh), frames);
    if n == AbsentCount(mpLh) || n == AbsentCount(ulLh) then
      Presence(1.0 - AbsentCount(mpRh) as real / frames,
               1.0 - AbsentCount(ulRh) as real / frames)
    else
      Presence((0.5 - AbsentCount(mpRh) as real / (2.0 * frames)) + (0.5 - AbsentCount(mpLh) as real / (2.0 * frames)),
               (0.5 - AbsentCount(ulRh) as real / (2.0 * frames)) + (0.5 - AbsentCount(ulLh) as real / (2.0 * frames)))
  }

  /** A count over a positive frame total is a non-negative share. */
  lemma Shares(a: nat, frames: real)
    requires frames > 0.0
    ensures a as real / frames >= 0.0 && a as real / (2.0 * frames) >= 0.0
  {
  }

  lemma Fraction(a: nat, n: nat)
    requires 0 < n && a <= n
    ensures 0.0 <= a as real / n as real <= 1.0
    ensures a as real / (2.0 * n as real) == (a as real / n as real) / 2.0
  {
  }

  /** With buffers of at most `n` frames both scores lie in [0, 1]. */
  lemma PresenceInUnitInterval(mpLh: seq<Frame>, mpRh: seq<Frame>, ulLh: seq<Frame>, ulRh: seq<Frame>, n: nat)
    requires n > 0
    requires |mpLh| <= n && |mpRh| <= n && |ulLh| <= n && |ulRh| <= n
    ensures var p := PresenceScores(mpLh, mpRh, ulLh, ulRh, n);
      0.0 <= p.camera <= 1.0 && 0.0 <= p.sensor <= 1.0
  {
    Fraction(AbsentCount(mpLh), n);
    Fraction(AbsentCount(mpRh), n);
    Fraction(AbsentCount(ulLh), n);
    Fraction(AbsentCount(ulRh), n);
  }

  /** A modality that saw neither hand in any of the `n` frames scores 0. */
  lemma PresenceOfSilentModality(mpLh: seq<Frame>, mpRh: seq<Frame>, ulLh: seq<Frame>, ulRh: seq<Frame>, n: nat)
    requires n > 0
    ensures AbsentCount(mpLh) == n && AbsentCount(mpRh) == n ==> PresenceScores(mpLh, mpRh, ulLh, ulRh, n).camera == 0.0
    ensures AbsentCount(ulLh) == n && AbsentCount(ulRh) == n ==> PresenceScores(mpLh, mpRh, ulLh, ulRh, n).sensor == 0.0
  {
    var f := n as real;
    assert f / f == 1.0;
  }

  /** A modality that saw both hands in every frame scores 1. */
  lemma PresenceOfFullModality(mpLh: seq<Frame>, mpRh: seq<Frame>, ulLh: seq<Frame>, ulRh: seq<Frame>, n: nat)
    requires n > 0
    ensures AbsentCount(mpLh) == 0 && AbsentCount(mpRh) == 0 ==> PresenceScores(mpLh, mpRh, ulLh, ulRh, n).camera == 1.0
    ensures AbsentCount(ulLh) == 0 && AbsentCount(ulRh) == 0 ==> PresenceScores(mpLh, mpRh, ulLh, ulRh, n).sensor == 1.0
  {
    var f := n as real;
    assert 0.0 / f == 0.0 && 0.0 / (2.0 * f) == 0.0;
  }

  // ---------------------------------------------------------------------
  // Frequency fast path
  // ---------------------------------------------------------------------

  /** How often `x` occurs among `names` (a `value_counts` entry). */
  function Occurrences(names: seq<string>, x: string): nat {
    multiset(names)[x]
  }

  /** Some candidate with the largest score. */
  function ArgMax<T(==)>(cands: seq<T>, score: T -> real): (best: T)
    requires cands != []
    ensures best in cands
    ensures forall y :: y in cands ==> score(y) <= score(best)
  {
    if |cands| == 1 then cands[0]
    else
      var rest := ArgMax(cands[1..], score);
      if score(cands[0]) >= score(rest) then cands[0] else rest
  }

  /** The names without any occurrence of `x`. */
  function Without(names: seq<string>, x: string): (r: seq<string>)
    ensures forall y :: y in r <==> y in names && y != x
  {
    if names == [] then []
    else (if names[0] == x then [] else [names[0]]) + Without(names[1..], x)
  }

  /** At least two distinct names: without them `highest_two[1]` raises. */
  predicate HasTwoNames(names: seq<string>) {
    |names| > 0 && exists i :: 0 <= i < |names| && names[i] != names[0]
  }

  lemma OtherNameExists(names: seq<string>, x: string)
    requires HasTwoNames(names)
    ensures Without(names, x) != []
  {
    var i :| 0 <= i < |names| && names[i] != names[0];
    if x == names[0] {
      assert names[i] in Without(names, x);
    } else {
      assert names[0] in Without(names, x);
    }
  }

  /** The `value_counts()[:2]` test: the most frequent name, if its count is
      more than 1.5 times the next count and the sensor score is below 0.2. */
  function FastPath(batchNames: seq<string>, sensorPresence: real): (r: Option<string>)
    requires HasTwoNames(batchNames)
    ensures r.Some? ==> r.value in batchNames && sensorPresence < 0.2
  {
    var count := (y: string) => Occurrences(batchNames, y) as real;
    var top := ArgMax(batchNames, count);
    OtherNameExists(batchNames, top);
    var second := ArgMax(Without(batchNames, top), count);
    if count(top) > count(second) * 1.5 && sensorPresence < 0.2 then Some(top) else None
  }

  /** The fast path returns `x` exactly when the sensor score is below 0.2 and
      `x` occurs more than 1.5 times as often as every other name; so the name
      it returns is the unique most frequent one, whatever the tie-break. */
  lemma FastPathDecides(batchNames: seq<string>, sensorPresence: real, x: string)
    requires HasTwoNames(batchNames)
    ensures FastPath(batchNames, sensorPresence) == Some(x) <==>
      sensorPresence < 0.2 && x in batchNames &&
      forall y :: y in batchNames && y != x ==> Occurrences(batchNames, x) as real > Occurrences(batchNames, y) as real * 1.5
  {
    var count := (y: string) => Occurrences(batchNames, y) as real;
    var top := ArgMax(batchNames, count);
    OtherNameExists(batchNames, top);
    var second := ArgMax(Without(batchNames, top), count);
    if sensorPresence < 0.2 && x in batchNames &&
      forall y :: y in batchNames && y != x ==> Occurrences(batchNames, x) as real > Occurrences(batchNames, y) as real * 1.5
    {
      assert count(top) >= count(x);
      assert top == x;
      assert second in batchNames && second != x;
    }
  }

  // ---------------------------------------------------------------------
  // Fallback: per-name means, the four best, reversed min-max scaling
  // ---------------------------------------------------------------------

  /** A name with a number attached: an entry of a pandas Series indexed by name. */
  datatype Scored = Scored(name: string, value: real)

  /** The index of a series. */
  function NamesOf(s: seq<Scored>): (r: seq<string>)
    ensures |r| == |s|
  {
    seq(|s|, i requires 0 <= i < |s| => s[i].name)
  }

  /** The distinct names (the `groupby` keys). They are listed here in order
      of first occurrence, where pandas sorts them. That order can decide
      which of several equal means `head(4)` keeps, and so the value of
      `ChooseSign` on such ties; the lemmas about the fallback are stated
      for every maximiser or under strict hypotheses, so they do not depend
      on it. */
  function GroupNames(names: seq<string>): (g: seq<string>)
    ensures forall x :: x in g <==> x in names
  {
    if names == [] then []
    else
      var g := GroupNames(names[..|names| - 1]);
      var x := names[|names| - 1];
      assert names == names[..|names| - 1] + [x];
      if x in g then g else g + [x]
  }

  /** No name occurs twice. */
  predicate Distinct(names: seq<string>) {
    forall i, j :: 0 <= i < j < |names| ==> names[i] != names[j]
  }

  /** No name is grouped twice. */
  lemma {:induction false} GroupNamesDistinct(names: seq<string>)
    ensures Distinct(GroupNames(names))
  {
    if names != [] {
      var init, x := names[..|names| - 1], names[|names| - 1];
      GroupNamesDistinct(init);
      var g := GroupNames(init);
      if x !in g {
        var h := g + [x];
        forall i, j | 0 <= i < j < |h| ensures h[i] != h[j] {
          assert h[i] == g[i] && g[i] in g;
          if j < |g| {
            assert h[j] == g[j];
          } else {
            assert h[j] == x;
          }
        }
      }
    }
  }

  /** The sum of the distances of the rows named `x`. */
  function DistanceSum(batch: seq<ReferenceEntry>, x: string): (r: real)
    ensures NonNegative(batch) ==> r >= 0.0
    ensures x !in Names(batch) ==> r == 0.0
  {
    if batch == [] then 0.0
    else
      var init := batch[..|batch| - 1];
      assert Names(batch)[|batch| - 1] == batch[|batch| - 1].name;
      assert forall i :: 0 <= i < |init| ==> Names(init)[i] == Names(batch)[i];
      DistanceSum(init, x) + (if batch[|batch| - 1].name == x then batch[|batch| - 1].distance else 0.0)
  }

  /** The mean distance of the rows named `x`. */
  function Mean(batch: seq<ReferenceEntry>, x: string): (r: real)
    requires x in Names(batch)
    ensures NonNegative(batch) ==> r >= 0.0
  {
    DistanceSum(batch, x) / Occurrences(Names(batch), x) as real
  }

  /** `groupby(['name'])['distance'].mean()`: one entry per distinct name,
      holding the mean distance of that name's rows. */
  function GroupMeans(batch: seq<ReferenceEntry>): (m: seq<Scored>)
    ensures forall e :: e in m ==> e.name in Names(batch) && e.value == Mean(batch, e.name)
    ensures forall x :: x in Names(batch) ==> x in NamesOf(m)
  {
    var g := GroupNames(Names(batch));
    var m := seq(|g|, i requires 0 <= i < |g| => Scored(g[i], Mean(batch, g[i])));
    assert forall x :: x in g ==> x in NamesOf(m) by {
      forall x | x in g ensures x in NamesOf(m) {
        var i :| 0 <= i < |g| && g[i] == x;
        assert NamesOf(m)[i] == x;
      }
    }
    m
  }

  /** The group means have one entry per name: no name appears twice. */
  lemma GroupMeansDistinct(batch: seq<ReferenceEntry>)
    ensures Distinct(NamesOf(GroupMeans(batch)))
  {
    var g := GroupNames(Names(batch));
    GroupNamesDistinct(Names(batch));
    var m := GroupMeans(batch);
    assert NamesOf(m) == g;
  }

  /** Ascending by value: every entry is no larger than the next one. */
  predicate SortedByValue(s: seq<Scored>) {
    |s| <= 1 || (s[0].value <= s[1].value && SortedByValue(s[1..]))
  }

  /** In an ascending sequence an earlier entry is no larger than a later one. */
  lemma {:induction false} SortedPair(s: seq<Scored>, i: nat, j: nat)
    requires SortedByValue(s) && i <= j < |s|
    ensures s[i].value <= s[j].value
  {
    if 0 < i {
      SortedPair(s[1..], i - 1, j - 1);
    } else if 0 < j {
      SortedPair(s[1..], 0, j - 1);
    }
  }

  /** A prefix of an ascending sequence is ascending. */
  lemma {:induction false} SortedPrefix(s: seq<Scored>, n: nat)
    requires SortedByValue(s) && n <= |s|
    ensures SortedByValue(s[..n])
  {
    if 2 <= n {
      SortedPrefix(s[1..], n - 1);
      assert s[..n][1..] == s[1..][..n - 1];
    }
  }

  function Insert(x: Scored, s: seq<Scored>): (r: seq<Scored>)
    requires SortedByValue(s)
    ensures SortedByValue(r)
    ensures multiset(r) == multiset(s) + multiset{x}
    ensures r[0] == x || (s != [] && r[0] == s[0])
  {
    if s == [] || x.value <= s[0].value then
      assert ([x] + s)[1..] == s;
      [x] + s
    else
      assert s == [s[0]] + s[1..];
      var t := Insert(x, s[1..]);
      assert ([s[0]] + t)[1..] == t;
      [s[0]] + t
  }

  /** `sort_values()`: the same entries, ascending by value. */
  function SortByValue(s: seq<Scored>): (r: seq<Scored>)
    ensures SortedByValue(r)
    ensures multiset(r) == multiset(s)
  {
    if s == [] then []
    else
      assert s == [s[0]] + s[1..];
      Insert(s[0], SortByValue(s[1..]))
  }

  /** `sort_values().head(k)`: `k` entries (all, if there are fewer), taken
      from the means. */
  function Lowest(means: seq<Scored>, k: nat): (kept: seq<Scored>)
    ensures |kept| == if k <= |means| then k else |means|
    ensures multiset(kept) <= multiset(means)
  {
    var sorted := SortByValue(means);
    assert |multiset(sorted)| == |sorted|;
    var n := if k <= |sorted| then k else |sorted|;
    LowestPrefix(sorted, n);
    sorted[..n]
  }

  /** `Lowest` keeps its entries in ascending order. */
  lemma LowestSorted(means: seq<Scored>, k: nat)
    ensures SortedByValue(Lowest(means, k))
  {
    var sorted := SortByValue(means);
    var n := if k <= |sorted| then k else |sorted|;
    SortedPrefix(sorted, n);
  }

  /** No entry left out by `Lowest` is smaller than an entry it keeps. */
  lemma LowestKeepsSmallest(means: seq<Scored>, k: nat)
    ensures var kept := Lowest(means, k);
      forall a, b :: a in kept && b in multiset(means) - multiset(kept) ==> a.value <= b.value
  {
    var sorted := SortByValue(means);
    var n := if k <= |sorted| then k else |sorted|;
    LowestPrefix(sorted, n);
  }

  lemma {:induction false} LowestPrefix(sorted: seq<Scored>, n: nat)
    requires SortedByValue(sorted) && n <= |sorted|
    ensures multiset(sorted[..n]) <= multiset(sorted)
    ensures forall a, b :: a in sorted[..n] && b in multiset(sorted) - multiset(sorted[..n]) ==> a.value <= b.value
  {
    assert sorted == sorted[..n] + sorted[n..];
    assert multiset(sorted) == multiset(sorted[..n]) + multiset(sorted[n..]);
    forall a, b | a in sorted[..n] && b in multiset(sorted) - multiset(sorted[..n])
      ensures a.value <= b.value
    {
      assert b in sorted[n..];
      var i :| 0 <= i < n && sorted[i] == a;
      var j :| n <= j < |sorted| && sorted[j] == b;
      SortedPair(sorted, i, j);
    }
  }

  function MinValue(s: seq<Scored>): (m: real)
    requires s != []
    ensures exists i :: 0 <= i < |s| && s[i].value == m
    ensures forall i :: 0 <= i < |s| ==> m <= s[i].value
  {
    if |s| == 1 then s[0].value
    else
      var r := MinValue(s[1..]);
      if s[0].value <= r then s[0].value else r
  }

  function MaxValue(s: seq<Scored>): (m: real)
    requires s != []
    ensures exists i :: 0 <= i < |s| && s[i].value == m
    ensures forall i :: 0 <= i < |s| ==> s[i].value <= m
  {
    if |s| == 1 then s[0].value
    else
      var r := MaxValue(s[1..]);
      if s[0].value >= r then s[0].value else r
  }

  /** `(max - v) / (max - min)`. */
  function Rescaled(hi: real, lo: real, v: real): real
    requires lo < hi
  {
    (hi - v) / (hi - lo)
  }

  /** For `lo <= v, w <= hi` and `lo < hi`: where a value lands after rescaling. */
  lemma Rescale(hi: real, lo: real, v: real, w: real)
    requires lo < hi && lo <= v <= hi && lo <= w <= hi
    ensures 0.0 <= Rescaled(hi, lo, v) <= 1.0
    ensures Rescaled(hi, lo, v) == 1.0 <==> v == lo
    ensures Rescaled(hi, lo, v) == 0.0 <==> v == hi
    ensures v < w <==> Rescaled(hi, lo, w) < Rescaled(hi, lo, v)
  {
    var d := hi - lo;
    var a, b := Rescaled(hi, lo, v), Rescaled(hi, lo, w);
    assert a * d == hi - v;
    assert b * d == hi - w;
    assert (a - b) * d == a * d - b * d;
    assert (a - b) * d == w - v;
    if v < w {
      assert (a - b) * d > 0.0;
      PositiveFactor(a - b, d);
    }
    if b < a {
      PositiveProduct(a - b, d);
    }
  }

  lemma PositiveProduct(x: real, y: real)
    requires x > 0.0 && y > 0.0
    ensures x * y > 0.0
  {
  }

  lemma PositiveFactor(x: real, y: real)
    requires x * y > 0.0 && y > 0.0
    ensures x > 0.0
  {
  }

  /** Every value of `s` rescaled with bounds that enclose its values: the
      names are kept, every value lands in [0, 1], exactly the values at `lo`
      become 1 and exactly those at `hi` become 0, and the order is reversed. */
  function RescaleSeq(s: seq<Scored>, hi: real, lo: real): (r: seq<Scored>)
    requires lo < hi && forall i :: 0 <= i < |s| ==> lo <= s[i].value <= hi
    ensures |r| == |s|
    ensures forall i :: 0 <= i < |s| ==> r[i] == Scored(s[i].name, Rescaled(hi, lo, s[i].value))
    ensures forall i :: 0 <= i < |s| ==> r[i].name == s[i].name && 0.0 <= r[i].value <= 1.0
    ensures forall i :: 0 <= i < |s| ==> (r[i].value == 1.0 <==> s[i].value == lo)
    ensures forall i :: 0 <= i < |s| ==> (r[i].value == 0.0 <==> s[i].value == hi)
    ensures forall i, j :: 0 <= i < |s| && 0 <= j < |s| ==> (s[i].value < s[j].value <==> r[j].value < r[i].value)
  {
    var r := seq(|s|, i requires 0 <= i < |s| => Scored(s[i].name, Rescaled(hi, lo, s[i].value)));
    RescaleAll(s, hi, lo, r);
    r
  }

  /** Reversed min-max normalisation. An empty series stays empty; equal
      values (max == min) are outside its domain (the source divides by 0). */
  function Normalise(s: seq<Scored>): (r: seq<Scored>)
    requires s == [] || MinValue(s) < MaxValue(s)
    ensures NamesOf(r) == NamesOf(s)
  {
    if s == [] then []
    else
      var r := RescaleSeq(s, MaxValue(s), MinValue(s));
      assert forall i :: 0 <= i < |s| ==> NamesOf(r)[i] == NamesOf(s)[i];
      r
  }

  /** What `Normalise` does to each value: the smallest maps to 1, the largest
      to 0, everything into [0, 1], and the order is reversed. */
  lemma NormaliseValues(s: seq<Scored>)
    requires s != [] && MinValue(s) < MaxValue(s)
    ensures var r := Normalise(s);
      |r| == |s| &&
      (forall i :: 0 <= i < |s| ==> r[i].name == s[i].name && 0.0 <= r[i].value <= 1.0) &&
      (forall i :: 0 <= i < |s| ==> (r[i].value == 1.0 <==> s[i].value == MinValue(s))) &&
      (forall i :: 0 <= i < |s| ==> (r[i].value == 0.0 <==> s[i].value == MaxValue(s))) &&
      (forall i, j :: 0 <= i < |s| && 0 <= j < |s| ==> (s[i].value < s[j].value <==> r[j].value < r[i].value))
  {
    var hi, lo := MaxValue(s), MinValue(s);
    RescaleAll(s, hi, lo, Normalise(s));
  }

  lemma RescaleAll(s: seq<Scored>, hi: real, lo: real, r: seq<Scored>)
    requires lo < hi && forall i :: 0 <= i < |s| ==> lo <= s[i].value <= hi
    requires |r| == |s| && forall i :: 0 <= i < |s| ==> r[i] == Scored(s[i].name, Rescaled(hi, lo, s[i].value))
    ensures forall i :: 0 <= i < |s| ==> r[i].name == s[i].name && 0.0 <= r[i].value <= 1.0
    ensures forall i :: 0 <= i < |s| ==> (r[i].value == 1.0 <==> s[i].value == lo)
    ensures forall i :: 0 <= i < |s| ==> (r[i].value == 0.0 <==> s[i].value == hi)
    ensures forall i, j :: 0 <= i < |s| && 0 <= j < |s| ==> (s[i].value < s[j].value <==> r[j].value < r[i].value)
  {
    forall i | 0 <= i < |s|
      ensures r[i].name == s[i].name
      ensures 0.0 <= r[i].value <= 1.0
      ensures r[i].value == 1.0 <==> s[i].value == lo
      ensures r[i].value == 0.0 <==> s[i].value == hi
    {
      Rescale(hi, lo, s[i].value, s[i].value);
    }
    forall i, j | 0 <= i < |s| && 0 <= j < |s|
      ensures s[i].value < s[j].value <==> r[j].value < r[i].value
    {
      Rescale(hi, lo, s[i].value, s[j].value);
    }
  }

  /** The value a series holds for `x`, or 0 when `x` is not in its index
      (the `fill_value=0` of `add`). */
  function ScoreOf(s: seq<Scored>, x: string): (v: real)
    ensures x !in NamesOf(s) ==> v == 0.0
    ensures x in NamesOf(s) ==> exists i :: 0 <= i < |s| && s[i].name == x && s[i].value == v
  {
    if s == [] then 0.0
    else if s[0].name == x then
      assert NamesOf(s)[0] == x;
      s[0].value
    else
      assert NamesOf(s) == [s[0].name] + NamesOf(s[1..]);
      var v := ScoreOf(s[1..], x);
      assert x in NamesOf(s[1..]) ==> exists i :: 1 <= i < |s| && s[i].name == x && s[i].value == v;
      v
  }

  /** The four lowest per-name means of a batch. */
  function Kept(batch: seq<ReferenceEntry>): (k: seq<Scored>)
    ensures |k| <= Keep
  {
    Lowest(GroupMeans(batch), Keep)
  }

  /** The four lowest means can be rescaled: the source divides by
      `max - min`, which is 0 when they are all equal (a NaN result). */
  predicate Normalisable(batch: seq<ReferenceEntry>) {
    var kept := Kept(batch);
    kept == [] || MinValue(kept) < MaxValue(kept)
  }

  /** One modality's rescaled scores, before weighting. */
  function Ranked(batch: seq<ReferenceEntry>): (r: seq<Scored>)
    requires Normalisable(batch)
    ensures NamesOf(r) == NamesOf(Kept(batch))
  {
    Normalise(Kept(batch))
  }

  /** `MP_means.multiply(pc).add(UL_means.multiply(ps), fill_value=0)[y]`:
      each series' value for `y` times its weight; a series without `y`
      contributes 0, which is also what its `ScoreOf` times the weight is. */
  function Fused(mp: seq<Scored>, ul: seq<Scored>, pc: real, ps: real, y: string): (v: real)
    ensures y !in NamesOf(mp) && y !in NamesOf(ul) ==> v == 0.0
  {
    ScoreOf(mp, y) * pc + ScoreOf(ul, y) * ps
  }

  /** `.idxmax()` of the fused series, whose index is the names of both
      series: a name of either with the largest fused value. */
  function FusedArgMax(mp: seq<Scored>, ul: seq<Scored>, pc: real, ps: real): (r: string)
    requires mp != []
    ensures r in NamesOf(mp) + NamesOf(ul)
    ensures forall y :: y in NamesOf(mp) + NamesOf(ul) ==> Fused(mp, ul, pc, ps, y) <= Fused(mp, ul, pc, ps, r)
  {
    ArgMax(NamesOf(mp) + NamesOf(ul), y => Fused(mp, ul, pc, ps, y))
  }

  /** A name of either series whose fused value beats every other name's is
      the one `idxmax` returns. */
  lemma FusedArgMaxUnique(mp: seq<Scored>, ul: seq<Scored>, pc: real, ps: real, x: string)
    requires mp != [] && x in NamesOf(mp) + NamesOf(ul)
    requires forall y :: y != x ==> Fused(mp, ul, pc, ps, y) < Fused(mp, ul, pc, ps, x)
    ensures FusedArgMax(mp, ul, pc, ps) == x
  {
  }

  /** Scores below 1 weigh less than scores of 1, under positive weights. */
  lemma WeightedSumBelow(pc: real, ps: real, a: real, b: real, c: real, d: real)
    requires pc > 0.0 && ps > 0.0 && a < 1.0 && b < 1.0 && c == 1.0 && d == 1.0
    ensures a * pc + b * ps < c * pc + d * ps
  {
    assert a * pc < pc;
    assert b * ps < ps;
  }

  /** With the second weight 0, a first score below 1 weighs less than a first score of 1. */
  lemma WeightedSumSilent(pc: real, ps: real, a: real, b: real, c: real, d: real)
    requires pc > 0.0 && ps == 0.0 && a < 1.0 && c == 1.0
    ensures a * pc + b * ps < c * pc + d * ps
  {
    assert a * pc < pc;
    assert b * ps == 0.0 && d * ps == 0.0;
  }

  lemma KeptNonEmpty(batch: seq<ReferenceEntry>)
    requires batch != []
    ensures Kept(batch) != []
  {
    assert Names(batch)[0] in Names(batch);
    assert GroupMeans(batch) != [];
  }

  /** The fallback path: the fused maximum of the two modalities' rescaled
      four best, each multiplied by its presence score; a name of one of the
      two batches. */
  function Fallback(mpBatch: seq<ReferenceEntry>, ulBatch: seq<ReferenceEntry>, p: Presence): (r: string)
    requires mpBatch != [] && Normalisable(mpBatch) && Normalisable(ulBatch)
    ensures r in Names(mpBatch) || r in Names(ulBatch)
    ensures r in NamesOf(Kept(mpBatch)) + NamesOf(Kept(ulBatch))
    ensures forall y :: y in NamesOf(Kept(mpBatch)) + NamesOf(Kept(ulBatch)) ==>
      Fused(Ranked(mpBatch), Ranked(ulBatch), p.camera, p.sensor, y) <= Fused(Ranked(mpBatch), Ranked(ulBatch), p.camera, p.sensor, r)
  {
    KeptNonEmpty(mpBatch);
    RankedNames(mpBatch);
    RankedNames(ulBatch);
    var mp, ul := Ranked(mpBatch), Ranked(ulBatch);
    assert |mp| == |NamesOf(mp)| == |NamesOf(Kept(mpBatch))|;
    var r := FusedArgMax(mp, ul, p.camera, p.sensor);
    CandidatesAreBatchNames(mpBatch, ulBatch, r);
    r
  }

  /** Two series that both score `x` 1 and every other name below 1: with
      positive weights `x` has the largest fused value, strictly, and so it is
      the fused maximum. */
  lemma {:induction false} FusedAgreement(mp: seq<Scored>, ul: seq<Scored>, pc: real, ps: real, x: string)
    requires x in NamesOf(mp) && pc > 0.0 && ps > 0.0
    requires ScoreOf(mp, x) == 1.0 && ScoreOf(ul, x) == 1.0
    requires forall y :: y != x ==> ScoreOf(mp, y) < 1.0 && ScoreOf(ul, y) < 1.0
    ensures mp != [] && FusedArgMax(mp, ul, pc, ps) == x
  {
    forall y | y != x ensures Fused(mp, ul, pc, ps, y) < Fused(mp, ul, pc, ps, x) {
      WeightedSumBelow(pc, ps, ScoreOf(mp, y), ScoreOf(ul, y), ScoreOf(mp, x), ScoreOf(ul, x));
    }
    FusedArgMaxUnique(mp, ul, pc, ps, x);
  }

  /** With the second weight 0, a name whose fused value is at least that of
      a name scoring 1 in the first series, and which scores at most 1 there,
      scores exactly 1 there. */
  lemma {:induction false} FusedSilentAtLeast(mp: seq<Scored>, ul: seq<Scored>, pc: real, ps: real, z: string, r: string)
    requires pc > 0.0 && ps == 0.0
    requires ScoreOf(mp, z) == 1.0 && ScoreOf(mp, r) <= 1.0
    requires Fused(mp, ul, pc, ps, z) <= Fused(mp, ul, pc, ps, r)
    ensures ScoreOf(mp, r) == 1.0
  {
    if ScoreOf(mp, r) < 1.0 {
      WeightedSumSilent(pc, ps, ScoreOf(mp, r), ScoreOf(ul, r), ScoreOf(mp, z), ScoreOf(ul, z));
      assert false;
    }
  }

  /** With the second weight 0 only the first series counts: when some name
      of it scores 1 and none scores more, the fused maximum is a name of the
      first series scoring 1. */
  lemma {:induction false} FusedSilentSecond(mp: seq<Scored>, ul: seq<Scored>, pc: real, ps: real, z: string)
    requires z in NamesOf(mp) && pc > 0.0 && ps == 0.0
    requires ScoreOf(mp, z) == 1.0
    requires forall y :: ScoreOf(mp, y) <= 1.0
    ensures mp != []
    ensures var r := FusedArgMax(mp, ul, pc, ps);
      r in NamesOf(mp) && ScoreOf(mp, r) == 1.0
  {
    var r := FusedArgMax(mp, ul, pc, ps);
    assert z in NamesOf(mp) + NamesOf(ul);
    FusedSilentAtLeast(mp, ul, pc, ps, z, r);
  }

  /** With the first weight 0, a second score below 1 weighs less than a second score of 1. */
  lemma WeightedSumFirstSilent(pc: real, ps: real, a: real, b: real, c: real, d: real)
    requires pc == 0.0 && ps > 0.0 && b < 1.0 && d == 1.0
    ensures a * pc + b * ps < c * pc + d * ps
  {
    assert b * ps < ps;
    assert a * pc == 0.0 && c * pc == 0.0;
  }

  /** With the first weight 0, a name whose fused value is at least that of
      a name scoring 1 in the second series, and which scores at most 1 there,
      scores exactly 1 there. */
  lemma {:induction false} FusedFirstSilentAtLeast(mp: seq<Scored>, ul: seq<Scored>, pc: real, ps: real, z: string, r: string)
    requires pc == 0.0 && ps > 0.0
    requires ScoreOf(ul, z) == 1.0 && ScoreOf(ul, r) <= 1.0
    requires Fused(mp, ul, pc, ps, z) <= Fused(mp, ul, pc, ps, r)
    ensures ScoreOf(ul, r) == 1.0
  {
    if ScoreOf(ul, r) < 1.0 {
      WeightedSumFirstSilent(pc, ps, ScoreOf(mp, r), ScoreOf(ul, r), ScoreOf(mp, z), ScoreOf(ul, z));
      assert false;
    }
  }

  /** With the first weight 0 only the second series counts: when some name
      of it scores 1 and none scores more, the fused maximum is a name of the
      second series scoring 1. */
  lemma {:induction false} FusedSilentFirst(mp: seq<Scored>, ul: seq<Scored>, pc: real, ps: real, z: string)
    requires mp != [] && z in NamesOf(ul) && pc == 0.0 && ps > 0.0
    requires ScoreOf(ul, z) == 1.0
    requires forall y :: ScoreOf(ul, y) <= 1.0
    ensures var r := FusedArgMax(mp, ul, pc, ps);
      r in NamesOf(ul) && ScoreOf(ul, r) == 1.0
  {
    var r := FusedArgMax(mp, ul, pc, ps);
    assert z in NamesOf(mp) + NamesOf(ul);
    FusedFirstSilentAtLeast(mp, ul, pc, ps, z, r);
  }

  // ---------------------------------------------------------------------
  // Facts about the kept means
  // ---------------------------------------------------------------------

  /** The first of the lowest `k` entries is no larger than any entry. */
  lemma LowestHead(means: seq<Scored>, k: nat, e: Scored)
    requires k > 0 && e in means
    ensures Lowest(means, k) != [] && Lowest(means, k)[0].value <= e.value
  {
    var kept := Lowest(means, k);
    LowestKeepsSmallest(means, k);
    assert kept[0] in kept;
    if e in kept {
      var j :| 0 <= j < |kept| && kept[j] == e;
      LowestSorted(means, k);
      SortedPair(kept, 0, j);
    } else {
      assert e in multiset(means) - multiset(kept);
    }
  }

  /** The first kept mean is the smallest mean of the whole batch. */
  lemma KeptHeadIsLowest(batch: seq<ReferenceEntry>, y: string)
    requires y in Names(batch)
    ensures Kept(batch) != [] && Kept(batch)[0].value <= Mean(batch, y)
  {
    var means := GroupMeans(batch);
    var i :| 0 <= i < |means| && NamesOf(means)[i] == y;
    assert means[i] in means;
    LowestHead(means, Keep, means[i]);
  }

  /** Every kept entry holds its name's mean. */
  lemma KeptAreMeans(batch: seq<ReferenceEntry>, e: Scored)
    requires e in Kept(batch)
    ensures e.name in Names(batch) && e.value == Mean(batch, e.name)
  {
    assert e in multiset(Kept(batch));
    assert e in multiset(GroupMeans(batch));
  }

  /** `x` is a name of the batch and no name has a lower mean distance. */
  predicate IsLowestMean(batch: seq<ReferenceEntry>, x: string) {
    x in Names(batch) && forall y :: y in Names(batch) ==> Mean(batch, x) <= Mean(batch, y)
  }

  /** `x` is a name of the batch whose mean distance is below every other name's. */
  predicate StrictlyLowest(batch: seq<ReferenceEntry>, x: string) {
    x in Names(batch) && forall y :: y in Names(batch) && y != x ==> Mean(batch, x) < Mean(batch, y)
  }

  /** The first kept entry is the smallest kept value, and its name has the
      lowest mean in the batch. */
  lemma KeptHead(batch: seq<ReferenceEntry>)
    requires batch != []
    ensures Kept(batch) != [] && MinValue(Kept(batch)) == Kept(batch)[0].value
    ensures IsLowestMean(batch, Kept(batch)[0].name)
    ensures Kept(batch)[0].value == Mean(batch, Kept(batch)[0].name)
  {
    KeptNonEmpty(batch);
    var kept := Kept(batch);
    assert kept[0] in kept;
    KeptAreMeans(batch, kept[0]);
    var k :| 0 <= k < |kept| && kept[k].value == MinValue(kept);
    LowestSorted(GroupMeans(batch), Keep);
    SortedPair(kept, 0, k);
    forall y | y in Names(batch) ensures kept[0].value <= Mean(batch, y) {
      KeptHeadIsLowest(batch, y);
    }
  }

  /** A kept name scores at most 1 after rescaling, and exactly 1 when its
      mean is the lowest of the batch. */
  lemma RankedOne(batch: seq<ReferenceEntry>, x: string)
    requires batch != [] && Normalisable(batch) && x in NamesOf(Kept(batch))
    ensures ScoreOf(Ranked(batch), x) <= 1.0
    ensures ScoreOf(Ranked(batch), x) == 1.0 <==> IsLowestMean(batch, x)
  {
    KeptHead(batch);
    var kept, ranked := Kept(batch), Ranked(batch);
    NormaliseValues(kept);
    RankedNames(batch);
    var i :| 0 <= i < |ranked| && ranked[i].name == x && ranked[i].value == ScoreOf(ranked, x);
    assert kept[i] in kept;
    KeptAreMeans(batch, kept[i]);
    assert ranked[i].value == 1.0 <==> Mean(batch, x) == kept[0].value;
    if IsLowestMean(batch, x) {
      assert Mean(batch, x) <= Mean(batch, kept[0].name);
    }
  }

  /** A name whose mean is strictly the lowest is kept and scores 1; every
      other name scores less than 1. */
  lemma RankedStrictLowest(batch: seq<ReferenceEntry>, x: string)
    requires Normalisable(batch) && StrictlyLowest(batch, x)
    ensures x in NamesOf(Kept(batch))
    ensures ScoreOf(Ranked(batch), x) == 1.0
    ensures forall y :: y != x ==> ScoreOf(Ranked(batch), y) < 1.0
  {
    KeptHead(batch);
    var kept := Kept(batch);
    if kept[0].name != x {
      assert false;
    }
    assert NamesOf(kept)[0] == x;
    RankedOne(batch, x);
    RankedNames(batch);
    forall y | y != x ensures ScoreOf(Ranked(batch), y) < 1.0 {
      if y in NamesOf(kept) {
        RankedOne(batch, y);
        if ScoreOf(Ranked(batch), y) == 1.0 {
          assert false;
        }
      }
    }
  }

  /** When one name has strictly the lowest mean in both modalities and both
      presence scores are positive, the fallback returns that name. */
  lemma FallbackAgreement(mpBatch: seq<ReferenceEntry>, ulBatch: seq<ReferenceEntry>, p: Presence, x: string)
    requires mpBatch != [] && Normalisable(mpBatch) && Normalisable(ulBatch)
    requires p.camera > 0.0 && p.sensor > 0.0
    requires StrictlyLowest(mpBatch, x) && StrictlyLowest(ulBatch, x)
    ensures Fallback(mpBatch, ulBatch, p) == x
  {
    RankedStrictLowest(mpBatch, x);
    RankedStrictLowest(ulBatch, x);
    RankedNames(mpBatch);
    FusedAgreement(Ranked(mpBatch), Ranked(ulBatch), p.camera, p.sensor, x);
  }

  /** With a sensor presence of 0 the sensor contributes nothing: when the
      camera presence is positive the fallback returns a camera name with the
      lowest mean distance. */
  lemma FallbackFollowsCameraWhenSensorSilent(mpBatch: seq<ReferenceEntry>, ulBatch: seq<ReferenceEntry>, p: Presence)
    requires mpBatch != [] && Normalisable(mpBatch) && Normalisable(ulBatch)
    requires p.camera > 0.0 && p.sensor == 0.0
    ensures IsLowestMean(mpBatch, Fallback(mpBatch, ulBatch, p))
  {
    KeptHead(mpBatch);
    var kept := Kept(mpBatch);
    var z := kept[0].name;
    assert NamesOf(kept)[0] == z;
    RankedOne(mpBatch, z);
    RankedNames(mpBatch);
    forall y ensures ScoreOf(Ranked(mpBatch), y) <= 1.0 {
      if y in NamesOf(kept) {
        RankedOne(mpBatch, y);
      }
    }
    FusedSilentSecond(Ranked(mpBatch), Ranked(ulBatch), p.camera, p.sensor, z);
    RankedOne(mpBatch, Fallback(mpBatch, ulBatch, p));
  }

  /** With a camera presence of 0 the camera contributes nothing: when the
      sensor presence is positive the fallback returns a sensor name with the
      lowest mean distance. */
  lemma FallbackFollowsSensorWhenCameraSilent(mpBatch: seq<ReferenceEntry>, ulBatch: seq<ReferenceEntry>, p: Presence)
    requires mpBatch != [] && ulBatch != [] && Normalisable(mpBatch) && Normalisable(ulBatch)
    requires p.camera == 0.0 && p.sensor > 0.0
    ensures IsLowestMean(ulBatch, Fallback(mpBatch, ulBatch, p))
  {
    KeptNonEmpty(mpBatch);
    RankedNames(mpBatch);
    assert |Ranked(mpBatch)| == |NamesOf(Kept(mpBatch))|;
    KeptHead(ulBatch);
    var kept := Kept(ulBatch);
    var z := kept[0].name;
    assert NamesOf(kept)[0] == z;
    RankedOne(ulBatch, z);
    RankedNames(ulBatch);
    forall y ensures ScoreOf(Ranked(ulBatch), y) <= 1.0 {
      if y in NamesOf(kept) {
        RankedOne(ulBatch, y);
      }
    }
    FusedSilentFirst(Ranked(mpBatch), Ranked(ulBatch), p.camera, p.sensor, z);
    RankedOne(ulBatch, Fallback(mpBatch, ulBatch, p));
  }

  // ---------------------------------------------------------------------
  // The decision
  // ---------------------------------------------------------------------

  /** The inputs on which `_choose_sign` returns a name: `seq_len` is positive
      (it divides by it), the camera batch has two distinct names
      (`highest_two[1]`), and unless the fast path decides, both modalities'
      kept means can be rescaled (a non-empty camera batch among them). */
  predicate Decidable(mpLh: seq<Frame>, mpRh: seq<Frame>, ulLh: seq<Frame>, ulRh: seq<Frame>, n: nat,
                      mpCorpus: seq<ReferenceEntry>, ulCorpus: seq<ReferenceEntry>, batchSize: nat)
  {
    var mpBatch, ulBatch := Batch(mpCorpus, batchSize), Batch(ulCorpus, batchSize);
    n > 0 && HasTwoNames(Names(mpBatch)) &&
    (FastPath(Names(mpBatch), PresenceScores(mpLh, mpRh, ulLh, ulRh, n).sensor).Some? ||
     (Normalisable(mpBatch) && Normalisable(ulBatch)))
  }

  /** `_choose_sign(batch_size)`: the fast path when it decides, the fallback
      otherwise; either way a name from one of the two batches. */
  function ChooseSign(mpLh: seq<Frame>, mpRh: seq<Frame>, ulLh: seq<Frame>, ulRh: seq<Frame>, n: nat,
                      mpCorpus: seq<ReferenceEntry>, ulCorpus: seq<ReferenceEntry>, batchSize: nat): (r: string)
    requires Decidable(mpLh, mpRh, ulLh, ulRh, n, mpCorpus, ulCorpus, batchSize)
    ensures r in Names(Batch(mpCorpus, batchSize)) || r in Names(Batch(ulCorpus, batchSize))
    ensures var f := FastPath(Names(Batch(mpCorpus, batchSize)), PresenceScores(mpLh, mpRh, ulLh, ulRh, n).sensor);
      f.Some? ==> r == f.value
    ensures FastPath(Names(Batch(mpCorpus, batchSize)), PresenceScores(mpLh, mpRh, ulLh, ulRh, n).sensor).None? ==>
      r == Fallback(Batch(mpCorpus, batchSize), Batch(ulCorpus, batchSize), PresenceScores(mpLh, mpRh, ulLh, ulRh, n))
  {
    var mpBatch, ulBatch := Batch(mpCorpus, batchSize), Batch(ulCorpus, batchSize);
    var p := PresenceScores(mpLh, mpRh, ulLh, ulRh, n);
    match FastPath(Names(mpBatch), p.sensor)
    case Some(x) =>
      FastPathDecides(Names(mpBatch), p.sensor, x);
      x
    case None =>
      Fallback(mpBatch, ulBatch, p)
  }

  /** Every name of the two rescaled series is a name of its batch. */
  lemma CandidatesAreBatchNames(mpBatch: seq<ReferenceEntry>, ulBatch: seq<ReferenceEntry>, x: string)
    requires x in NamesOf(Kept(mpBatch)) + NamesOf(Kept(ulBatch))
    ensures x in Names(mpBatch) || x in Names(ulBatch)
  {
    if x in NamesOf(Kept(mpBatch)) {
      KeptNames(mpBatch, x);
    } else {
      KeptNames(ulBatch, x);
    }
  }

  /** Rescaling keeps the index of the kept means. */
  lemma RankedNames(batch: seq<ReferenceEntry>)
    requires Normalisable(batch)
    ensures NamesOf(Ranked(batch)) == NamesOf(Kept(batch))
  {
  }

  /** Every kept name is a name of the batch. */
  lemma KeptNames(batch: seq<ReferenceEntry>, x: string)
    requires x in NamesOf(Kept(batch))
    ensures x in Names(batch)
  {
    var kept := Kept(batch);
    var i :| 0 <= i < |kept| && NamesOf(kept)[i] == x;
    assert kept[i] in kept;
    KeptAreMeans(batch, kept[i]);
  }

  /** A decisive camera vote with an unreliable sensor window: when the sensor
      score is below 0.2 and `x` occurs more than 1.5 times as often as every
      other name in the camera batch, the decision is `x`. */
  lemma ChooseSignFastPath(mpLh: seq<Frame>, mpRh: seq<Frame>, ulLh: seq<Frame>, ulRh: seq<Frame>, n: nat,
                           mpCorpus: seq<ReferenceEntry>, ulCorpus: seq<ReferenceEntry>, batchSize: nat, x: string)
    requires n > 0
    requires var names := Names(Batch(mpCorpus, batchSize));
      x in names && HasTwoNames(names) &&
      forall y :: y in names && y != x ==> Occurrences(names, x) as real > Occurrences(names, y) as real * 1.5
    requires PresenceScores(mpLh, mpRh, ulLh, ulRh, n).sensor < 0.2
    ensures Decidable(mpLh, mpRh, ulLh, ulRh, n, mpCorpus, ulCorpus, batchSize)
    ensures ChooseSign(mpLh, mpRh, ulLh, ulRh, n, mpCorpus, ulCorpus, batchSize) == x
  {
    FastPathDecides(Names(Batch(mpCorpus, batchSize)), PresenceScores(mpLh, mpRh, ulLh, ulRh, n).sensor, x);
  }

  /** When the fast path does not decide and one name has strictly the lowest
      mean distance in both batches, with both presence scores positive, the
      decision is that name. */
  lemma ChooseSignAgreement(mpLh: seq<Frame>, mpRh: seq<Frame>, ulLh: seq<Frame>, ulRh: seq<Frame>, n: nat,
                            mpCorpus: seq<ReferenceEntry>, ulCorpus: seq<ReferenceEntry>, batchSize: nat, x: string)
    requires Decidable(mpLh, mpRh, ulLh, ulRh, n, mpCorpus, ulCorpus, batchSize)
    requires FastPath(Names(Batch(mpCorpus, batchSize)), PresenceScores(mpLh, mpRh, ulLh, ulRh, n).sensor).None?
    requires var p := PresenceScores(mpLh, mpRh, ulLh, ulRh, n); p.camera > 0.0 && p.sensor > 0.0
    requires StrictlyLowest(Batch(mpCorpus, batchSize), x) && StrictlyLowest(Batch(ulCorpus, batchSize), x)
    ensures ChooseSign(mpLh, mpRh, ulLh, ulRh, n, mpCorpus, ulCorpus, batchSize) == x
  {
    FallbackAgreement(Batch(mpCorpus, batchSize), Batch(ulCorpus, batchSize), PresenceScores(mpLh, mpRh, ulLh, ulRh, n), x);
  }

  /** When the sensor recorded neither hand in any frame, the sensor score is
      0; if the fast path does not decide and the camera score is positive, the
      decision is a camera name with the lowest mean distance. */
  lemma ChooseSignWithSilentSensor(mpLh: seq<Frame>, mpRh: seq<Frame>, ulLh: seq<Frame>, ulRh: seq<Frame>, n: nat,
                                   mpCorpus: seq<ReferenceEntry>, ulCorpus: seq<ReferenceEntry>, batchSize: nat)
    requires Decidable(mpLh, mpRh, ulLh, ulRh, n, mpCorpus, ulCorpus, batchSize)
    requires AbsentCount(ulLh) == n && AbsentCount(ulRh) == n
    requires FastPath(Names(Batch(mpCorpus, batchSize)), 0.0).None?
    requires PresenceScores(mpLh, mpRh, ulLh, ulRh, n).camera > 0.0
    ensures var r := ChooseSign(mpLh, mpRh, ulLh, ulRh, n, mpCorpus, ulCorpus, batchSize);
      var mpBatch := Batch(mpCorpus, batchSize);
      r in Names(mpBatch) && forall y :: y in Names(mpBatch) ==> Mean(mpBatch, r) <= Mean(mpBatch, y)
  {
    PresenceOfSilentModality(mpLh, mpRh, ulLh, ulRh, n);
    FallbackFollowsCameraWhenSensorSilent(Batch(mpCorpus, batchSize), Batch(ulCorpus, batchSize), PresenceScores(mpLh, mpRh, ulLh, ulRh, n));
  }

  /** When the camera saw neither hand in any frame, the camera score is 0;
      if the fast path does not decide and the sensor score is positive, the
      decision is a sensor name with the lowest mean distance. */
  lemma ChooseSignWithSilentCamera(mpLh: seq<Frame>, mpRh: seq<Frame>, ulLh: seq<Frame>, ulRh: seq<Frame>, n: nat,
                                   mpCorpus: seq<ReferenceEntry>, ulCorpus: seq<ReferenceEntry>, batchSize: nat)
    requires Decidable(mpLh, mpRh, ulLh, ulRh, n, mpCorpus, ulCorpus, batchSize)
    requires AbsentCount(mpLh) == n && AbsentCount(mpRh) == n
    requires FastPath(Names(Batch(mpCorpus, batchSize)), PresenceScores(mpLh, mpRh, ulLh, ulRh, n).sensor).None?
    requires PresenceScores(mpLh, mpRh, ulLh, ulRh, n).sensor > 0.0
    requires Batch(ulCorpus, batchSize) != []
    ensures var r := ChooseSign(mpLh, mpRh, ulLh, ulRh, n, mpCorpus, ulCorpus, batchSize);
      var ulBatch := Batch(ulCorpus, batchSize);
      r in Names(ulBatch) && forall y :: y in Names(ulBatch) ==> Mean(ulBatch, r) <= Mean(ulBatch, y)
  {
    PresenceOfSilentModality(mpLh, mpRh, ulLh, ulRh, n);
    FallbackFollowsSensorWhenCameraSilent(Batch(mpCorpus, batchSize), Batch(ulCorpus, batchSize), PresenceScores(mpLh, mpRh, ulLh, ulRh, n));
  }
}
