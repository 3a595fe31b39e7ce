/** The reference corpus: one row per stored gesture instance, with its name,
    its recorded hands and a scratch distance to the latest recording. */
module Corpus {
  import opened Frames

  /** A gesture as two hand sequences (left, right); the instance the recorder
      builds from its buffers and the ones the dataset loader stores. */
  datatype SignModel = SignModel(leftHand: seq<Frame>, rightHand: seq<Frame>)

  /** One row of a reference table: columns `name`, `sign_model`, `distance`. */
  datatype ReferenceEntry = ReferenceEntry(name: string, model: SignModel, distance: real)

  /** The `name` column. */
  function Names(c: seq<ReferenceEntry>): (r: seq<string>)
    ensures |r| == |c|
  {
    seq(|c|, i requires 0 <= i < |c| => c[i].name)
  }

  /** The `name` and `sign_model` columns together: what a re-scoring keeps. */
  function Keys(c: seq<ReferenceEntry>): (r: seq<(string, SignModel)>)
    ensures |r| == |c|
  {
    seq(|c|, i requires 0 <= i < |c| => (c[i].name, c[i].model))
  }

  /** `c.iloc[:size]`: the first `size` rows, or all of them when there are fewer. */
  function Batch(c: seq<ReferenceEntry>, size: nat): (b: seq<ReferenceEntry>)
    ensures |b| == if size <= |c| then size else |c|
    ensures forall i :: 0 <= i < |b| ==> b[i] == c[i]
  {
    if size <= |c| then c[..size] else c
  }

  /** `c["distance"].values[:] = 0`. */
  function ResetDistances(c: seq<ReferenceEntry>): (r: seq<ReferenceEntry>)
    ensures Keys(r) == Keys(c)
    ensures forall i :: 0 <= i < |r| ==> r[i].distance == 0.0
  {
    seq(|c|, i requires 0 <= i < |c| => c[i].(distance := 0.0))
  }

  /** `np.sum(c["distance"].values)`. */
  function TotalDistance(c: seq<ReferenceEntry>): real {
    if c == [] then 0.0 else TotalDistance(c[..|c| - 1]) + c[|c| - 1].distance
  }

  predicate NonNegative(c: seq<ReferenceEntry>) {
    forall i :: 0 <= i < |c| ==> c[i].distance >= 0.0
  }

  predicate SortedByDistance(c: seq<ReferenceEntry>) {
    forall i, j :: 0 <= i < j < |c| ==> c[i].distance <= c[j].distance
  }

  /** After a reset every distance reads 0, and so does their sum. */
  lemma {:induction false} ResetTotalIsZero(c: seq<ReferenceEntry>)
    ensures TotalDistance(ResetDistances(c)) == 0.0
  {
    var r := ResetDistances(c);
    AllZeroTotal(r);
  }

  /** Over non-negative distances the sum is 0 exactly when every distance is 0. */
  lemma {:induction false} TotalZeroIffAllZero(c: seq<ReferenceEntry>)
    requires NonNegative(c)
    ensures TotalDistance(c) == 0.0 <==> forall i :: 0 <= i < |c| ==> c[i].distance == 0.0
  {
    if c != [] {
      var init := c[..|c| - 1];
      assert forall i :: 0 <= i < |init| ==> init[i] == c[i];
      TotalZeroIffAllZero(init);
      TotalNonNegative(init);
    }
  }

  lemma {:induction false} TotalNonNegative(c: seq<ReferenceEntry>)
    requires NonNegative(c)
    ensures TotalDistance(c) >= 0.0
  {
    if c != [] {
      var init := c[..|c| - 1];
      assert forall i :: 0 <= i < |init| ==> init[i] == c[i];
      TotalNonNegative(init);
    }
  }

  lemma {:induction false} AllZeroTotal(c: seq<ReferenceEntry>)
    requires forall i :: 0 <= i < |c| ==> c[i].distance == 0.0
    ensures TotalDistance(c) == 0.0
  {
    if c != [] {
      var init := c[..|c| - 1];
      assert forall i :: 0 <= i < |init| ==> init[i] == c[i];
      AllZeroTotal(init);
    }
  }

  /** What the model assumes of `dtw_distances(recorded, c)`: the same rows
      (name and sign model, in some order), each with a non-negative
      distance, sorted ascending by distance. */
  predicate IsDtwResult(c: seq<ReferenceEntry>, r: seq<ReferenceEntry>) {
    multiset(Keys(r)) == multiset(Keys(c)) && NonNegative(r) && SortedByDistance(r)
  }

  /** `dtw` behaves as `IsDtwResult` says for every recording and every table. */
  ghost predicate DtwContract(dtw: (SignModel, seq<ReferenceEntry>) -> seq<ReferenceEntry>) {
    forall s, c :: IsDtwResult(c, dtw(s, c))
  }

  /** A re-scored table holds exactly the names of the table it scored. */
  lemma DtwKeepsNames(c: seq<ReferenceEntry>, r: seq<ReferenceEntry>, x: string)
    requires IsDtwResult(c, r)
    ensures x in Names(r) <==> x in Names(c)
  {
    if x in Names(r) {
      var i :| 0 <= i < |r| && r[i].name == x;
      assert Keys(r)[i] in multiset(Keys(c));
      var j :| 0 <= j < |c| && Keys(c)[j] == Keys(r)[i];
      assert Names(c)[j] == x;
    }
    if x in Names(c) {
      var j :| 0 <= j < |c| && c[j].name == x;
      assert Keys(c)[j] in multiset(Keys(r));
      var i :| 0 <= i < |r| && Keys(r)[i] == Keys(c)[j];
      assert Names(r)[i] == x;
    }
  }
}
