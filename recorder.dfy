/** The recording and recognition engine: a tick-driven state machine that,
    once armed, buffers one frame per hand per modality on every tick until
    `seqLen` frames are held, has both reference corpora re-scored on the next
    tick, and then fixes one fused prediction until it is armed again. */
module Recorder {
  import opened Frames
  import opened Corpus
  import opened Fusion

  /** The default recording length in frames. */
  const DefaultSeqLen: nat := 40

  /** What `process_mp_results` hands back: the predicted label (blank when
      there is none yet) and the recording flag, or `Undefined` where the
      decision step raises or yields no label. */
  datatype Tick = Tick(sign: string, recording: bool) | Undefined

  /** The frames of one tick: the camera's left and right hands (what
      `extract_landmarks` makes of the camera result) and the sensor's. */
  datatype Input = Input(mpLeft: Frame, mpRight: Frame, ulLeft: Frame, ulRight: Frame)

  /** The fields of a recorder, as a value. */
  datatype State = State(isRecording: bool, seqLen: nat, predictedSign: string,
                         mpLh: seq<Frame>, mpRh: seq<Frame>, ulLh: seq<Frame>, ulRh: seq<Frame>,
                         mpCorpus: seq<ReferenceEntry>, ulCorpus: seq<ReferenceEntry>)

  type Dtw = (SignModel, seq<ReferenceEntry>) -> seq<ReferenceEntry>

  // ---------------------------------------------------------------------
  // The recorder on values
  // ---------------------------------------------------------------------

  /** The four buffers have one length, at most `seqLen`; while recording
      with room in the buffers the camera distances sum to 0 (they are reset
      on arming and only re-scored once the buffers are full); a prediction is
      only held while not recording and while the camera distances do not sum
      to 0; while not recording the buffers are empty. */
  predicate Invariant(s: State) {
    |s.mpRh| == |s.mpLh| && |s.ulLh| == |s.mpLh| && |s.ulRh| == |s.mpLh| && |s.mpLh| <= s.seqLen &&
    (s.isRecording && |s.mpLh| < s.seqLen ==> TotalDistance(s.mpCorpus) == 0.0) &&
    (s.predictedSign != "" ==> !s.isRecording && TotalDistance(s.mpCorpus) != 0.0) &&
    (!s.isRecording ==> s.mpLh == [] && s.mpRh == [] && s.ulLh == [] && s.ulRh == [])
  }

  /** A new recorder: idle, no prediction, empty buffers. */
  function Initial(mpCorpus: seq<ReferenceEntry>, ulCorpus: seq<ReferenceEntry>, seqLen: nat): (s: State)
    ensures Invariant(s)
  {
    State(false, seqLen, "", [], [], [], [], mpCorpus, ulCorpus)
  }

  /** `record()`: every distance of both corpora reads 0, the prediction is
      cleared and recording starts; the buffers are kept as they are. */
  function Armed(s: State): (r: State)
    ensures r.isRecording && r.predictedSign == "" && r.seqLen == s.seqLen
    ensures r.mpLh == s.mpLh && r.mpRh == s.mpRh && r.ulLh == s.ulLh && r.ulRh == s.ulRh
    ensures r.mpCorpus == ResetDistances(s.mpCorpus) && r.ulCorpus == ResetDistances(s.ulCorpus)
    ensures Keys(r.mpCorpus) == Keys(s.mpCorpus) && Keys(r.ulCorpus) == Keys(s.ulCorpus)
    ensures TotalDistance(r.mpCorpus) == 0.0 && TotalDistance(r.ulCorpus) == 0.0
    ensures Invariant(s) ==> Invariant(r)
  {
    ResetTotalIsZero(s.mpCorpus);
    ResetTotalIsZero(s.ulCorpus);
    s.(mpCorpus := ResetDistances(s.mpCorpus), ulCorpus := ResetDistances(s.ulCorpus),
       predictedSign := "", isRecording := true)
  }

  /** One frame more in each of the four buffers. */
  function Appended(s: State, x: Input): State {
    s.(mpLh := s.mpLh + [x.mpLeft], mpRh := s.mpRh + [x.mpRight],
       ulLh := s.ulLh + [x.ulLeft], ulRh := s.ulRh + [x.ulRight])
  }

  /** `compute_distances()`: both corpora re-scored against the buffered
      recording of their modality. */
  function Rescored(s: State, dtw: Dtw): (r: State)
    ensures DtwContract(dtw) ==> IsDtwResult(s.mpCorpus, r.mpCorpus) && IsDtwResult(s.ulCorpus, r.ulCorpus)
  {
    s.(mpCorpus := dtw(SignModel(s.mpLh, s.mpRh), s.mpCorpus),
       ulCorpus := dtw(SignModel(s.ulLh, s.ulRh), s.ulCorpus))
  }

  /** The first half of `process_mp_results`: while recording, a tick that
      finds room in the buffers appends to them, and one that finds them full
      has the corpora re-scored; an idle tick changes nothing. */
  function Ingest(s: State, x: Input, dtw: Dtw): (r: State)
    ensures r.seqLen == s.seqLen && r.predictedSign == s.predictedSign && r.isRecording == s.isRecording
    ensures !s.isRecording ==> r == s
  {
    if !s.isRecording then s
    else if |s.mpLh| < s.seqLen then Appended(s, x)
    else Rescored(s, dtw)
  }

  /** `_choose_sign` can produce a label on this state's buffers and corpora. */
  predicate Decides(s: State, batchSize: nat) {
    Decidable(s.mpLh, s.mpRh, s.ulLh, s.ulRh, s.seqLen, s.mpCorpus, s.ulCorpus, batchSize)
  }

  /** The label `_choose_sign(batchSize)` gives on this state. */
  function Choice(s: State, batchSize: nat): (sign: string)
    requires Decides(s, batchSize)
    ensures sign in Names(Batch(s.mpCorpus, batchSize)) || sign in Names(Batch(s.ulCorpus, batchSize))
  {
    ChooseSign(s.mpLh, s.mpRh, s.ulLh, s.ulRh, s.seqLen, s.mpCorpus, s.ulCorpus, batchSize)
  }

  /** `_get_sign_predicted(batchSize)`: the chosen label is kept, the buffers
      are emptied and recording stops. */
  function Predicted(s: State, batchSize: nat): (r: State)
    requires Decides(s, batchSize)
    ensures r.predictedSign in Names(Batch(s.mpCorpus, batchSize)) || r.predictedSign in Names(Batch(s.ulCorpus, batchSize))
    ensures r.mpLh == [] && r.mpRh == [] && r.ulLh == [] && r.ulRh == [] && !r.isRecording
    ensures r.seqLen == s.seqLen && r.mpCorpus == s.mpCorpus && r.ulCorpus == s.ulCorpus
  {
    s.(predictedSign := Choice(s, batchSize), mpLh := [], mpRh := [], ulLh := [], ulRh := [],
       isRecording := false)
  }

  /** `process_mp_results(results, lh_landmarks, rh_landmarks)`: the new
      state and what the call returns. */
  function Step(s: State, x: Input, dtw: Dtw): (r: (State, Tick))
    ensures r.0.seqLen == s.seqLen
    ensures r.1.Tick? && r.1.sign != "" ==> TotalDistance(r.0.mpCorpus) != 0.0
  {
    var t := Ingest(s, x, dtw);
    if TotalDistance(t.mpCorpus) == 0.0 then (t, Tick("", t.isRecording))
    else if t.predictedSign != "" then (t, Tick(t.predictedSign, t.isRecording))
    else if Decides(t, DefaultBatchSize) then
      var u := Predicted(t, DefaultBatchSize);
      (u, Tick(u.predictedSign, u.isRecording))
    else (t, Undefined)
  }

  /** A sequence of ticks, one `Step` per input, and what each returned. */
  function Run(s: State, xs: seq<Input>, dtw: Dtw): (r: (State, seq<Tick>))
    ensures |r.1| == |xs|
    decreases |xs|
  {
    if xs == [] then (s, [])
    else
      var step := Step(s, xs[0], dtw);
      var rest := Run(step.0, xs[1..], dtw);
      (rest.0, [step.1] + rest.1)
  }

  /** One of the four buffers: a hand of a modality. */
  datatype Slot = MpLeft | MpRight | UlLeft | UlRight

  function Pick(x: Input, h: Slot): Frame {
    match h
    case MpLeft => x.mpLeft
    case MpRight => x.mpRight
    case UlLeft => x.ulLeft
    case UlRight => x.ulRight
  }

  /** The frames one hand of one modality contributes over a sequence of ticks. */
  function Column(xs: seq<Input>, h: Slot): (r: seq<Frame>)
    ensures |r| == |xs|
    ensures forall i :: 0 <= i < |xs| ==> r[i] == Pick(xs[i], h)
  {
    if xs == [] then [] else [Pick(xs[0], h)] + Column(xs[1..], h)
  }

  // ---------------------------------------------------------------------
  // Properties of a tick
  // ---------------------------------------------------------------------

  /** Every tick keeps the buffers balanced and within `seqLen`, and a
      prediction is only held while idle with a non-zero camera total. */
  lemma StepPreservesInvariant(s: State, x: Input, dtw: Dtw)
    requires Invariant(s)
    ensures Invariant(Step(s, x, dtw).0)
  {
  }

  /** While recording with room in the buffers, a tick appends exactly one
      frame to each of the four buffers, leaves everything else alone and
      returns a blank label with recording on. */
  lemma StepAppends(s: State, x: Input, dtw: Dtw)
    requires Invariant(s) && s.isRecording && |s.mpLh| < s.seqLen
    ensures var (r, t) := Step(s, x, dtw);
      r.mpLh == s.mpLh + [x.mpLeft] && r.mpRh == s.mpRh + [x.mpRight] &&
      r.ulLh == s.ulLh + [x.ulLeft] && r.ulRh == s.ulRh + [x.ulRight] &&
      r.mpCorpus == s.mpCorpus && r.ulCorpus == s.ulCorpus && r.seqLen == s.seqLen &&
      r.isRecording && r.predictedSign == s.predictedSign && t == Tick("", true)
  {
    assert Ingest(s, x, dtw) == Appended(s, x);
  }

  /** An idle tick appends nothing and re-scores nothing: the corpora are
      unchanged, recording stays off, and the buffers are either unchanged or,
      when this tick makes the prediction, all emptied. */
  lemma StepWhenIdle(s: State, x: Input, dtw: Dtw)
    requires !s.isRecording
    ensures var r := Step(s, x, dtw).0;
      r.mpCorpus == s.mpCorpus && r.ulCorpus == s.ulCorpus && !r.isRecording &&
      ((r.mpLh == s.mpLh && r.mpRh == s.mpRh && r.ulLh == s.ulLh && r.ulRh == s.ulRh) ||
       (r.mpLh == [] && r.mpRh == [] && r.ulLh == [] && r.ulRh == []))
    ensures Invariant(s) ==> var r := Step(s, x, dtw).0; r.mpLh == [] && r.mpRh == [] && r.ulLh == [] && r.ulRh == []
  {
  }

  /** When the camera distances sum to 0 after the first half of the tick,
      the call returns a blank label with the current flag and attempts no
      prediction: the new state is the one the first half left (buffers,
      flag and corpora), and the held label is not touched. */
  lemma StepBlankWhileUnscored(s: State, x: Input, dtw: Dtw)
    requires TotalDistance(Ingest(s, x, dtw).mpCorpus) == 0.0
    ensures Step(s, x, dtw) == (Ingest(s, x, dtw), Tick("", Ingest(s, x, dtw).isRecording))
    ensures Step(s, x, dtw).0.predictedSign == s.predictedSign
  {
  }

  /** A held prediction is returned unchanged, with recording off, and the
      tick changes nothing. */
  lemma StepSticky(s: State, x: Input, dtw: Dtw)
    requires Invariant(s) && s.predictedSign != ""
    ensures Step(s, x, dtw) == (s, Tick(s.predictedSign, false))
  {
  }

  /** The tick that finds all `seqLen` frames buffered does the scoring
      instead of appending: both corpora are re-scored (same names and sign
      models, non-negative distances in ascending order), and, unless the
      camera distances come out all zero, a prediction is made on the full
      buffers — the buffers are then emptied, recording stops and the label
      returned is the fused choice, a name from one of the two batches. */
  lemma StepScores(s: State, x: Input, dtw: Dtw)
    requires DtwContract(dtw)
    requires s.isRecording && |s.mpLh| == s.seqLen && s.predictedSign == ""
    ensures var (r, t) := Step(s, x, dtw);
      var scored := Rescored(s, dtw);
      IsDtwResult(s.mpCorpus, r.mpCorpus) && IsDtwResult(s.ulCorpus, r.ulCorpus) &&
      r.mpCorpus == scored.mpCorpus && r.ulCorpus == scored.ulCorpus &&
      ((forall i :: 0 <= i < |r.mpCorpus| ==> r.mpCorpus[i].distance == 0.0) ==> t == Tick("", true) && r == scored) &&
      (TotalDistance(r.mpCorpus) != 0.0 && Decides(scored, DefaultBatchSize) ==>
        t == Tick(Choice(scored, DefaultBatchSize), false) && r.predictedSign == Choice(scored, DefaultBatchSize) &&
        r.mpLh == [] && r.mpRh == [] && r.ulLh == [] && r.ulRh == [] && !r.isRecording) &&
      (TotalDistance(r.mpCorpus) != 0.0 && !Decides(scored, DefaultBatchSize) ==> t == Undefined)
  {
    var scored := Rescored(s, dtw);
    TotalZeroIffAllZero(scored.mpCorpus);
  }

  // ---------------------------------------------------------------------
  // Properties of a run of ticks
  // ---------------------------------------------------------------------

  /** A held prediction survives any number of ticks, each returning it. */
  lemma {:induction false} RunSticky(s: State, xs: seq<Input>, dtw: Dtw)
    requires Invariant(s) && s.predictedSign != ""
    ensures var (r, ts) := Run(s, xs, dtw);
      r == s && forall i :: 0 <= i < |ts| ==> ts[i] == Tick(s.predictedSign, false)
    decreases |xs|
  {
    if xs != [] {
      StepSticky(s, xs[0], dtw);
      RunSticky(s, xs[1..], dtw);
    }
  }

  /** Recording after `record()`: while the buffers have room, every tick
      appends its frames and returns a blank label with recording on, since
      the camera distances still read 0. */
  lemma {:induction false} RunRecording(s: State, xs: seq<Input>, dtw: Dtw)
    requires Invariant(s) && s.isRecording
    requires |s.mpLh| + |xs| <= s.seqLen
    ensures var (r, ts) := Run(s, xs, dtw);
      r == s.(mpLh := s.mpLh + Column(xs, MpLeft), mpRh := s.mpRh + Column(xs, MpRight),
              ulLh := s.ulLh + Column(xs, UlLeft), ulRh := s.ulRh + Column(xs, UlRight)) &&
      forall i :: 0 <= i < |ts| ==> ts[i] == Tick("", true)
    decreases |xs|
  {
    if xs != [] {
      StepAppends(s, xs[0], dtw);
      StepPreservesInvariant(s, xs[0], dtw);
      var t := Step(s, xs[0], dtw).0;
      RunRecording(t, xs[1..], dtw);
      ColumnCons(s.mpLh, xs, MpLeft);
      ColumnCons(s.mpRh, xs, MpRight);
      ColumnCons(s.ulLh, xs, UlLeft);
      ColumnCons(s.ulRh, xs, UlRight);
    }
  }

  /** Appending a first tick's frame and then the rest is appending them all. */
  lemma ColumnCons(b: seq<Frame>, xs: seq<Input>, h: Slot)
    requires xs != []
    ensures (b + [Pick(xs[0], h)]) + Column(xs[1..], h) == b + Column(xs, h)
  {
    assert Column(xs, h) == [Pick(xs[0], h)] + Column(xs[1..], h);
    AppendAssoc(b, [Pick(xs[0], h)], Column(xs[1..], h));
  }

  lemma AppendAssoc<T>(a: seq<T>, b: seq<T>, c: seq<T>)
    ensures (a + b) + c == a + (b + c)
  {
  }

  /** A full recording cycle from `record()` on empty buffers: the first
      `seqLen` ticks buffer exactly their frames, each returning a blank label
      with recording on; it is the tick after them that does the scoring. */
  lemma {:induction false} RecordingCycle(s: State, xs: seq<Input>, dtw: Dtw)
    requires Invariant(s) && s.mpLh == [] && |xs| == s.seqLen
    ensures var (r, ts) := Run(Armed(s), xs, dtw);
      r.isRecording && r.predictedSign == "" && |r.mpLh| == r.seqLen &&
      r.mpLh == Column(xs, MpLeft) && r.mpRh == Column(xs, MpRight) &&
      r.ulLh == Column(xs, UlLeft) && r.ulRh == Column(xs, UlRight) &&
      r.mpCorpus == Armed(s).mpCorpus && r.ulCorpus == Armed(s).ulCorpus &&
      forall i :: 0 <= i < |ts| ==> ts[i] == Tick("", true)
  {
    RunRecording(Armed(s), xs, dtw);
  }

  // ---------------------------------------------------------------------
  // The recorder object
  // ---------------------------------------------------------------------

  /** `SignRecorder`: the object the capture loop drives once per frame. */
  class SignRecorder {
    var isRecording: bool
    var seqLen: nat
    var predictedSign: string
    var recordedMpLh: seq<Frame>
    var recordedMpRh: seq<Frame>
    var recordedUlLh: seq<Frame>
    var recordedUlRh: seq<Frame>
    var referenceSigns: seq<ReferenceEntry>
    var ulReferenceSigns: seq<ReferenceEntry>

    /** The fields as a `State`. */
    function Snapshot(): State
      reads this
    {
      State(isRecording, seqLen, predictedSign, recordedMpLh, recordedMpRh, recordedUlLh, recordedUlRh,
            referenceSigns, ulReferenceSigns)
    }

    ghost predicate Valid()
      reads this
    {
      Invariant(Snapshot())
    }

    constructor (referenceSigns: seq<ReferenceEntry>, ulReferenceSigns: seq<ReferenceEntry>, seqLen: nat := DefaultSeqLen)
      ensures Valid() && Snapshot() == Initial(referenceSigns, ulReferenceSigns, seqLen)
    {
      this.isRecording := false;
      this.seqLen := seqLen;
      this.predictedSign := "";
      this.recordedMpLh := [];
      this.recordedMpRh := [];
      this.recordedUlLh := [];
      this.recordedUlRh := [];
      this.referenceSigns := referenceSigns;
      this.ulReferenceSigns := ulReferenceSigns;
    }

    /** `record()`. */
    method Record()
      requires Valid()
      modifies this
      ensures Valid() && Snapshot() == Armed(old(Snapshot()))
    {
      referenceSigns := ResetDistances(referenceSigns);
      ulReferenceSigns := ResetDistances(ulReferenceSigns);
      predictedSign := "";
      isRecording := true;
      assert Snapshot() == Armed(old(Snapshot()));
    }

    /** `compute_distances()`. */
    method ComputeDistances(dtw: Dtw)
      modifies this
      ensures Snapshot() == Rescored(old(Snapshot()), dtw)
    {
      referenceSigns := dtw(SignModel(recordedMpLh, recordedMpRh), referenceSigns);
      ulReferenceSigns := dtw(SignModel(recordedUlLh, recordedUlRh), ulReferenceSigns);
    }

    /** `_get_sign_predicted(batchSize)`; `ok` is false where `_choose_sign`
        raises or yields no label, and nothing is changed then. */
    method GetSignPredicted(batchSize: nat) returns (ok: bool)
      modifies this
      ensures ok == Decides(old(Snapshot()), batchSize)
      ensures ok ==> Snapshot() == Predicted(old(Snapshot()), batchSize)
      ensures !ok ==> Snapshot() == old(Snapshot())
    {
      ok := Decidable(recordedMpLh, recordedMpRh, recordedUlLh, recordedUlRh, seqLen,
                      referenceSigns, ulReferenceSigns, batchSize);
      if ok {
        predictedSign := ChooseSign(recordedMpLh, recordedMpRh, recordedUlLh, recordedUlRh, seqLen,
                                    referenceSigns, ulReferenceSigns, batchSize);
        recordedMpLh := [];
        recordedMpRh := [];
        recordedUlLh := [];
        recordedUlRh := [];
        isRecording := false;
      }
    }

    /** `process_mp_results(results, lh_landmarks, rh_landmarks)`, with the
        camera's hands already extracted into `x`. */
    method ProcessMpResults(x: Input, dtw: Dtw) returns (t: Tick)
      requires Valid()
      modifies this
      ensures Valid()
      ensures (Snapshot(), t) == Step(old(Snapshot()), x, dtw)
    {
      ghost var s := Snapshot();
      if isRecording {
        if |recordedMpLh| < seqLen {
          recordedMpLh := recordedMpLh + [x.mpLeft];
          recordedMpRh := recordedMpRh + [x.mpRight];
          recordedUlLh := recordedUlLh + [x.ulLeft];
          recordedUlRh := recordedUlRh + [x.ulRight];
        } else {
          ComputeDistances(dtw);
        }
      }
      assert Snapshot() == Ingest(s, x, dtw);
      StepPreservesInvariant(s, x, dtw);
      if TotalDistance(referenceSigns) == 0.0 {
        return Tick("", isRecording);
      }
      if predictedSign == "" {
        var ok := GetSignPredicted(DefaultBatchSize);
        if !ok {
          return Undefined;
        }
      }
      t := Tick(predictedSign, isRecording);
    }
  }
}
