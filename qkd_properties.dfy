/**
 * What one BB84 run guarantees, stated over `QKD.Simulate` and the
 * estimate it draws from the sifted lists.
 */
module QKDProperties {
  import opened QKD

  /** The channel: what Eve forwards, and what the receiver then reads. */
  lemma ChannelState(eveOn: bool, d: Draws, i: nat)
    requires WellFormed(d) && i < N
    ensures var r := Simulate(eveOn, d);
      && (eveOn ==> r.forwardedBases[i] == RandBasis(d.eveBasis[i]))
      && (eveOn && r.forwardedBases[i] == r.senderBases[i] ==> r.forwardedBits[i] == r.senderBits[i])
      && (!eveOn ==> r.forwardedBits[i] == r.senderBits[i] && r.forwardedBases[i] == r.senderBases[i])
      && (r.receiverBases[i] == r.forwardedBases[i] ==> r.receiverBits[i] == r.forwardedBits[i])
      && (r.receiverBases[i] != r.forwardedBases[i] ==> r.receiverBits[i] == RandBit(d.receiverGuess[i]))
  {
  }

  /** Shape of the sifted lists: equal lengths, increasing positions, exactly the agreeing indices. */
  lemma SiftedShape(eveOn: bool, d: Draws)
    requires WellFormed(d)
    ensures var r := Simulate(eveOn, d);
      && |r.receiverBits| == N
      && |r.siftedSender| == |r.siftedReceiver| == |r.matchPositions|
      && StrictlyIncreasing(r.matchPositions)
      && (forall i :: 0 <= i < N ==> (i in r.matchPositions <==> r.senderBases[i] == r.receiverBases[i]))
      && (forall k :: 0 <= k < |r.matchPositions| ==>
            r.matchPositions[k] < N
            && r.siftedSender[k] == r.senderBits[r.matchPositions[k]]
            && r.siftedReceiver[k] == r.receiverBits[r.matchPositions[k]])
  {
  }

  /**
   * A photon whose three bases agree (or that Eve left alone) reaches the
   * receiver with the sender's bit.
   */
  lemma FaithfulWhereBasesAgree(eveOn: bool, d: Draws, i: nat)
    requires WellFormed(d) && i < N
    requires SenderBases(d)[i] == ReceiverBases(d)[i]
    requires eveOn ==> RandBasis(d.eveBasis[i]) == SenderBases(d)[i]
    ensures Simulate(eveOn, d).receiverBits[i] == SenderBits(d)[i]
  {
  }

  /**
   * The only source of sifted errors: Eve, measuring in the basis the sender
   * did not use.
   */
  lemma SiftedErrorMeansEve(eveOn: bool, d: Draws, k: nat)
    requires WellFormed(d)
    requires k < |Simulate(eveOn, d).matchPositions|
    requires Simulate(eveOn, d).siftedSender[k] != Simulate(eveOn, d).siftedReceiver[k]
    ensures var i := Simulate(eveOn, d).matchPositions[k];
      eveOn && RandBasis(d.eveBasis[i]) != SenderBases(d)[i]
  {
    var r := Simulate(eveOn, d);
    var i := r.matchPositions[k];
    if !eveOn || RandBasis(d.eveBasis[i]) == SenderBases(d)[i] {
      FaithfulWhereBasesAgree(eveOn, d, i);
      assert false;
    }
  }

  /** Without an eavesdropper both sifted lists are equal, so nothing is ever detected. */
  lemma NoEveNoErrors(d: Draws)
    requires WellFormed(d)
    ensures var r := Simulate(false, d);
      && r.siftedSender == r.siftedReceiver
      && r.intercepts == []
      && (r.estimate.Estimated? ==>
            r.estimate.sampleErrors == 0 && r.estimate.qber == 0.0 && !r.estimate.detected)
  {
    var r := Simulate(false, d);
    forall k | 0 <= k < |r.siftedSender| ensures r.siftedSender[k] == r.siftedReceiver[k] {
      FaithfulWhereBasesAgree(false, d, r.matchPositions[k]);
    }
    assert r.siftedSender == r.siftedReceiver;
    EqualSiftedNoErrors(r.siftedSender, d.sample);
  }

  /** Identical sifted lists give a sample without errors, QBER 0 and no detection. */
  lemma EqualSiftedNoErrors(a: seq<Bit>, draws: seq<real>)
    requires forall j :: 0 <= j < |draws| ==> 0.0 <= draws[j] < 1.0
    ensures var e := EstimateFrom(a, a, draws);
      e.Estimated? ==> e.sampleErrors == 0 && e.qber == 0.0 && !e.detected
  {
    var e := EstimateFrom(a, a, draws);
    if e.Estimated? {
      var L := |a|;
      var ks := FirstOccurrences(CandidateIndices(draws, L));
      FirstOccurrencesInRange(CandidateIndices(draws, L), L);
      var sample := ks[..SampleSize(L)];
      assert InRange(sample, L);
      assert ErrorCount(a, a, sample) == 0;
      assert e.sampleErrors == ErrorCount(a, a, sample);
    }
  }

  /**
   * What the estimate promises: an early return exactly when nothing is
   * sifted; otherwise a sample of `SampleSize(L)` distinct indices below L
   * (or the draws ran out first), an error count within the sample, the
   * strict threshold test in integers, and a final key of `L - sampleSize`
   * bits that is the sifted list with the sample positions removed, in order.
   */
  lemma EstimateFacts(a: seq<Bit>, b: seq<Bit>, draws: seq<real>)
    requires |a| == |b| && forall j :: 0 <= j < |draws| ==> 0.0 <= draws[j] < 1.0
    ensures var e := EstimateFrom(a, b, draws);
      && (e.NoSiftedBits? <==> |a| == 0)
      && (e.SampleExhausted? ==>
            e.sampleSize == SampleSize(|a|)
            && |FirstOccurrences(CandidateIndices(draws, |a|))| < e.sampleSize)
      && (e.Estimated? ==>
            && 1 <= e.sampleSize <= |a|
            && e.sampleSize == SampleSize(|a|)
            && |e.sampleIndices| == e.sampleSize
            && Distinct(e.sampleIndices) && InRange(e.sampleIndices, |a|)
            && e.sampleErrors <= e.sampleSize
            && 0.0 <= e.qber <= 1.0
            && (e.detected <==> 100 * e.sampleErrors > 15 * e.sampleSize)
            && |e.finalKey| == |a| - e.sampleSize
            && e.finalKey == Select(a, Unsampled(|a|, e.sampleIndices)))
  {
    var L := |a|;
    if L > 0 {
      var size := SampleSize(L);
      var ks := FirstOccurrences(CandidateIndices(draws, L));
      if |ks| >= size {
        FirstOccurrencesInRange(CandidateIndices(draws, L), L);
        var sample := ks[..size];
        assert Distinct(sample) by {
          forall j, k | 0 <= j < k < size ensures sample[j] != sample[k] {
            assert ks[j] != ks[k];
          }
        }
        UnsampledLength(L, sample);
        var errors := ErrorCount(a, b, sample);
        assert EstimateFrom(a, b, draws) == Estimated(size, sample, errors, Qber(errors, size),
          Detected(errors, size), Select(a, Unsampled(L, sample)));
      }
    }
  }

  /** A sample whose every position disagrees is always detected. */
  lemma AllSampledWrongIsDetected(a: seq<Bit>, b: seq<Bit>, draws: seq<real>)
    requires |a| == |b| && forall j :: 0 <= j < |draws| ==> 0.0 <= draws[j] < 1.0
    requires forall k :: 0 <= k < |a| ==> a[k] != b[k]
    ensures EstimateFrom(a, b, draws).Estimated? ==>
      EstimateFrom(a, b, draws).sampleErrors == EstimateFrom(a, b, draws).sampleSize
      && EstimateFrom(a, b, draws).detected
  {
    var e := EstimateFrom(a, b, draws);
    if e.Estimated? {
      EstimateFacts(a, b, draws);
      assert forall k :: 0 <= k < |e.sampleIndices| ==> a[e.sampleIndices[k]] != b[e.sampleIndices[k]];
    }
  }

  // ---------------------------------------------------------------------
  // The sifting in QKD.py, as written
  // ---------------------------------------------------------------------

  /**
   * As written, the source sifts the forwarded state against the receiver:
   * on those positions the receiver always read the forwarded bit, so the two
   * sifted lists agree, there are no sample errors, and no run, with or
   * without Eve, is ever detected.
   */
  lemma AsWrittenNeverDetects(eveOn: bool, d: Draws)
    requires WellFormed(d)
    ensures var e := AsWrittenEstimate(Simulate(eveOn, d), d.sample);
      e.Estimated? ==> e.sampleErrors == 0 && !e.detected
  {
    var r := Simulate(eveOn, d);
    var pos := MatchPositions(r.forwardedBases, r.receiverBases);
    var a, b := Select(r.forwardedBits, pos), Select(r.receiverBits, pos);
    forall k | 0 <= k < |pos| ensures a[k] == b[k] {
      ChannelState(eveOn, d, pos[k]);
    }
    assert a == b;
    var e := EstimateFrom(a, b, d.sample);
    if e.Estimated? {
      EstimateFacts(a, b, d.sample);
    }
  }

  /**
   * Draws under which Eve, always measuring in the wrong basis, corrupts
   * every sifted bit: the sender sends 0 in '+', Eve measures in 'x', the
   * receiver measures in '+' and reads 1; the sample draws pick 0, 1 and 2.
   */
  function WrongBasisEve(): (d: Draws)
    ensures WellFormed(d)
  {
    Draws(seq(N, _ => 0.0), seq(N, _ => 0.0), seq(N, _ => 0.0),
          seq(N, _ => 0.9), seq(N, _ => 0.0), seq(N, _ => 0.9), [0.0, 0.1, 0.2])
  }

  /**
   * With the sender sifting on her own record, an eavesdropper is detected
   * under `WrongBasisEve()`; the source's sifting, on the same draws, never
   * detects her.
   */
  lemma EveDetectedOnlyWhenSiftingOnSenderRecord()
    ensures var d := WrongBasisEve();
      && Simulate(true, d).estimate.Estimated?
      && Simulate(true, d).estimate.detected
      && !(AsWrittenEstimate(Simulate(true, d), d.sample).Estimated?
           && AsWrittenEstimate(Simulate(true, d), d.sample).detected)
  {
    var d := WrongBasisEve();
    var r := Simulate(true, d);
    WrongBasisEveCorruptsAll();
    WrongBasisEveSample();
    EstimateFacts(r.siftedSender, r.siftedReceiver, d.sample);
    assert r.estimate.Estimated?;
    AllSampledWrongIsDetected(r.siftedSender, r.siftedReceiver, d.sample);
    AsWrittenNeverDetects(true, d);
  }

  /** Under `WrongBasisEve()` all ten photons are sifted and every sifted pair disagrees. */
  lemma WrongBasisEveCorruptsAll()
    ensures var r := Simulate(true, WrongBasisEve());
      && |r.siftedSender| == N
      && forall k :: 0 <= k < N ==> r.siftedSender[k] != r.siftedReceiver[k]
  {
    var d := WrongBasisEve();
    var r := Simulate(true, d);
    MatchPositionsFull(r.senderBases, r.receiverBases);
    forall k | 0 <= k < N ensures r.siftedSender[k] != r.siftedReceiver[k] {
      assert r.siftedSender[k] == 0 && r.siftedReceiver[k] == 1;
    }
  }

  /** Under `WrongBasisEve()`, with ten sifted bits, the sample is indices 0, 1 and 2. */
  lemma WrongBasisEveSample()
    ensures var ks := FirstOccurrences(CandidateIndices(WrongBasisEve().sample, N));
      |ks| >= SampleSize(N) == 3
  {
    var s0: seq<nat>, s1: seq<nat>, s2: seq<nat>, s3: seq<nat> := [], [0], [0, 1], [0, 1, 2];
    WrongBasisEveCandidates();
    assert s1[..0] == s0 && s2[..1] == s1 && s3[..2] == s2;
    assert FirstOccurrences(s1) == s1;
    assert FirstOccurrences(s2) == s2;
    assert FirstOccurrences(s3) == s3;
  }

  /** The three sample draws of `WrongBasisEve()` scale to the indices 0, 1 and 2. */
  lemma WrongBasisEveCandidates()
    ensures CandidateIndices(WrongBasisEve().sample, N) == [0, 1, 2]
  {
    var ks := CandidateIndices(WrongBasisEve().sample, N);
    assert WrongBasisEve().sample == [0.0, 0.1, 0.2];
    assert ks[0] == CandidateIndex(0.0, N) == 0;
    assert ks[1] == CandidateIndex(0.1, N) == 1;
    assert ks[2] == CandidateIndex(0.2, N) == 2;
  }

  /** When the bases agree everywhere, every index is a match position, in order. */
  lemma {:induction false} MatchPositionsFull(a: seq<Basis>, b: seq<Basis>)
    requires |a| == |b| && forall i :: 0 <= i < |a| ==> a[i] == b[i]
    ensures MatchPositions(a, b) == Range(|a|)
    decreases |a|
  {
    if |a| > 0 {
      var n := |a| - 1;
      MatchPositionsFull(a[..n], b[..n]);
    }
  }
}
