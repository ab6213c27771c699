/**
 * The BB84 pipeline of `run_simulation` in QKD.py: the sender's random bits
 * and bases, optional intercept-resend eavesdropping, the receiver's
 * measurement, sifting on basis agreement, the random sample that estimates
 * the quantum bit error rate (QBER), the detection decision and the final key.
 *
 * Randomness comes in as a `Draws` value: one real draw per photon and
 * purpose for `randbit()` and `randbasis()`, and the `random()` draws of the
 * sample-selection loop in order. A draw whose call the source skips (Eve's
 * or the receiver's guess when the bases agree) goes unused.
 */
module QKD {
  import opened Wrappers

  /** Number of photons sent in one run. */
  const N: nat := 10

  /** A QBER strictly above this value declares an eavesdropper. */
  const DetectionThreshold: real := 0.15

  type Bit = b: int | 0 <= b <= 1

  /** The two bases, written '+' and 'x' in the source. */
  datatype Basis = Rectilinear | Diagonal

  /** `randbit()`: 0 when the uniform draw is below one half, else 1. */
  function RandBit(r: real): (b: Bit)
    ensures b == 0 <==> r < 0.5
  {
    if r < 0.5 then 0 else 1
  }

  /** `randbasis()`: '+' when the uniform draw is below one half, else 'x'. */
  function RandBasis(r: real): (b: Basis)
    ensures b == Rectilinear <==> r < 0.5
  {
    if r < 0.5 then Rectilinear else Diagonal
  }

  /**
   * The random draws of one run, per purpose and per photon:
   * the sender's bit and basis, the receiver's basis, the eavesdropper's
   * basis, the bit she resends when her basis is wrong, the bit the receiver
   * reads when the bases differ, and the `random()` draws of the
   * sample-selection loop, in order.
   */
  datatype Draws = Draws(
    senderBit: seq<real>,
    senderBasis: seq<real>,
    receiverBasis: seq<real>,
    eveBasis: seq<real>,
    eveGuess: seq<real>,
    receiverGuess: seq<real>,
    sample: seq<real>)

  predicate WellFormed(d: Draws)
  {
    && |d.senderBit| == N && |d.senderBasis| == N && |d.receiverBasis| == N
    && |d.eveBasis| == N && |d.eveGuess| == N && |d.receiverGuess| == N
    && forall j :: 0 <= j < |d.sample| ==> 0.0 <= d.sample[j] < 1.0
  }

  // ---------------------------------------------------------------------
  // Sequence vocabulary
  // ---------------------------------------------------------------------

  predicate StrictlyIncreasing(s: seq<nat>)
  {
    forall j, k :: 0 <= j < k < |s| ==> s[j] < s[k]
  }

  predicate Distinct(s: seq<nat>)
  {
    forall j, k :: 0 <= j < k < |s| ==> s[j] != s[k]
  }

  predicate InRange(s: seq<nat>, n: nat)
  {
    forall k :: 0 <= k < |s| ==> s[k] < n
  }

  /** `[0, 1, ..., n-1]`, the indices Eve touches when she is active. */
  function Range(n: nat): (r: seq<nat>)
  {
    seq(n, k requires 0 <= k < n => k)
  }

  /** The elements of `s` at the positions `idx`, in the order of `idx`. */
  function Select<T>(s: seq<T>, idx: seq<nat>): (r: seq<T>)
    requires InRange(idx, |s|)
  {
    seq(|idx|, k requires 0 <= k < |idx| => s[idx[k]])
  }

  // ---------------------------------------------------------------------
  // Quantum part: preparation, eavesdropping, measurement
  // ---------------------------------------------------------------------

  function SenderBits(d: Draws): seq<Bit>
    requires WellFormed(d)
  {
    seq(N, i requires 0 <= i < N => RandBit(d.senderBit[i]))
  }

  function SenderBases(d: Draws): seq<Basis>
    requires WellFormed(d)
  {
    seq(N, i requires 0 <= i < N => RandBasis(d.senderBasis[i]))
  }

  function ReceiverBases(d: Draws): seq<Basis>
    requires WellFormed(d)
  {
    seq(N, i requires 0 <= i < N => RandBasis(d.receiverBasis[i]))
  }

  /**
   * Intercept-resend at the midpoint: Eve measures in her own basis; when it
   * is the photon's basis she learns the bit, otherwise her reading is random.
   * She resends what she read, in her basis. Result: (bit, basis) forwarded.
   */
  function Intercept(bit: Bit, basis: Basis, eveBasisDraw: real, eveGuessDraw: real): (Bit, Basis)
  {
    var eveBasis := RandBasis(eveBasisDraw);
    (if eveBasis == basis then bit else RandBit(eveGuessDraw), eveBasis)
  }

  /** The receiver reads the photon's bit when the bases agree, a random bit otherwise. */
  function Measure(bit: Bit, basis: Basis, receiverBasis: Basis, guessDraw: real): Bit
  {
    if receiverBasis == basis then bit else RandBit(guessDraw)
  }

  /** The bits that continue to the receiver (`p1_bits` after the Eve step). */
  function ForwardedBits(eveOn: bool, d: Draws, bits: seq<Bit>, bases: seq<Basis>): (r: seq<Bit>)
    requires WellFormed(d) && |bits| == N && |bases| == N
    ensures |r| == N
  {
    seq(N, i requires 0 <= i < N =>
      if eveOn then Intercept(bits[i], bases[i], d.eveBasis[i], d.eveGuess[i]).0 else bits[i])
  }

  /** The bases that continue to the receiver (`p1_bases` after the Eve step). */
  function ForwardedBases(eveOn: bool, d: Draws, bases: seq<Basis>): (r: seq<Basis>)
    requires WellFormed(d) && |bases| == N
    ensures |r| == N
  {
    seq(N, i requires 0 <= i < N => if eveOn then RandBasis(d.eveBasis[i]) else bases[i])
  }

  /** `p2_bits`: what the receiver measures, photon by photon. */
  function Received(bits: seq<Bit>, bases: seq<Basis>, receiverBases: seq<Basis>, d: Draws): (r: seq<Bit>)
    requires WellFormed(d) && |bits| == N && |bases| == N && |receiverBases| == N
    ensures |r| == N
  {
    seq(N, i requires 0 <= i < N => Measure(bits[i], bases[i], receiverBases[i], d.receiverGuess[i]))
  }

  /**
   * The photon loop: for each photon, the optional Eve step overwrites the
   * working copies `bits[i]` and `bases[i]` in place, then the receiver
   * measures what arrives. Returns `p2_bits` and `eve_intercepts`.
   */
  method Transmit(eveOn: bool, d: Draws, bits: array<Bit>, bases: array<Basis>, receiverBases: seq<Basis>)
    returns (received: seq<Bit>, intercepts: seq<nat>)
    requires WellFormed(d) && bits.Length == N && bases.Length == N && |receiverBases| == N
    modifies bits, bases
    ensures bits[..] == ForwardedBits(eveOn, d, old(bits[..]), old(bases[..]))
    ensures bases[..] == ForwardedBases(eveOn, d, old(bases[..]))
    ensures received == Received(bits[..], bases[..], receiverBases, d)
    ensures intercepts == if eveOn then Range(N) else []
  {
    ghost var bits0, bases0 := bits[..], bases[..];
    received, intercepts := [], [];
    for i := 0 to N
      invariant forall k :: 0 <= k < i ==>
        bits[k] == ForwardedBits(eveOn, d, bits0, bases0)[k] && bases[k] == ForwardedBases(eveOn, d, bases0)[k]
      invariant forall k :: i <= k < N ==> bits[k] == bits0[k] && bases[k] == bases0[k]
      invariant |received| == i
      invariant forall k :: 0 <= k < i ==>
        received[k] == Measure(bits[k], bases[k], receiverBases[k], d.receiverGuess[k])
      invariant intercepts == if eveOn then Range(i) else []
    {
      if eveOn {
        var eveBasis := RandBasis(d.eveBasis[i]);
        var eveBit: Bit;
        if eveBasis == bases[i] {
          eveBit := bits[i];
        } else {
          eveBit := RandBit(d.eveGuess[i]);
        }
        bits[i] := eveBit;
        bases[i] := eveBasis;
        intercepts := intercepts + [i];
      }
      var measured: Bit;
      if receiverBases[i] == bases[i] {
        measured := bits[i];
      } else {
        measured := RandBit(d.receiverGuess[i]);
      }
      received := received + [measured];
    }
  }

  // ---------------------------------------------------------------------
  // Sifting
  // ---------------------------------------------------------------------

  /** The indices, in increasing order, at which the two basis lists agree. */
  function MatchPositions(a: seq<Basis>, b: seq<Basis>): (m: seq<nat>)
    requires |a| == |b|
    ensures StrictlyIncreasing(m) && InRange(m, |a|)
    ensures forall i :: 0 <= i < |a| ==> (i in m <==> a[i] == b[i])
    decreases |a|
  {
    if |a| == 0 then []
    else
      var n := |a| - 1;
      MatchPositions(a[..n], b[..n]) + (if a[n] == b[n] then [n] else [])
  }

  /**
   * The sifting loop: keeps the bits of both sides at every index where the
   * bases agree, and records those indices.
   */
  method Sift(aBits: seq<Bit>, aBases: seq<Basis>, bBits: seq<Bit>, bBases: seq<Basis>)
    returns (siftedA: seq<Bit>, siftedB: seq<Bit>, positions: seq<nat>)
    requires |aBits| == |aBases| == |bBits| == |bBases|
    ensures positions == MatchPositions(aBases, bBases)
    ensures |siftedA| == |siftedB| == |positions|
    ensures siftedA == Select(aBits, positions) && siftedB == Select(bBits, positions)
  {
    siftedA, siftedB, positions := [], [], [];
    for i := 0 to |aBases|
      invariant positions == MatchPositions(aBases[..i], bBases[..i])
      invariant InRange(positions, |aBits|)
      invariant siftedA == Select(aBits, positions) && siftedB == Select(bBits, positions)
    {
      assert aBases[..i + 1][..i] == aBases[..i] && bBases[..i + 1][..i] == bBases[..i];
      if aBases[i] == bBases[i] {
        siftedA := siftedA + [aBits[i]];
        siftedB := siftedB + [bBits[i]];
        positions := positions + [i];
      }
    }
    assert aBases[..|aBases|] == aBases && bBases[..|bBases|] == bBases;
  }

  // ---------------------------------------------------------------------
  // Sampling, error count, detection, final key
  // ---------------------------------------------------------------------

  /**
   * `int(L * 0.3)`, raised to 1 when it is 0, written in integers: the
   * fraction 3/10 rounded down, never less than one bit, never more than L.
   */
  function SampleSize(L: nat): (s: nat)
    requires L > 0
    ensures 1 <= s <= L
    ensures 3 * L < 10 ==> s == 1
    ensures 3 * L >= 10 ==> 10 * s <= 3 * L < 10 * (s + 1)
  {
    var s := (3 * L) / 10;
    if s < 1 then 1 else s
  }

  /** `int(random() * L)`: a uniform draw in [0, 1) scaled to an index below L. */
  function CandidateIndex(r: real, L: nat): (k: nat)
    requires 0.0 <= r < 1.0 && L > 0
    ensures k < L
    ensures k as real <= r * L as real < k as real + 1.0
  {
    ScaledBelow(r, L as real);
    FloorBelow(r * L as real, L);
    (r * L as real).Floor
  }

  /** The floor of a real in [0, n) is an index below n, at or just below it. */
  lemma FloorBelow(x: real, n: nat)
    requires 0.0 <= x < n as real
    ensures 0 <= x.Floor < n
    ensures x.Floor as real <= x < x.Floor as real + 1.0
  {
  }

  /** A draw in [0, 1) scaled by a positive n lies in [0, n). */
  lemma ScaledBelow(r: real, n: real)
    requires 0.0 <= r < 1.0 && n > 0.0
    ensures 0.0 <= r * n < n
  {
    assert (1.0 - r) * n > 0.0;
    assert (1.0 - r) * n == n - r * n;
  }

  function CandidateIndices(draws: seq<real>, L: nat): (ks: seq<nat>)
    requires L > 0 && forall j :: 0 <= j < |draws| ==> 0.0 <= draws[j] < 1.0
    ensures |ks| == |draws| && InRange(ks, L)
  {
    seq(|draws|, j requires 0 <= j < |draws| => CandidateIndex(draws[j], L))
  }

  /** The values of `ks` in order of first occurrence, each kept once. */
  function FirstOccurrences(ks: seq<nat>): (r: seq<nat>)
    ensures Distinct(r)
    ensures forall x :: x in r <==> x in ks
    decreases |ks|
  {
    if ks == [] then []
    else
      var p := FirstOccurrences(ks[..|ks| - 1]);
      var x := ks[|ks| - 1];
      if x in p then p else p + [x]
  }

  lemma {:induction false} FirstOccurrencesOfPrefix(ks: seq<nat>, j: nat)
    requires j <= |ks|
    ensures |FirstOccurrences(ks[..j])| <= |FirstOccurrences(ks)|
    ensures FirstOccurrences(ks)[..|FirstOccurrences(ks[..j])|] == FirstOccurrences(ks[..j])
    decreases |ks| - j
  {
    if j < |ks| {
      var n := |ks| - 1;
      assert ks[..n][..j] == ks[..j];
      FirstOccurrencesOfPrefix(ks[..n], j);
    } else {
      assert ks[..j] == ks;
    }
  }

  lemma FirstOccurrencesInRange(ks: seq<nat>, L: nat)
    requires InRange(ks, L)
    ensures InRange(FirstOccurrences(ks), L)
  {
    var r := FirstOccurrences(ks);
    forall k | 0 <= k < |r| ensures r[k] < L {
      assert r[k] in ks;
    }
  }

  /**
   * The sample-selection `while` loop: draws candidates `int(random() * L)`
   * and keeps each one not yet chosen, until `size` indices are chosen. The
   * draws are finite here: `None` means they ran out first.
   */
  method ChooseSample(draws: seq<real>, L: nat, size: nat) returns (sample: Option<seq<nat>>)
    requires L > 0 && forall j :: 0 <= j < |draws| ==> 0.0 <= draws[j] < 1.0
    ensures var ks := FirstOccurrences(CandidateIndices(draws, L));
      if |ks| < size then sample == None else sample == Some(ks[..size])
    ensures sample.Some? ==>
      |sample.value| == size && Distinct(sample.value) && InRange(sample.value, L)
  {
    ghost var ks := CandidateIndices(draws, L);
    var picked: seq<nat> := [];
    var j := 0;
    while |picked| < size && j < |draws|
      invariant 0 <= j <= |draws|
      invariant picked == FirstOccurrences(ks[..j])
      invariant |picked| <= size
    {
      var k := CandidateIndex(draws[j], L);
      assert ks[..j + 1][..j] == ks[..j] && ks[..j + 1][j] == k;
      if k !in picked {
        picked := picked + [k];
      }
      j := j + 1;
    }
    FirstOccurrencesOfPrefix(ks, j);
    FirstOccurrencesInRange(ks, L);
    if |picked| < size {
      assert ks[..j] == ks;
      sample := None;
    } else {
      sample := Some(picked);
    }
  }

  /** How many sampled positions hold different bits on the two sides. */
  function ErrorCount(a: seq<Bit>, b: seq<Bit>, sample: seq<nat>): (e: nat)
    requires |a| == |b| && InRange(sample, |a|)
    ensures e <= |sample|
    ensures e == 0 <==> forall k :: 0 <= k < |sample| ==> a[sample[k]] == b[sample[k]]
    ensures e == |sample| <==> forall k :: 0 <= k < |sample| ==> a[sample[k]] != b[sample[k]]
    decreases |sample|
  {
    if sample == [] then 0
    else
      var n := |sample| - 1;
      ErrorCount(a, b, sample[..n]) + (if a[sample[n]] != b[sample[n]] then 1 else 0)
  }

  /** The error-count loop over the sample indices. */
  method CountErrors(a: seq<Bit>, b: seq<Bit>, sample: seq<nat>) returns (errors: nat)
    requires |a| == |b| && InRange(sample, |a|)
    ensures errors == ErrorCount(a, b, sample)
    ensures errors <= |sample|
  {
    errors := 0;
    for j := 0 to |sample|
      invariant errors == ErrorCount(a, b, sample[..j])
    {
      assert sample[..j + 1][..j] == sample[..j];
      if a[sample[j]] != b[sample[j]] {
        errors := errors + 1;
      }
    }
    assert sample[..|sample|] == sample;
  }

  /** `sample_errors / sample_size`, a rate between 0 and 1. */
  function Qber(errors: nat, size: nat): (q: real)
    requires 0 < size && errors <= size
    ensures 0.0 <= q <= 1.0
    ensures q * size as real == errors as real
  {
    errors as real / size as real
  }

  /** `qber > DETECTION_THRESHOLD`, the strict test, in integer terms. */
  function Detected(errors: nat, size: nat): (detected: bool)
    requires 0 < size && errors <= size
    ensures detected <==> 100 * errors > 15 * size
  {
    var q := Qber(errors, size);
    AboveThreshold(q, size as real, errors as real);
    q > DetectionThreshold
  }

  /** `q > 0.15` for `q = e / n`, with both sides multiplied out by `100 * n`. */
  lemma AboveThreshold(q: real, n: real, e: real)
    requires n > 0.0 && q * n == e
    ensures q > DetectionThreshold <==> 100.0 * e > 15.0 * n
  {
    if q > DetectionThreshold {
      assert (q - DetectionThreshold) * n > 0.0;
      assert (q - DetectionThreshold) * n == e - DetectionThreshold * n;
    } else {
      assert (DetectionThreshold - q) * n >= 0.0;
      assert (DetectionThreshold - q) * n == DetectionThreshold * n - e;
    }
  }

  /** The indices below L that are not in `sample`, in increasing order. */
  function Unsampled(L: nat, sample: seq<nat>): (c: seq<nat>)
    ensures StrictlyIncreasing(c) && InRange(c, L)
    ensures forall i :: 0 <= i < L ==> (i in c <==> i !in sample)
    decreases L
  {
    if L == 0 then []
    else Unsampled(L - 1, sample) + (if L - 1 in sample then [] else [L - 1])
  }

  /** How many of the indices below n occur in `sample`. */
  function CountBelow(sample: seq<nat>, n: nat): (c: nat)
    ensures c <= n
  {
    if n == 0 then 0 else CountBelow(sample, n - 1) + (if n - 1 in sample then 1 else 0)
  }

  lemma {:induction false} UnsampledCount(L: nat, sample: seq<nat>)
    ensures |Unsampled(L, sample)| == L - CountBelow(sample, L)
  {
    if L > 0 {
      UnsampledCount(L - 1, sample);
    }
  }

  lemma {:induction false} CountBelowAppend(s: seq<nat>, x: nat, n: nat)
    requires x !in s
    ensures CountBelow(s + [x], n) == CountBelow(s, n) + (if x < n then 1 else 0)
  {
    if n > 0 {
      CountBelowAppend(s, x, n - 1);
      assert (n - 1 in s + [x]) <==> (n - 1 in s || n - 1 == x);
    }
  }

  lemma {:induction false} CountBelowDistinct(sample: seq<nat>, n: nat)
    requires Distinct(sample) && InRange(sample, n)
    ensures CountBelow(sample, n) == |sample|
    decreases |sample|
  {
    if sample != [] {
      var m := |sample| - 1;
      var s, x := sample[..m], sample[m];
      assert sample == s + [x];
      assert x !in s by {
        forall k | 0 <= k < m ensures s[k] != x {
          assert sample[k] != sample[m];
        }
      }
      assert Distinct(s) && InRange(s, n) && x < n;
      CountBelowDistinct(s, n);
      CountBelowAppend(s, x, n);
      assert CountBelow(sample, n) == CountBelow(s, n) + 1;
    } else {
      CountBelowEmpty(n);
    }
  }

  lemma {:induction false} CountBelowEmpty(n: nat)
    ensures CountBelow([], n) == 0
  {
    if n > 0 {
      CountBelowEmpty(n - 1);
    }
  }

  /** With distinct in-range sample indices, exactly |sample| indices are removed. */
  lemma UnsampledLength(L: nat, sample: seq<nat>)
    requires Distinct(sample) && InRange(sample, L)
    ensures |Unsampled(L, sample)| == L - |sample|
  {
    UnsampledCount(L, sample);
    CountBelowDistinct(sample, L);
  }

  /** Passing index `n` adds `sifted[n]` to the kept bits unless `n` was sampled. */
  lemma KeptStep(sifted: seq<Bit>, sample: seq<nat>, n: nat)
    requires n < |sifted|
    ensures InRange(Unsampled(n, sample), |sifted|) && InRange(Unsampled(n + 1, sample), |sifted|)
    ensures Select(sifted, Unsampled(n + 1, sample))
      == Select(sifted, Unsampled(n, sample)) + (if n in sample then [] else [sifted[n]])
  {
  }

  /** The final-key loop: the sifted bits at every index not revealed in the sample. */
  method FinalKey(sifted: seq<Bit>, sample: seq<nat>) returns (key: seq<Bit>)
    ensures key == Select(sifted, Unsampled(|sifted|, sample))
    ensures Distinct(sample) && InRange(sample, |sifted|) ==> |key| == |sifted| - |sample|
  {
    key := [];
    for idx := 0 to |sifted|
      invariant InRange(Unsampled(idx, sample), |sifted|)
      invariant key == Select(sifted, Unsampled(idx, sample))
    {
      KeptStep(sifted, sample, idx);
      if idx !in sample {
        key := key + [sifted[idx]];
      }
    }
    if Distinct(sample) && InRange(sample, |sifted|) {
      UnsampledLength(|sifted|, sample);
    }
  }

  // ---------------------------------------------------------------------
  // One run
  // ---------------------------------------------------------------------

  /** What the run concludes after sifting. */
  datatype Estimate =
    | NoSiftedBits
    | SampleExhausted(sampleSize: nat)
    | Estimated(sampleSize: nat, sampleIndices: seq<nat>, sampleErrors: nat,
                qber: real, detected: bool, finalKey: seq<Bit>)

  /**
   * Everything one run computes: the sender's record, the receiver's bases,
   * the state that crossed the channel, the receiver's bits, Eve's touched
   * indices, the sifted lists and the estimate.
   */
  datatype Run = Run(
    senderBits: seq<Bit>, senderBases: seq<Basis>, receiverBases: seq<Basis>,
    forwardedBits: seq<Bit>, forwardedBases: seq<Basis>, receiverBits: seq<Bit>,
    intercepts: seq<nat>,
    siftedSender: seq<Bit>, siftedReceiver: seq<Bit>, matchPositions: seq<nat>,
    estimate: Estimate)

  /** The estimate drawn from two sifted lists of equal length. */
  function EstimateFrom(a: seq<Bit>, b: seq<Bit>, draws: seq<real>): Estimate
    requires |a| == |b| && forall j :: 0 <= j < |draws| ==> 0.0 <= draws[j] < 1.0
  {
    var L := |a|;
    if L == 0 then NoSiftedBits
    else
      var size := SampleSize(L);
      var ks := FirstOccurrences(CandidateIndices(draws, L));
      if |ks| < size then SampleExhausted(size)
      else
        FirstOccurrencesInRange(CandidateIndices(draws, L), L);
        var sample := ks[..size];
        var errors := ErrorCount(a, b, sample);
        Estimated(size, sample, errors, Qber(errors, size), Detected(errors, size),
                  Select(a, Unsampled(L, sample)))
  }

  /** There are no match positions exactly when the bases disagree everywhere. */
  lemma NoMatchPositions(a: seq<Basis>, b: seq<Basis>)
    requires |a| == |b|
    ensures MatchPositions(a, b) == [] <==> forall i :: 0 <= i < |a| ==> a[i] != b[i]
  {
    var m := MatchPositions(a, b);
    if m != [] {
      assert m[0] in m && m[0] < |a|;
    }
  }

  /** The estimate returns early exactly when nothing was sifted. */
  lemma EarlyReturn(a: seq<Bit>, b: seq<Bit>, draws: seq<real>)
    requires |a| == |b| && forall j :: 0 <= j < |draws| ==> 0.0 <= draws[j] < 1.0
    ensures EstimateFrom(a, b, draws).NoSiftedBits? <==> |a| == 0
  {
  }

  /**
   * A whole run. The sender sifts on her own record of bits and bases (see
   * README, Findings: the source sifts on the state Eve forwarded instead).
   */
  function Simulate(eveOn: bool, d: Draws): Run
    requires WellFormed(d)
  {
    var sBits, sBases, rBases := SenderBits(d), SenderBases(d), ReceiverBases(d);
    var fBits := ForwardedBits(eveOn, d, sBits, sBases);
    var fBases := ForwardedBases(eveOn, d, sBases);
    var rBits := Received(fBits, fBases, rBases, d);
    var pos := MatchPositions(sBases, rBases);
    var a, b := Select(sBits, pos), Select(rBits, pos);
    Run(sBits, sBases, rBases, fBits, fBases, rBits, if eveOn then Range(N) else [],
        a, b, pos, EstimateFrom(a, b, d.sample))
  }

  /**
   * The estimate exactly as QKD.py computes it: sifting compares the
   * receiver's bases with the bases Eve forwarded and takes the sender's
   * bits from the forwarded copy.
   */
  function AsWrittenEstimate(r: Run, draws: seq<real>): (e: Estimate)
    requires |r.forwardedBits| == |r.forwardedBases| == |r.receiverBits| == |r.receiverBases|
    requires forall j :: 0 <= j < |draws| ==> 0.0 <= draws[j] < 1.0
    // The early return happens exactly when no forwarded basis matches the receiver's.
    ensures e.NoSiftedBits? <==>
      forall i :: 0 <= i < |r.forwardedBases| ==> r.forwardedBases[i] != r.receiverBases[i]
  {
    var pos := MatchPositions(r.forwardedBases, r.receiverBases);
    NoMatchPositions(r.forwardedBases, r.receiverBases);
    EarlyReturn(Select(r.forwardedBits, pos), Select(r.receiverBits, pos), draws);
    EstimateFrom(Select(r.forwardedBits, pos), Select(r.receiverBits, pos), draws)
  }

  /**
   * The part of `run_simulation` after sifting: return early when nothing is
   * sifted, otherwise size and choose the sample, count its errors, decide
   * detection and remove the sample to form the final key.
   */
  method EstimateKey(siftedP1: seq<Bit>, siftedP2: seq<Bit>, draws: seq<real>) returns (estimate: Estimate)
    requires |siftedP1| == |siftedP2| && forall j :: 0 <= j < |draws| ==> 0.0 <= draws[j] < 1.0
    ensures estimate == EstimateFrom(siftedP1, siftedP2, draws)
  {
    if |siftedP1| == 0 {
      return NoSiftedBits;
    }
    var L := |siftedP1|;
    var sampleSize := (3 * L) / 10;
    if sampleSize < 1 {
      sampleSize := 1;
    }
    var picked := ChooseSample(draws, L, sampleSize);
    if picked.None? {
      return SampleExhausted(sampleSize);
    }
    var sampleIndices := picked.value;
    var sampleErrors := CountErrors(siftedP1, siftedP2, sampleIndices);
    var qber := sampleErrors as real / sampleSize as real;
    var detected := qber > DetectionThreshold;
    var finalKeyBits := FinalKey(siftedP1, sampleIndices);
    estimate := Estimated(sampleSize, sampleIndices, sampleErrors, qber, detected, finalKeyBits);
  }

  /** `run_simulation`, step by step, in the source's order. */
  method RunSimulation(eveOn: bool, d: Draws) returns (run: Run)
    requires WellFormed(d)
    ensures run == Simulate(eveOn, d)
  {
    // Step 0: the sender's bits and bases, kept as the original record.
    var p1BitsInitial: seq<Bit> := [];
    var p1BasesInitial: seq<Basis> := [];
    for i := 0 to N
      invariant p1BitsInitial == SenderBits(d)[..i]
      invariant p1BasesInitial == SenderBases(d)[..i]
    {
      p1BitsInitial := p1BitsInitial + [RandBit(d.senderBit[i])];
      p1BasesInitial := p1BasesInitial + [RandBasis(d.senderBasis[i])];
    }
    assert p1BitsInitial == SenderBits(d) && p1BasesInitial == SenderBases(d);

    // Working copies, which the Eve step may overwrite.
    var p1Bits := new Bit[N](i requires 0 <= i < N => p1BitsInitial[i]);
    var p1Bases := new Basis[N](i requires 0 <= i < N => p1BasesInitial[i]);
    assert p1Bits[..] == p1BitsInitial && p1Bases[..] == p1BasesInitial;

    var p2Bases: seq<Basis> := [];
    for i := 0 to N
      invariant p2Bases == ReceiverBases(d)[..i]
    {
      p2Bases := p2Bases + [RandBasis(d.receiverBasis[i])];
    }
    assert p2Bases == ReceiverBases(d);

    var p2Bits, intercepts := Transmit(eveOn, d, p1Bits, p1Bases, p2Bases);

    var siftedP1, siftedP2, matchPositions := Sift(p1BitsInitial, p1BasesInitial, p2Bits, p2Bases);

    var estimate := EstimateKey(siftedP1, siftedP2, d.sample);
    run := Run(p1BitsInitial, p1BasesInitial, p2Bases, p1Bits[..], p1Bases[..], p2Bits,
               intercepts, siftedP1, siftedP2, matchPositions, estimate);
  }
}
