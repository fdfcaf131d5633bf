/** The streaming upsampler: a 64-slot ring with 32 samples of lookahead, against the direct
    64-tap polyphase convolution of the whole signal. The number type `F`, its multiply-add
    and the round-and-clamp step are arbitrary, so no claim rests on floating-point rounding;
    taps are folded in order. */
module Upsampling {
  const TAPS := 64
  const LOOKAHEAD := 32
  const BEFORE := 31

  /** `mac(acc, sample, coefficient)` is one step of the inner loop. */
  datatype Kernel<!F> = Kernel(factor: nat, coefficients: seq<seq<F>>, zero: F, mac: (F, int, F) -> F,
      quantise: F -> int)

  ghost predicate ValidKernel<F>(k: Kernel<F>) {
    && 1 <= k.factor <= 6
    && |k.coefficients| == k.factor
    && forall phase :: 0 <= phase < k.factor ==> |k.coefficients[phase]| == TAPS
  }

  // ---------------------------------------------------------------- the direct convolution

  /** Taps 0..n of one phase around output position `o`, skipping what lies before the signal. */
  ghost function Fold<F>(k: Kernel<F>, x: seq<int>, o: nat, phase: nat, n: nat): F
    requires ValidKernel(k) && phase < k.factor && n <= TAPS && o + LOOKAHEAD < |x|
  {
    if n == 0 then k.zero
    else
      var acc := Fold(k, x, o, phase, n - 1);
      var index := o + (n - 1) - BEFORE;
      if index >= 0 then k.mac(acc, x[index], k.coefficients[phase][n - 1]) else acc
  }

  ghost function Sample<F>(k: Kernel<F>, x: seq<int>, o: nat, phase: nat): int
    requires ValidKernel(k) && phase < k.factor && o + LOOKAHEAD < |x|
  {
    k.quantise(Fold(k, x, o, phase, TAPS))
  }

  /** The first `n` phases of output position `o`. */
  ghost function Phases<F>(k: Kernel<F>, x: seq<int>, o: nat, n: nat): (r: seq<int>)
    requires ValidKernel(k) && n <= k.factor && o + LOOKAHEAD < |x|
    ensures |r| == n
  {
    if n == 0 then [] else Phases(k, x, o, n - 1) + [Sample(k, x, o, n - 1)]
  }

  /** Output positions 0..n of signal `x`, each with all its phases. */
  ghost function Direct<F>(k: Kernel<F>, x: seq<int>, n: nat): seq<int>
    requires ValidKernel(k) && (n == 0 || n + LOOKAHEAD <= |x|)
  {
    if n == 0 then [] else Direct(k, x, n - 1) + Phases(k, x, n - 1, k.factor)
  }

  lemma {:induction false} DirectLength<F>(k: Kernel<F>, x: seq<int>, n: nat)
    requires ValidKernel(k) && (n == 0 || n + LOOKAHEAD <= |x|)
    ensures |Direct(k, x, n)| == n * k.factor
  {
    if n > 0 {
      DirectLength(k, x, n - 1);
      assert n * k.factor == (n - 1) * k.factor + k.factor;
    }
  }

  /** Positions that `n` samples of input determine. */
  function Ready(n: nat): nat { if n <= LOOKAHEAD then 0 else n - LOOKAHEAD }

  /** All that can be emitted once `x` has been fed. */
  ghost function Emitted<F>(k: Kernel<F>, x: seq<int>): seq<int>
    requires ValidKernel(k)
  {
    if k.factor == 1 then x else Direct(k, x, Ready(|x|))
  }

  /** The silence that Flush feeds; nothing to flush before the first sample. */
  function Silence(n: nat): seq<int> { if n == 0 then [] else seq(LOOKAHEAD, _ => 0) }

  /** The whole job: `x` upsampled with silence after its end. */
  ghost function Upsampled<F>(k: Kernel<F>, x: seq<int>): seq<int>
    requires ValidKernel(k)
  {
    if k.factor == 1 then x else Direct(k, x + Silence(|x|), |x|)
  }

  /** Exactly `factor` output samples for each input sample, for every signal. */
  lemma UpsampledLength<F>(k: Kernel<F>, x: seq<int>)
    requires ValidKernel(k)
    ensures |Upsampled(k, x)| == |x| * k.factor
  {
    if k.factor != 1 {
      DirectLength(k, x + Silence(|x|), |x|);
    }
  }

  // ---------------------------------------------------------------- a position depends on its 64 samples only

  lemma {:induction false} FoldLocal<F>(k: Kernel<F>, x: seq<int>, y: seq<int>, o: nat, phase: nat, n: nat)
    requires ValidKernel(k) && phase < k.factor && n <= TAPS
    requires o + LOOKAHEAD < |x| && o + LOOKAHEAD < |y|
    requires forall i :: 0 <= i <= o + LOOKAHEAD && o - BEFORE <= i ==> x[i] == y[i]
    ensures Fold(k, x, o, phase, n) == Fold(k, y, o, phase, n)
  {
    if n > 0 {
      FoldLocal(k, x, y, o, phase, n - 1);
    }
  }

  lemma {:induction false} PhasesLocal<F>(k: Kernel<F>, x: seq<int>, y: seq<int>, o: nat, n: nat)
    requires ValidKernel(k) && n <= k.factor
    requires o + LOOKAHEAD < |x| && o + LOOKAHEAD < |y|
    requires forall i :: 0 <= i <= o + LOOKAHEAD && o - BEFORE <= i ==> x[i] == y[i]
    ensures Phases(k, x, o, n) == Phases(k, y, o, n)
  {
    if n > 0 {
      PhasesLocal(k, x, y, o, n - 1);
      FoldLocal(k, x, y, o, n - 1, TAPS);
    }
  }

  lemma {:induction false} DirectExtends<F>(k: Kernel<F>, x: seq<int>, y: seq<int>, n: nat)
    requires ValidKernel(k) && (n == 0 || n + LOOKAHEAD <= |x|)
    ensures Direct(k, x, n) == Direct(k, x + y, n)
  {
    if n > 0 {
      var longer := x + y;
      DirectExtends(k, x, y, n - 1);
      PhasesLocal(k, x, longer, n - 1, k.factor);
      assert Direct(k, x, n) == Direct(k, x, n - 1) + Phases(k, x, n - 1, k.factor);
      assert Direct(k, longer, n) == Direct(k, longer, n - 1) + Phases(k, longer, n - 1, k.factor);
    }
  }

  lemma {:induction false} DirectGrows<F>(k: Kernel<F>, x: seq<int>, m: nat, n: nat)
    requires ValidKernel(k) && m <= n && (n == 0 || n + LOOKAHEAD <= |x|)
    ensures Direct(k, x, m) <= Direct(k, x, n)
  {
    if m < n {
      DirectGrows(k, x, m, n - 1);
    }
  }

  /** What was emitted stays emitted: feeding more only appends. */
  lemma EmittedGrows<F>(k: Kernel<F>, x: seq<int>, y: seq<int>)
    requires ValidKernel(k)
    ensures Emitted(k, x) <= Emitted(k, x + y)
  {
    if k.factor != 1 {
      DirectExtends(k, x, y, Ready(|x|));
      DirectGrows(k, x + y, Ready(|x|), Ready(|x + y|));
    }
  }

  /** Until the lookahead is full a sample completes nothing. */
  lemma {:induction false} EmittedEarly<F>(k: Kernel<F>, x: seq<int>, v: int)
    requires ValidKernel(k) && k.factor > 1 && |x| < LOOKAHEAD
    ensures Emitted(k, x + [v]) == Emitted(k, x)
  {
    assert Ready(|x + [v]|) == 0 == Ready(|x|);
  }

  /** From then on one more sample completes one more position. */
  lemma {:induction false} EmittedNext<F>(k: Kernel<F>, x: seq<int>, v: int)
    requires ValidKernel(k) && k.factor > 1 && |x| >= LOOKAHEAD
    ensures Emitted(k, x + [v]) == Emitted(k, x) + Phases(k, x + [v], |x| - LOOKAHEAD, k.factor)
  {
    var o: nat := |x| - LOOKAHEAD;
    assert Ready(|x|) == o && Ready(|x + [v]|) == o + 1;
    DirectExtends(k, x, [v], o);
    assert Direct(k, x + [v], o + 1) == Direct(k, x + [v], o) + Phases(k, x + [v], o, k.factor);
  }

  /** What one call of Process returns after `fed`. */
  ghost function Chunk<F>(k: Kernel<F>, fed: seq<int>, pcm: seq<int>): seq<int>
    requires ValidKernel(k)
  {
    EmittedGrows(k, fed, pcm);
    Emitted(k, fed + pcm)[|Emitted(k, fed)|..]
  }

  /** Packet boundaries never become audio edges: one call on a + b gives what two calls give. */
  lemma ProcessSplits<F>(k: Kernel<F>, fed: seq<int>, a: seq<int>, b: seq<int>)
    requires ValidKernel(k)
    ensures Chunk(k, fed, a + b) == Chunk(k, fed, a) + Chunk(k, fed + a, b)
  {
    assert fed + (a + b) == fed + a + b;
    EmittedGrows(k, fed, a);
    EmittedGrows(k, fed + a, b);
    SuffixSplits(Emitted(k, fed), Emitted(k, fed + a), Emitted(k, fed + a + b));
  }

  lemma SuffixSplits(e0: seq<int>, e1: seq<int>, e2: seq<int>)
    requires e0 <= e1 <= e2
    ensures e2[|e0|..] == e1[|e0|..] + e2[|e1|..]
  {
  }

  /** Feeding the lookahead's worth of silence completes every position of the input. */
  lemma FlushCompletes<F>(k: Kernel<F>, x: seq<int>)
    requires ValidKernel(k)
    ensures k.factor != 1 ==> Emitted(k, x + Silence(|x|)) == Upsampled(k, x)
  {
  }

  // ---------------------------------------------------------------- the zero-padded reading

  /** The signal continued with zeros in both directions. */
  function Padded(x: seq<int>, i: int): int { if 0 <= i < |x| then x[i] else 0 }

  ghost function PaddedFold<F>(k: Kernel<F>, x: seq<int>, o: nat, phase: nat, n: nat): F
    requires ValidKernel(k) && phase < k.factor && n <= TAPS
  {
    if n == 0 then k.zero
    else k.mac(PaddedFold(k, x, o, phase, n - 1), Padded(x, o + (n - 1) - 31), k.coefficients[phase][n - 1])
  }

  /** Adding a zero sample's contribution leaves a partial sum as it is. */
  ghost predicate ZeroAbsorbing<F(!new)>(k: Kernel<F>) {
    forall acc: F, c: F :: k.mac(acc, 0, c) == acc
  }

  lemma {:induction false} FoldIsPadded<F(!new)>(k: Kernel<F>, x: seq<int>, o: nat, phase: nat, n: nat)
    requires ValidKernel(k) && ZeroAbsorbing(k) && phase < k.factor && n <= TAPS && o < |x|
    ensures Fold(k, x + Silence(|x|), o, phase, n) == PaddedFold(k, x, o, phase, n)
  {
    if n > 0 {
      FoldIsPadded(k, x, o, phase, n - 1);
      var index := o + (n - 1) - BEFORE;
      if index >= 0 {
        assert (x + Silence(|x|))[index] == Padded(x, index);
      }
    }
  }

  lemma {:induction false} PhasesAt<F>(k: Kernel<F>, x: seq<int>, o: nat, n: nat, phase: nat)
    requires ValidKernel(k) && n <= k.factor && o + LOOKAHEAD < |x| && phase < n
    ensures Phases(k, x, o, n)[phase] == Sample(k, x, o, phase)
  {
    if phase < n - 1 {
      PhasesAt(k, x, o, n - 1, phase);
    }
  }

  lemma {:induction false} DirectAt<F>(k: Kernel<F>, x: seq<int>, n: nat, o: nat, phase: nat)
    requires ValidKernel(k) && o < n && n + LOOKAHEAD <= |x| && phase < k.factor
    ensures 0 <= o * k.factor + phase < |Direct(k, x, n)|
    ensures Direct(k, x, n)[o * k.factor + phase] == Sample(k, x, o, phase)
  {
    assert n * k.factor == (n - 1) * k.factor + k.factor;
    DirectLength(k, x, n - 1);
    DirectLength(k, x, n);
    if o < n - 1 {
      DirectAt(k, x, n - 1, o, phase);
    } else {
      PhasesAt(k, x, o, k.factor, phase);
    }
  }

  /** Sample for sample: output o*factor + phase is the quantised 64-tap convolution of the
      zero-padded signal at position o, for every factor above one. */
  lemma UpsampledIsConvolution<F(!new)>(k: Kernel<F>, x: seq<int>, o: nat, phase: nat)
    requires ValidKernel(k) && ZeroAbsorbing(k) && k.factor > 1 && o < |x| && phase < k.factor
    ensures 0 <= o * k.factor + phase < |Upsampled(k, x)|
    ensures Upsampled(k, x)[o * k.factor + phase] == k.quantise(PaddedFold(k, x, o, phase, 64))
  {
    DirectAt(k, x + Silence(|x|), |x|, o, phase);
    FoldIsPadded(k, x, o, phase, TAPS);
  }

  // ---------------------------------------------------------------- unity gain

  /** The sum of the first `n` coefficients. */
  function SumTo(c: seq<real>, n: nat): real
    requires n <= |c|
  {
    if n == 0 then 0.0 else SumTo(c, n - 1) + c[n - 1]
  }

  function Sum(c: seq<real>): real { SumTo(c, |c|) }

  lemma {:induction false} SumScaled(raw: seq<real>, scaled: seq<real>, d: real, n: nat)
    requires |raw| == |scaled| && n <= |raw| && d != 0.0 && forall i :: 0 <= i < |raw| ==> scaled[i] == raw[i] / d
    ensures SumTo(scaled, n) == SumTo(raw, n) / d
  {
    if n > 0 {
      SumScaled(raw, scaled, d, n - 1);
    }
  }

  /** The normalisation of one phase: after it the coefficients sum to one. */
  method Normalise(raw: seq<real>) returns (coefficients: seq<real>)
    requires Sum(raw) != 0.0
    ensures |coefficients| == |raw| && Sum(coefficients) == 1.0
    ensures forall i :: 0 <= i < |raw| ==> coefficients[i] * Sum(raw) == raw[i]
  {
    var sum := 0.0;
    for tap := 0 to |raw|
      invariant sum == SumTo(raw, tap)
    {
      sum := sum + raw[tap];
    }
    coefficients := [];
    for tap := 0 to |raw|
      invariant |coefficients| == tap
      invariant forall i :: 0 <= i < tap ==> coefficients[i] == raw[i] / sum
    {
      coefficients := coefficients + [raw[tap] / sum];
    }
    SumScaled(raw, coefficients, sum, |raw|);
    assert sum / sum == 1.0;
  }

  lemma {:induction false} ConstantFold(k: Kernel<real>, x: seq<int>, v: int, o: nat, phase: nat, n: nat)
    requires ValidKernel(k) && phase < k.factor && n <= TAPS && BEFORE <= o && o + LOOKAHEAD < |x|
    requires k.zero == 0.0 && forall acc, s, c :: k.mac(acc, s, c) == acc + s as real * c
    requires forall i :: 0 <= i < |x| ==> x[i] == v
    ensures Fold(k, x, o, phase, n) == v as real * SumTo(k.coefficients[phase], n)
  {
    if n > 0 {
      ConstantFold(k, x, v, o, phase, n - 1);
      Distribute(v as real, SumTo(k.coefficients[phase], n - 1), k.coefficients[phase][n - 1]);
    }
  }

  lemma Distribute(a: real, b: real, c: real)
    ensures a * b + a * c == a * (b + c)
  {
  }

  /** With normalised coefficients a constant signal comes out at its own level, in every phase,
      wherever all 64 taps lie inside it. */
  lemma ConstantIsPreserved(k: Kernel<real>, x: seq<int>, v: int, o: nat, phase: nat)
    requires ValidKernel(k) && phase < k.factor && BEFORE <= o && o + LOOKAHEAD < |x|
    requires k.zero == 0.0 && forall acc, s, c :: k.mac(acc, s, c) == acc + s as real * c
    requires Sum(k.coefficients[phase]) == 1.0
    requires forall i :: 0 <= i < |x| ==> x[i] == v
    ensures Sample(k, x, o, phase) == k.quantise(v as real)
  {
    ConstantFold(k, x, v, o, phase, TAPS);
  }

  // ---------------------------------------------------------------- the streaming form

  lemma Regroup(a: seq<int>, b: seq<int>, c: seq<int>)
    ensures a + (b + c) == (a + b) + c
  {
  }

  lemma OneMore(start: seq<int>, pcm: seq<int>, i: nat)
    requires i < |pcm|
    ensures start + pcm[..i] + [pcm[i]] == start + pcm[..i + 1]
  {
  }

  /** What one more sample adds to the results of the calls since `first`. */
  lemma {:induction false} EmittedOnto<F>(k: Kernel<F>, x: seq<int>, v: int, first: seq<int>, out: seq<int>,
      values: seq<int>)
    requires ValidKernel(k) && k.factor > 1 && first + out == Emitted(k, x)
    requires values == if |x| < LOOKAHEAD then [] else Phases(k, x + [v], |x| - LOOKAHEAD, k.factor)
    ensures first + (out + values) == Emitted(k, x + [v])
  {
    Regroup(first, out, values);
    if |x| < LOOKAHEAD {
      EmittedEarly(k, x, v);
    } else {
      EmittedNext(k, x, v);
    }
  }

  class Upsampler<F> {
    const kernel: Kernel<F>
    const history: array<int>
    var input: nat
    var output: nat
    var flushed: bool
    /** Every sample fed so far, the flush's silence included. */
    ghost var fed: seq<int>

    /** The ring holds exactly the newest 64 samples. */
    ghost predicate Ring()
      reads this, history
    {
      && ValidKernel(kernel) && history.Length == TAPS && input == |fed|
      && (kernel.factor > 1 ==> forall i :: 0 <= i < |fed| && |fed| - TAPS <= i ==> history[i % 64] == fed[i])
    }

    /** Between calls the output trails the input by the lookahead. */
    ghost predicate Valid()
      reads this, history
    {
      Ring() && output == (if kernel.factor == 1 then input else Ready(input))
    }

    constructor (kernel: Kernel<F>)
      requires ValidKernel(kernel)
      ensures Valid() && fresh(history) && this.kernel == kernel && fed == [] && !flushed
    {
      this.kernel := kernel;
      history := new int[TAPS](_ => 0);
      input, output, flushed, fed := 0, 0, false, [];
    }

    /** One output value: the inner loop over the taps. */
    method Interpolate(phase: nat) returns (value: int)
      requires Ring() && kernel.factor > 1 && phase < kernel.factor && input == output + LOOKAHEAD + 1
      ensures value == Sample(kernel, fed, output, phase)
    {
      var acc := kernel.zero;
      for tap := 0 to TAPS
        invariant acc == Fold(kernel, fed, output, phase, tap)
      {
        var index := output + tap - BEFORE;
        if index >= 0 {
          assert history[index % 64] == fed[index];
          acc := kernel.mac(acc, history[index % 64], kernel.coefficients[phase][tap]);
        }
      }
      value := kernel.quantise(acc);
    }

    /** All phases of the position the newest sample has completed. */
    method EmitPosition() returns (values: seq<int>)
      requires Ring() && kernel.factor > 1 && input == output + LOOKAHEAD + 1
      ensures values == Phases(kernel, fed, output, kernel.factor)
    {
      values := [];
      for phase := 0 to kernel.factor
        invariant values == Phases(kernel, fed, output, phase)
      {
        var value := Interpolate(phase);
        values := values + [value];
      }
    }

    /** Overwrites the oldest slot of the ring. */
    method Push(value: int)
      requires Ring() && kernel.factor > 1
      modifies history, this`input, this`fed
      ensures Ring() && fed == old(fed) + [value]
    {
      ghost var n := input;
      history[input % 64] := value;
      input := input + 1;
      fed := fed + [value];
      forall i | 0 <= i < |fed| && |fed| - TAPS <= i
        ensures history[i % 64] == fed[i]
      {
        if i < n {
          DistinctSlots(i, n);
        }
      }
    }

    /** One turn of Process: a sample goes in, and a position comes out once it is complete. */
    method Feed(value: int) returns (values: seq<int>)
      requires Valid() && kernel.factor > 1
      modifies this`input, this`output, this`fed, history
      ensures Valid() && fed == old(fed) + [value]
      ensures values == if old(|fed|) < LOOKAHEAD then []
                      else Phases(kernel, fed, old(|fed|) - LOOKAHEAD, kernel.factor)
    {
      values := [];
      Push(value);
      if output + LOOKAHEAD >= input {
        return;
      }
      values := EmitPosition();
      output := output + 1;
    }

    /** The sample loop has fed the first `i` samples of `pcm` on top of `start`, and `out`, after
        `first`, is all that can be emitted. */
    ghost predicate Running(pcm: seq<int>, i: nat, start: seq<int>, first: seq<int>, out: seq<int>)
      reads this, history
    {
      && Valid() && kernel.factor > 1 && i <= |pcm|
      && fed == start + pcm[..i] && first + out == Emitted(kernel, fed)
    }

    /** One turn of the sample loop. */
    method FeedNext(pcm: seq<int>, i: nat, ghost start: seq<int>, ghost first: seq<int>, out: seq<int>)
      returns (out': seq<int>)
      requires i < |pcm| && Running(pcm, i, start, first, out)
      modifies this`input, this`output, this`fed, history
      ensures Running(pcm, i + 1, start, first, out')
    {
      ghost var x := fed;
      var values := Feed(pcm[i]);
      out' := out + values;
      EmittedOnto(kernel, x, pcm[i], first, out, values);
      OneMore(start, pcm, i);
    }

    /** The sample loop of Process. */
    method Filter(pcm: seq<int>) returns (out: seq<int>)
      requires Valid() && kernel.factor > 1
      modifies this`input, this`output, this`fed, history
      ensures Valid() && fed == old(fed) + pcm
      ensures Emitted(kernel, old(fed)) + out == Emitted(kernel, fed)
    {
      out := [];
      ghost var start, first := fed, Emitted(kernel, fed);
      assert pcm[..0] == [] && start + [] == start && first + [] == first;
      for i := 0 to |pcm|
        invariant Running(pcm, i, start, first, out)
      {
        out := FeedNext(pcm, i, start, first, out);
      }
      assert pcm[..|pcm|] == pcm;
    }

    /** Process: the calls' results concatenate to everything the samples so far determine. */
    method Process(pcm: seq<int>) returns (out: seq<int>)
      requires Valid()
      modifies this`input, this`output, this`fed, history
      ensures Valid() && fed == old(fed) + (if flushed then [] else pcm)
      ensures Emitted(kernel, old(fed)) + out == Emitted(kernel, fed)
      ensures flushed || pcm == [] ==> out == []
      ensures output == if kernel.factor == 1 then input else if input <= 32 then 0 else input - 32
    {
      out := [];
      if flushed || |pcm| == 0 {
        return;
      }
      if kernel.factor == 1 {
        input := input + |pcm|;
        output := input;
        fed := fed + pcm;
        return pcm;
      }
      out := Filter(pcm);
    }

    /** Flush: supplies the lookahead once; everything fed before it is then complete. */
    method Flush() returns (out: seq<int>)
      requires Valid()
      modifies this, history
      ensures Valid() && flushed
      ensures old(flushed) ==> out == [] && fed == old(fed)
      ensures !old(flushed) ==> Emitted(kernel, old(fed)) + out == Upsampled(kernel, old(fed))
    {
      out := [];
      if flushed {
        return;
      }
      if kernel.factor != 1 && input > 0 {
        out := Process(Silence(input));
      }
      flushed := true;
      FlushCompletes(kernel, old(fed));
      assert old(fed) + [] == old(fed);
    }
  }

  lemma DistinctSlots(i: nat, n: nat)
    requires n - TAPS < i < n
    ensures i % 64 != n % 64
  {
  }

  function Concat(chunks: seq<seq<int>>): seq<int> {
    if chunks == [] then [] else Concat(chunks[..|chunks| - 1]) + chunks[|chunks| - 1]
  }

  /** Any chunking of any signal, then Flush: exactly the whole-signal result, N * factor samples
      of it, and nothing afterwards. */
  method ResampleChunks<F>(kernel: Kernel<F>, chunks: seq<seq<int>>, extra: seq<int>)
    returns (out: seq<int>, more: seq<int>)
    requires ValidKernel(kernel)
    ensures out == Upsampled(kernel, Concat(chunks))
    ensures |out| == |Concat(chunks)| * kernel.factor
    ensures more == []
  {
    var u := new Upsampler(kernel);
    out := [];
    for i := 0 to |chunks|
      invariant u.Valid() && !u.flushed && u.kernel == kernel && fresh(u) && fresh(u.history)
      invariant u.fed == Concat(chunks[..i]) && out == Emitted(kernel, u.fed)
    {
      var piece := u.Process(chunks[i]);
      out := out + piece;
      assert chunks[..i + 1][..i] == chunks[..i];
    }
    assert chunks[..|chunks|] == chunks;
    var tail := u.Flush();
    out := out + tail;
    var again := u.Process(extra);
    more := u.Flush();
    more := again + more;
    UpsampledLength(kernel, Concat(chunks));
  }
}
