/** The AAC encode and drain loops against a codec that may answer anything. Only the loop
    protocol is modelled: what the codec is offered, what is kept of its answers, and how the
    int32 arithmetic on sample counts behaves. */
module AacEncoder {
  const OK := 0x0000
  const EOF := 0x0080
  const OUT_SIZE := 8192
  const DRAIN_CALLS := 20
  const SAFE_SAMPLES := 0x4000_0000

  type Byte = n: int | 0 <= n < 0x100
  type Int16 = n: int | -0x8000 <= n < 0x8000
  type Buffer = b: seq<Byte> | |b| == 8192 witness seq(8192, _ => 0)

  /** Go's int32 conversion of an integer. */
  function ToInt32(n: int): int {
    var m := n % 0x1_0000_0000;
    if m < 0x8000_0000 then m else m - 0x1_0000_0000
  }

  /** It is the number in the signed range that differs from `n` by a multiple of 2^32. */
  lemma ToInt32Iff(n: int, r: int)
    ensures ToInt32(n) == r <==> -0x8000_0000 <= r < 0x8000_0000 && (n - r) % 0x1_0000_0000 == 0
  {
    var q := n / 0x1_0000_0000;
    assert n == 0x1_0000_0000 * q + n % 0x1_0000_0000;
    assert (n - ToInt32(n)) % 0x1_0000_0000 == 0;
    if -0x8000_0000 <= r < 0x8000_0000 && (n - r) % 0x1_0000_0000 == 0 {
      assert (ToInt32(n) - r) % 0x1_0000_0000 == 0;
    }
  }

  /** Sample counts and byte counts survive the int32 arithmetic exactly below 2^30 samples. */
  lemma WidthsExactIff(n: nat)
    ensures ToInt32(n) == n && ToInt32(2 * n) == 2 * n <==> n < SAFE_SAMPLES
  {
    if n >= SAFE_SAMPLES && ToInt32(n) == n {
      assert n < 0x8000_0000;
    }
  }

  // ---------------------------------------------------------------- little-endian PCM

  function Low(s: Int16): Byte { (s % 0x1_0000) % 0x100 }
  function High(s: Int16): Byte { (s % 0x1_0000) / 0x100 }

  function LittleEndian(pcm: seq<Int16>): (b: seq<Byte>)
    ensures |b| == 2 * |pcm|
  {
    if pcm == [] then [] else LittleEndian(pcm[..|pcm| - 1]) + [Low(pcm[|pcm| - 1]), High(pcm[|pcm| - 1])]
  }

  function FromBytes(lo: Byte, hi: Byte): Int16 {
    var u := hi * 0x100 + lo;
    if u < 0x8000 then u else u - 0x1_0000
  }

  lemma {:induction false} LittleEndianAt(pcm: seq<Int16>, i: nat)
    requires i < |pcm|
    ensures LittleEndian(pcm)[2 * i] == Low(pcm[i]) && LittleEndian(pcm)[2 * i + 1] == High(pcm[i])
    ensures LittleEndian(pcm)[2 * i] == pcm[i] % 0x100 && LittleEndian(pcm)[2 * i + 1] == pcm[i] / 0x100 % 0x100
    ensures FromBytes(LittleEndian(pcm)[2 * i], LittleEndian(pcm)[2 * i + 1]) == pcm[i]
  {
    if i < |pcm| - 1 {
      LittleEndianAt(pcm[..|pcm| - 1], i);
    }
  }

  /** What lies at byte 2c of the buffer is the buffer of the samples from c on. */
  lemma {:induction false} LittleEndianSuffix(pcm: seq<Int16>, c: nat)
    requires c <= |pcm|
    ensures LittleEndian(pcm)[2 * c..] == LittleEndian(pcm[c..])
  {
    if c < |pcm| {
      var n := |pcm| - 1;
      LittleEndianSuffix(pcm[..n], c);
      assert pcm[c..][..n - c] == pcm[..n][c..];
      assert pcm[c..][n - c] == pcm[n];
    }
  }

  // ---------------------------------------------------------------- the codec

  datatype Reply = Reply(rc: int, numOutBytes: int, numInSamples: int, out: Buffer)

  /** One codec call: the byte count of its input descriptor, the bytes that covers, the sample
      count announced, and the answer. */
  datatype Call = Call(size: int, offered: seq<Byte>, announced: int, reply: Reply)

  /** Handles are the library's own; 0 stands for none. */
  class Codec {
    var calls: seq<Call>
    var closes: seq<nat>

    constructor ()
      ensures calls == [] && closes == []
    {
      calls, closes := [], [];
    }

    /** Any answer at all. */
    method Encode(size: int, offered: seq<Byte>, announced: int) returns (reply: Reply)
      modifies this`calls
      ensures calls == old(calls) + [Call(size, offered, announced, reply)]
    {
      reply := *;
      calls := calls + [Call(size, offered, announced, reply)];
    }

    method Close(handle: nat)
      modifies this`closes
      ensures closes == old(closes) + [handle]
    {
      closes := closes + [handle];
    }
  }

  /** The access unit a reply yields, if any. */
  function Unit(r: Reply): seq<seq<Byte>> {
    if r.rc == OK && 0 < r.numOutBytes <= OUT_SIZE then [r.out[..r.numOutBytes]] else []
  }

  /** The access units of the first `n` replies. */
  function UnitsTo(calls: seq<Call>, n: nat): seq<seq<Byte>>
    requires n <= |calls|
  {
    if n == 0 then [] else UnitsTo(calls, n - 1) + Unit(calls[n - 1].reply)
  }

  function Units(calls: seq<Call>): seq<seq<Byte>> { UnitsTo(calls, |calls|) }

  /** Samples the codec says it took in the first `n` calls. */
  function Taken(calls: seq<Call>, n: nat): int
    requires n <= |calls|
  {
    if n == 0 then 0 else Taken(calls, n - 1) + calls[n - 1].reply.numInSamples
  }

  lemma {:induction false} PrefixStays(calls: seq<Call>, c: Call, n: nat)
    requires n <= |calls|
    ensures UnitsTo(calls + [c], n) == UnitsTo(calls, n) && Taken(calls + [c], n) == Taken(calls, n)
  {
    if n > 0 {
      PrefixStays(calls, c, n - 1);
    }
  }

  lemma {:induction false} UnitsAppend(calls: seq<Call>, c: Call)
    ensures Units(calls + [c]) == Units(calls) + Unit(c.reply)
    ensures Taken(calls + [c], |calls| + 1) == Taken(calls, |calls|) + c.reply.numInSamples
  {
    PrefixStays(calls, c, |calls|);
  }

  /** Which of the first `n` replies bring 1 to 8192 bytes with code 0. */
  ghost function Yielding(calls: seq<Call>, n: nat): (sel: seq<nat>)
    requires n <= |calls|
    ensures forall m :: 0 <= m < |sel| ==> sel[m] < n
  {
    if n == 0 then []
    else
      var r := calls[n - 1].reply;
      Yielding(calls, n - 1) + (if r.rc == 0 && 1 <= r.numOutBytes <= 8192 then [n - 1] else [])
  }

  lemma {:induction false} YieldingIff(calls: seq<Call>, n: nat, i: nat)
    requires n <= |calls| && i < n
    ensures i in Yielding(calls, n) <==> calls[i].reply.rc == 0 && 1 <= calls[i].reply.numOutBytes <= 8192
  {
    if i < n - 1 {
      YieldingIff(calls, n - 1, i);
    }
  }

  lemma {:induction false} YieldingRises(calls: seq<Call>, n: nat, l: nat, m: nat)
    requires n <= |calls| && l < m < |Yielding(calls, n)|
    ensures Yielding(calls, n)[l] < Yielding(calls, n)[m]
  {
    if m < |Yielding(calls, n - 1)| {
      YieldingRises(calls, n - 1, l, m);
    }
  }

  lemma {:induction false} UnitAt(calls: seq<Call>, n: nat, m: nat)
    requires n <= |calls|
    ensures |UnitsTo(calls, n)| == |Yielding(calls, n)|
    ensures m < |Yielding(calls, n)| ==>
              var r := calls[Yielding(calls, n)[m]].reply;
              1 <= r.numOutBytes <= 8192 && UnitsTo(calls, n)[m] == r.out[..r.numOutBytes]
  {
    if n > 0 {
      UnitAt(calls, n - 1, m);
    }
  }

  /** The frames of Encode and Flush are, in order, one for each reply that brings 1 to 8192 bytes
      with code 0: that many bytes, each as it stands in the output buffer. */
  lemma FramesAreReplies(calls: seq<Call>)
    ensures var frames, sel := Units(calls), Yielding(calls, |calls|);
            && |frames| == |sel|
            && (forall i: nat :: i < |calls| ==>
                  (i in sel <==> calls[i].reply.rc == 0 && 1 <= calls[i].reply.numOutBytes <= 8192))
            && (forall l, m :: 0 <= l < m < |sel| ==> sel[l] < sel[m])
            && (forall m :: 0 <= m < |sel| ==> |frames[m]| == calls[sel[m]].reply.numOutBytes <= 8192)
            && (forall m, b :: 0 <= m < |sel| && 0 <= b < |frames[m]| ==> frames[m][b] == calls[sel[m]].reply.out[b])
  {
    var frames, sel := Units(calls), Yielding(calls, |calls|);
    UnitAt(calls, |calls|, 0);
    forall i: nat | i < |calls|
      ensures i in sel <==> calls[i].reply.rc == 0 && 1 <= calls[i].reply.numOutBytes <= 8192
    {
      YieldingIff(calls, |calls|, i);
    }
    forall l, m | 0 <= l < m < |sel|
      ensures sel[l] < sel[m]
    {
      YieldingRises(calls, |calls|, l, m);
    }
    forall m | 0 <= m < |sel|
      ensures |frames[m]| == calls[sel[m]].reply.numOutBytes <= 8192
      ensures frames[m] == calls[sel[m]].reply.out[..|frames[m]|]
    {
      UnitAt(calls, |calls|, m);
    }
  }

  /** How a call of Encode ends; Complete and Ended are the nil errors. */
  datatype Outcome = Complete | Ended | Failed(rc: int) | BadOutput | BadInput | NoEnd | Refused | Panicked

  /** What the loop makes of a reply with `left` samples outstanding; Complete means go on. */
  function Verdict(r: Reply, left: int): Outcome {
    if r.rc == EOF then Ended
    else if r.rc != OK then Failed(r.rc)
    else if r.numOutBytes < 0 || r.numOutBytes > OUT_SIZE then BadOutput
    else if r.numInSamples <= 0 || r.numInSamples > left then BadInput
    else Complete
  }

  /** Every reply came with code 0 and 0 to 8192 bytes. */
  ghost predicate AllGood(calls: seq<Call>) {
    forall i :: 0 <= i < |calls| ==> calls[i].reply.rc == 0 && 0 <= calls[i].reply.numOutBytes <= 8192
  }

  /** What the end says about the replies, all but the last of which were good: EOF came last, an
      error code came last and is reported, or the last size was out of range; any other end means
      that they were all good. */
  ghost predicate EndTells(calls: seq<Call>, end: Outcome) {
    if AllGood(calls) then !end.Ended? && !end.Failed? && !end.BadOutput? && (end.BadInput? ==> calls != [])
    else
      var n := |calls| - 1;
      var r := calls[n].reply;
      && AllGood(calls[..n])
      && end == if r.rc == 0x80 then Ended else if r.rc != 0 then Failed(r.rc) else BadOutput
  }

  lemma {:induction false} GoodOrTold(calls: seq<Call>, c: Call, end: Outcome)
    requires AllGood(calls)
    requires var r := c.reply;
             if r.rc == 0 && 0 <= r.numOutBytes <= 8192 then end.Complete? || end.BadInput?
             else end == if r.rc == 0x80 then Ended else if r.rc != 0 then Failed(r.rc) else BadOutput
    ensures EndTells(calls + [c], end)
    ensures end.Complete? ==> AllGood(calls + [c])
  {
    assert (calls + [c])[..|calls|] == calls;
    assert (calls + [c])[|calls|] == c;
  }

  /** What Flush makes of a reply; Complete means go on. */
  function DrainVerdict(r: Reply): Outcome {
    if r.rc == EOF then Ended
    else if r.rc != OK then Failed(r.rc)
    else if r.numOutBytes < 0 || r.numOutBytes > OUT_SIZE then BadOutput
    else Complete
  }

  /** A call of Flush has no input descriptor and announces -1. */
  predicate DrainCall(c: Call) { c.size == 0 && c.offered == [] && c.announced == -1 }

  /** With `taken` samples gone, the call offers exactly the others, in little-endian form, with a
      descriptor of their size in bytes. */
  ghost predicate OffersRest(pcm: seq<Int16>, taken: int, c: Call) {
    && 0 <= taken < |pcm|
    && c.size == 2 * (|pcm| - taken)
    && c.offered == LittleEndian(pcm[taken..])
    && c.announced == |pcm| - taken
  }

  /** The first `n` calls all went well. */
  ghost predicate Progress(pcm: seq<Int16>, calls: seq<Call>, n: nat)
    requires n <= |calls|
  {
    n == 0 ||
    (&& Progress(pcm, calls, n - 1)
     && OffersRest(pcm, Taken(calls, n - 1), calls[n - 1])
     && Verdict(calls[n - 1].reply, |pcm| - Taken(calls, n - 1)).Complete?)
  }

  /** The whole exchange of one Encode: good calls until every sample is taken exactly once, or
      good calls and one more whose reply decides how it ended. */
  ghost predicate Exchange(pcm: seq<Int16>, calls: seq<Call>, end: Outcome) {
    if end.Complete? then Progress(pcm, calls, |calls|) && Taken(calls, |calls|) == |pcm|
    else
      && calls != []
      && var n := |calls| - 1;
         && Progress(pcm, calls, n)
         && OffersRest(pcm, Taken(calls, n), calls[n]) && end == Verdict(calls[n].reply, |pcm| - Taken(calls, n))
  }

  lemma {:induction false} ProgressBounds(pcm: seq<Int16>, calls: seq<Call>, n: nat)
    requires n <= |calls| && Progress(pcm, calls, n)
    ensures n <= Taken(calls, n) <= |pcm|
  {
    if n > 0 {
      ProgressBounds(pcm, calls, n - 1);
    }
  }

  lemma {:induction false} ProgressStarts(pcm: seq<Int16>, calls: seq<Call>, n: nat)
    requires 1 <= n <= |calls| && Progress(pcm, calls, n)
    ensures OffersRest(pcm, 0, calls[0])
  {
    if n > 1 {
      ProgressStarts(pcm, calls, n - 1);
    }
  }

  /** An exchange starts by offering everything. */
  lemma {:induction false} BadStart(pcm: seq<Int16>, calls: seq<Call>, end: Outcome)
    requires if calls == [] then pcm != [] else !OffersRest(pcm, 0, calls[0])
    ensures !Exchange(pcm, calls, end)
  {
    var n := |calls|;
    if n > 0 && Progress(pcm, calls, n) {
      ProgressStarts(pcm, calls, n);
    } else if n > 1 && Progress(pcm, calls, n - 1) {
      ProgressStarts(pcm, calls, n - 1);
    }
  }

  lemma {:induction false} ProgressStays(pcm: seq<Int16>, calls: seq<Call>, c: Call, n: nat)
    requires n <= |calls| && Progress(pcm, calls, n)
    ensures Progress(pcm, calls + [c], n)
  {
    if n > 0 {
      ProgressStays(pcm, calls, c, n - 1);
      PrefixStays(calls, c, n - 1);
    }
  }

  lemma {:induction false} ProgressAppend(pcm: seq<Int16>, calls: seq<Call>, c: Call)
    requires Progress(pcm, calls, |calls|) && OffersRest(pcm, Taken(calls, |calls|), c)
    ensures var end := Verdict(c.reply, |pcm| - Taken(calls, |calls|));
            if end.Complete? then Progress(pcm, calls + [c], |calls| + 1) else Exchange(pcm, calls + [c], end)
  {
    var n, calls' := |calls|, calls + [c];
    PrefixStays(calls, c, n);
    ProgressStays(pcm, calls, c, n);
    assert calls'[n] == c && OffersRest(pcm, Taken(calls', n), calls'[n]) && Progress(pcm, calls', n);
    if Verdict(c.reply, |pcm| - Taken(calls, n)).Complete? {
      assert Progress(pcm, calls', n + 1);
    }
  }

  // ---------------------------------------------------------------- what the loop of Encode keeps

  /** What the call made at `consumed` hands over: the rest of the samples while the input has
      fewer than 2^30, and never the whole input from there on. */
  ghost predicate Handed(pcm: seq<Int16>, consumed: nat, c: Call) {
    && (|pcm| < SAFE_SAMPLES ==> OffersRest(pcm, consumed, c))
    && (|pcm| >= SAFE_SAMPLES && consumed == 0 ==> !OffersRest(pcm, 0, c))
  }

  ghost predicate Sound(pcm: seq<Int16>, made: seq<Call>, consumed: nat) {
    && |made| <= consumed && (made == [] ==> consumed == 0)
    && (|pcm| < SAFE_SAMPLES ==> consumed == Taken(made, |made|) && Progress(pcm, made, |made|))
    && (|pcm| >= SAFE_SAMPLES && made != [] ==> !OffersRest(pcm, 0, made[0]))
  }

  lemma {:induction false} SoundWide(pcm: seq<Int16>, made: seq<Call>, consumed: nat, end: Outcome)
    requires Sound(pcm, made, consumed) && |pcm| >= SAFE_SAMPLES
    ensures !Exchange(pcm, made, end)
  {
    BadStart(pcm, made, end);
  }

  lemma {:induction false} SoundNext(pcm: seq<Int16>, made: seq<Call>, consumed: nat, c: Call)
    requires Sound(pcm, made, consumed) && Handed(pcm, consumed, c)
    ensures var end := Verdict(c.reply, ToInt32(|pcm|) - consumed);
            if end.Complete? then Sound(pcm, made + [c], consumed + c.reply.numInSamples)
            else Exchange(pcm, made + [c], end) <==> |pcm| < SAFE_SAMPLES
  {
    UnitsAppend(made, c);
    if |pcm| < SAFE_SAMPLES {
      WidthsExactIff(|pcm|);
      ProgressAppend(pcm, made, c);
    } else {
      assert (made + [c])[0] == if made == [] then c else made[0];
      BadStart(pcm, made + [c], Verdict(c.reply, ToInt32(|pcm|) - consumed));
    }
  }

  /** One turn, on the specification. */
  lemma {:induction false} TurnKeeps(pcm: seq<Int16>, made: seq<Call>, consumed: nat, c: Call, end: Outcome)
    requires Sound(pcm, made, consumed) && Handed(pcm, consumed, c) && AllGood(made)
    requires end == Verdict(c.reply, ToInt32(|pcm|) - consumed)
    ensures Units(made + [c]) == Units(made) + Unit(c.reply) && EndTells(made + [c], end) && !end.Refused?
    ensures if end.Complete? then
              && Sound(pcm, made + [c], consumed + c.reply.numInSamples) && AllGood(made + [c])
              && 1 <= c.reply.numInSamples <= ToInt32(|pcm|) - consumed
            else Exchange(pcm, made + [c], end) <==> |pcm| < SAFE_SAMPLES
  {
    UnitsAppend(made, c);
    SoundNext(pcm, made, consumed, c);
    GoodOrTold(made, c, end);
  }

  lemma {:induction false} SoundEnd(pcm: seq<Int16>, made: seq<Call>, consumed: nat)
    requires Sound(pcm, made, consumed) && ToInt32(|pcm|) <= consumed
    ensures Exchange(pcm, made, Complete) <==> |pcm| < SAFE_SAMPLES
  {
    if |pcm| < SAFE_SAMPLES {
      WidthsExactIff(|pcm|);
      ProgressBounds(pcm, made, |made|);
    } else {
      SoundWide(pcm, made, consumed, Complete);
    }
  }

  /** The descriptor of the call at `consumed` is right below 2^30 samples; from there on the
      first one is wrong, in its byte count if not in its sample count. */
  lemma {:induction false} DescriptorIs(pcm: seq<Int16>, consumed: nat, c: Call)
    requires consumed < ToInt32(|pcm|) && c.announced == ToInt32(|pcm|) - consumed && c.size == ToInt32(2 * c.announced)
    requires |pcm| < SAFE_SAMPLES ==> c.offered == LittleEndian(pcm[consumed..])
    ensures Handed(pcm, consumed, c)
  {
    WidthsExactIff(|pcm|);
    if |pcm| < SAFE_SAMPLES {
      WidthsExactIff(|pcm| - consumed);
    }
  }

  /** In an exchange the error about consumed input comes exactly when the last reply, good
      otherwise, takes no sample or more than are left. */
  lemma {:induction false} BadInputIff(pcm: seq<Int16>, calls: seq<Call>, end: Outcome)
    requires Exchange(pcm, calls, end) && calls != []
    ensures var n := |calls| - 1;
            var r := calls[n].reply;
            end.BadInput? <==>
              && r.rc == 0 && 0 <= r.numOutBytes <= 8192
              && !(1 <= r.numInSamples <= |pcm| - Taken(calls, n))
  {
  }

  class Encoder {
    const codec: Codec
    var handle: nat
    var drained: bool
    var scratch: array<Byte>

    constructor (codec: Codec, handle: nat)
      ensures this.codec == codec && this.handle == handle && !drained && fresh(scratch)
    {
      this.codec, this.handle, drained := codec, handle, false;
      scratch := new Byte[0];
    }

    /** Converts in place, reusing the buffer when it is large enough. */
    method FillScratch(pcm: seq<Int16>)
      modifies this`scratch, scratch
      ensures scratch == old(scratch) || fresh(scratch)
      ensures scratch.Length >= 2 * |pcm| && scratch[..2 * |pcm|] == LittleEndian(pcm)
    {
      var buffer := scratch;
      if buffer.Length < 2 * |pcm| {
        buffer := new Byte[2 * |pcm|];
      }
      for i := 0 to |pcm|
        invariant buffer[..2 * i] == LittleEndian(pcm[..i])
      {
        assert pcm[..i + 1][..i] == pcm[..i];
        buffer[2 * i] := Low(pcm[i]);
        buffer[2 * i + 1] := High(pcm[i]);
        assert buffer[..2 * (i + 1)] == buffer[..2 * i] + [Low(pcm[i]), High(pcm[i])];
      }
      assert pcm[..|pcm|] == pcm;
      scratch := buffer;
    }

    /** One turn's descriptor and call, in int32 arithmetic. A negative or too large offset is an
        index panic. Below 2^30 samples neither that nor a wrapped size happens. */
    method Offer(pcm: seq<Int16>, totalSamples: int, consumed: nat)
      returns (panic: bool, reply: Reply, ghost call: Call)
      requires scratch.Length >= 2 * |pcm| && scratch[..2 * |pcm|] == LittleEndian(pcm)
      requires consumed < totalSamples == ToInt32(|pcm|)
      modifies codec`calls
      ensures call.announced == totalSamples - consumed && call.size == ToInt32(2 * call.announced) &&
                call.reply == reply
      ensures panic <==> !(0 <= ToInt32(2 * consumed) < 2 * |pcm|)
      ensures codec.calls == old(codec.calls) + (if panic then [] else [call])
      ensures (panic ==> |pcm| >= SAFE_SAMPLES) && Handed(pcm, consumed, call)
    {
      var offset, size := ToInt32(consumed * 2), ToInt32((totalSamples - consumed) * 2);
      var offered := [];
      panic := offset < 0 || offset >= 2 * |pcm|;
      if panic {
        reply := *;
      } else {
        if 0 <= size && offset + size <= 2 * |pcm| {
          offered := scratch[offset..offset + size];
        }
        reply := codec.Encode(size, offered, totalSamples - consumed);
      }
      call := Call(size, offered, totalSamples - consumed, reply);
      if |pcm| < SAFE_SAMPLES {
        WidthsExactIff(|pcm|);
        WidthsExactIff(consumed);
        WidthsExactIff(|pcm| - consumed);
        LittleEndianSuffix(pcm, consumed);
        assert scratch[2 * consumed..2 * |pcm|] == scratch[..2 * |pcm|][2 * consumed..];
      }
      DescriptorIs(pcm, consumed, call);
    }

    /** One turn of the loop of Encode, after the calls `made` since `base`. */
    method Turn(pcm: seq<Int16>, totalSamples: int, consumed: nat, frames: seq<seq<Byte>>, ghost base: seq<Call>,
        ghost made: seq<Call>)
      returns (frames': seq<seq<Byte>>, end: Outcome, consumed': nat, ghost made': seq<Call>)
      requires scratch.Length >= 2 * |pcm| && scratch[..2 * |pcm|] == LittleEndian(pcm)
      requires consumed < totalSamples == ToInt32(|pcm|) && codec.calls == base + made
      requires frames == Units(made) && Sound(pcm, made, consumed) && AllGood(made)
      modifies codec`calls
      ensures codec.calls == base + made' && frames' == Units(made') && |made'| <= |made| + 1 && !end.Refused?
      ensures EndTells(made', end) && (end.Complete? ==> AllGood(made'))
      ensures end.Complete? ==> Sound(pcm, made', consumed') && consumed < consumed' <= totalSamples
      ensures !end.Complete? ==> (Exchange(pcm, made', end) <==> |pcm| < SAFE_SAMPLES)
    {
      var panic, reply, call := Offer(pcm, totalSamples, consumed);
      if panic {
        SoundWide(pcm, made, consumed, Panicked);
        return frames, Panicked, consumed, made;
      }
      end := Verdict(reply, totalSamples - consumed);
      TurnKeeps(pcm, made, consumed, call, end);
      made' := made + [call];
      frames' := frames + Unit(reply);
      consumed' := if end.Complete? then consumed + reply.numInSamples else consumed;
    }

    /** The loop of Encode. */
    method Exchanges(pcm: seq<Int16>) returns (frames: seq<seq<Byte>>, end: Outcome, ghost made: seq<Call>)
      requires scratch.Length >= 2 * |pcm| && scratch[..2 * |pcm|] == LittleEndian(pcm)
      modifies codec`calls
      ensures codec.calls == old(codec.calls) + made && !end.Refused?
      ensures |made| <= |pcm| && frames == Units(made)
      ensures (Exchange(pcm, made, end) <==> |pcm| < 0x4000_0000) && EndTells(made, end)
    {
      frames, end, made := [], Complete, [];
      var totalSamples := ToInt32(|pcm|);
      var consumed: nat := 0;
      while consumed < totalSamples
        invariant codec.calls == old(codec.calls) + made
        invariant end.Complete? && (0 < consumed ==> consumed <= totalSamples)
        invariant frames == Units(made) && Sound(pcm, made, consumed) && AllGood(made)
      {
        frames, end, consumed, made := Turn(pcm, totalSamples, consumed, frames, old(codec.calls), made);
        if !end.Complete? {
          return;
        }
      }
      SoundEnd(pcm, made, consumed);
    }

    /** Encode. Whatever the codec answers: at most one call per sample; each call is offered
        exactly the unconsumed suffix, and Complete means every sample was taken once, in order,
        exactly when the input is shorter than 2^30 samples. A closed or drained encoder never
        reaches the codec. */
    method Encode(pcm: seq<Int16>) returns (frames: seq<seq<Byte>>, end: Outcome, ghost made: seq<Call>)
      modifies this`scratch, scratch, codec`calls
      ensures codec.calls == old(codec.calls) + made
      ensures |made| <= |pcm| && frames == Units(made)
      ensures (end.Refused? <==> handle == 0 || drained) && (end.Refused? ==> made == [])
      ensures !end.Refused? ==> (Exchange(pcm, made, end) <==> |pcm| < 0x4000_0000)
      ensures EndTells(made, end)
    {
      frames, made := [], [];
      if handle == 0 || drained {
        end := Refused;
        return;
      }
      if |pcm| == 0 {
        end := Complete;
        return;
      }
      FillScratch(pcm);
      frames, end, made := Exchanges(pcm);
    }

    /** Flush: drains once, with at most 20 calls that announce -1 and offer nothing; it succeeds
        exactly when the codec says EOF, keeping every unit that came before. */
    method Flush() returns (frames: seq<seq<Byte>>, end: Outcome, ghost made: seq<Call>)
      modifies this`drained, codec`calls
      ensures codec.calls == old(codec.calls) + made && drained == (old(drained) || handle != 0)
      ensures |made| <= 20 && frames == Units(made)
      ensures forall i :: 0 <= i < |made| ==> made[i].size == 0 && made[i].offered == [] && made[i].announced == -1
      ensures EndTells(made, end) && (end.NoEnd? <==> |made| == 20 && AllGood(made))
      ensures end.Refused? <==> handle == 0
      ensures end.Complete? <==> handle != 0 && old(drained)
      ensures end.Refused? || end.Complete? ==> made == []
      ensures end.Ended? <==> made != [] && made[|made| - 1].reply.rc == EOF
    {
      frames, made := [], [];
      if handle == 0 {
        end := Refused;
        return;
      }
      if drained {
        end := Complete;
        return;
      }
      drained := true;
      ghost var base := codec.calls;
      for i := 0 to DRAIN_CALLS
        invariant drained && codec.calls == base + made
        invariant |made| == i && frames == Units(made)
        invariant AllGood(made) && forall j :: 0 <= j < |made| ==> DrainCall(made[j])
      {
        var reply := codec.Encode(0, [], -1);
        ghost var call := Call(0, [], -1, reply);
        ghost var before := made;
        UnitsAppend(made, call);
        made := made + [call];
        frames := frames + Unit(reply);
        end := DrainVerdict(reply);
        GoodOrTold(before, call, end);
        if !end.Complete? {
          return;
        }
      }
      end := NoEnd;
    }

    /** Close releases a live handle once; closing again does nothing. */
    method Close()
      modifies this`handle, codec`closes
      ensures handle == 0
      ensures codec.closes == old(codec.closes) + (if old(handle) != 0 then [old(handle)] else [])
    {
      if handle != 0 {
        codec.Close(handle);
        handle := 0;
      }
    }
  }

  /** After a drain the codec is never reached again, whatever is asked of the encoder. */
  method DrainedStaysQuiet(e: Encoder, pcm: seq<Int16>)
    requires e.drained
    modifies e, e.scratch, e.codec
    ensures e.codec.calls == old(e.codec.calls)
  {
    var frames, end, made := e.Encode(pcm);
    frames, end, made := e.Flush();
  }

  /** The pieces taken by the first `n` calls, in order. */
  ghost function Pieces(pcm: seq<Int16>, calls: seq<Call>, n: nat): seq<Int16>
    requires n <= |calls| && Progress(pcm, calls, n)
  {
    if n == 0 then []
    else
      ProgressBounds(pcm, calls, n - 1);
      ProgressBounds(pcm, calls, n);
      Pieces(pcm, calls, n - 1) + pcm[Taken(calls, n - 1)..Taken(calls, n)]
  }

  /** A complete exchange takes every sample exactly once: the pieces are the input. */
  lemma {:induction false} EverySampleOnce(pcm: seq<Int16>, calls: seq<Call>, n: nat)
    requires n <= |calls| && Progress(pcm, calls, n)
    ensures 0 <= Taken(calls, n) <= |pcm| && Pieces(pcm, calls, n) == pcm[..Taken(calls, n)]
    ensures n == |calls| && Exchange(pcm, calls, Complete) ==> Pieces(pcm, calls, n) == pcm
  {
    ProgressBounds(pcm, calls, n);
    if n > 0 {
      EverySampleOnce(pcm, calls, n - 1);
      Joined(pcm, Taken(calls, n - 1), Taken(calls, n));
    }
  }

  lemma Joined(pcm: seq<Int16>, a: nat, b: nat)
    requires a <= b <= |pcm|
    ensures pcm[..a] + pcm[a..b] == pcm[..b]
  {
  }
}
