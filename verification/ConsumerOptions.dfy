/** NewConsumer: which tracks and options are accepted, and the window geometry they give. */
module ConsumerOptions {
  import opened Optional
  import opened AudioRuns

  const MILLISECOND := 1_000_000

  datatype Codec = Pcma | Pcmu | Other
  datatype Track = Track(codec: Codec, clockRate: int, isVideo: bool, channelCount: int)
  datatype Options = Options(window: int, hop: int, packetBuffer: int, windowBuffer: int)

  function Defaulted(o: Options): Options {
    Options(if o.window == 0 then 2_000_000_000 else o.window,
            if o.hop == 0 then 480_000_000 else o.hop,
            if o.packetBuffer == 0 then 64 else o.packetBuffer,
            if o.windowBuffer == 0 then 2 else o.windowBuffer)
  }

  predicate Accepts(track: Track, o: Options) {
    && !track.codec.Other? && track.clockRate == 8000 && !track.isVideo && track.channelCount == 1
    && MILLISECOND <= o.window <= 10_000_000_000 && MILLISECOND <= o.hop <= o.window
    && 1 <= o.packetBuffer <= 1024 && 1 <= o.windowBuffer <= 16
  }

  /** What a caller asked for, or the default where it left a zero. */
  function Asked(value: int, default: int): int { if value == 0 then default else value }

  /** Refused outside the bounds; otherwise a window and a hop of as many whole samples at 8 kHz
      (125 microseconds each) as fit into the durations asked for, with defaults of 2 s and 480 ms,
      and the channel capacities asked for, with defaults of 64 and 2. The hop makes progress and
      fits inside the window, so the window loop terminates and its slices are in range. */
  function NewConsumer(track: Track, opts: Options, law: Law): (r: Option<Config>)
    ensures r.Some? <==>
              && (track.codec.Pcma? || track.codec.Pcmu?) && track.clockRate == 8000
              && !track.isVideo && track.channelCount == 1
              && 1_000_000 <= Asked(opts.window, 2_000_000_000) <= 10_000_000_000
              && 1_000_000 <= Asked(opts.hop, 480_000_000) <= Asked(opts.window, 2_000_000_000)
              && 1 <= Asked(opts.packetBuffer, 64) <= 1024 && 1 <= Asked(opts.windowBuffer, 2) <= 16
    ensures r.Some? ==> ValidConfig(r.value) && 8 <= r.value.hop && r.value.size <= 80_000
    ensures r.Some? ==>
              && 0 <= Asked(opts.window, 2_000_000_000) - 125_000 * r.value.size < 125_000
              && 0 <= Asked(opts.hop, 480_000_000) - 125_000 * r.value.hop < 125_000
              && r.value.packetCap == Asked(opts.packetBuffer, 64)
              && r.value.windowCap == Asked(opts.windowBuffer, 2) && r.value.law == law
  {
    var o := Defaulted(opts);
    if Accepts(track, o) then
      Some(Config(o.window * 8000 / 1_000_000_000, o.hop * 8000 / 1_000_000_000, o.packetBuffer, o.windowBuffer, law))
    else None
  }
}
