/** The audio engine of libs/audio/audio.c: audio buffers, the registry the
    device callback walks, the callback's double-buffer mixing, and the
    refill, seek and update operations of music and audio streams.

    Samples are reals. The mixer is described by which ring frame of each
    buffer lands in which output frame; the volume, pan gain and master
    volume factors multiplied into the samples are left out. Every caller in
    the source creates buffers with two device channels, so a buffer's data
    holds two samples per frame. */
module Audio {
  import opened Common
  import AudioRegistry
  import opened Arith

  type BufferId = AudioRegistry.BufferId

  /** AUDIO_DEVICE_CHANNELS */
  const DeviceChannels: nat := 2

  /** struct audio_buffer. `processed0`/`processed1` are the two
      isSubBufferProcessed flags: true means that half of the ring has been
      played (or never filled) and holds stale data. `cursor` is
      frameCursorPos, which the code never wraps. */
  datatype Buffer = Buffer(
    volume: real,
    pitch: real,
    pan: real,
    playing: bool,
    paused: bool,
    isStreaming: bool,
    processed0: bool,
    processed1: bool,
    sizeInFrames: nat,
    cursor: nat,
    framesProcessed: nat,
    data: seq<real>)

  function Processed(b: Buffer, h: nat): bool
    requires h < 2
  {
    if h == 0 then b.processed0 else b.processed1
  }

  function SetProcessed(b: Buffer, h: nat, v: bool): Buffer
    requires h < 2
  {
    if h == 0 then b.(processed0 := v) else b.(processed1 := v)
  }

  /** The data holds two device samples for every frame of the buffer. */
  predicate WellFormed(b: Buffer) {
    |b.data| >= DeviceChannels * b.sizeInFrames
  }

  /** The device callback only mixes buffers that are playing and not paused. */
  predicate Mixable(b: Buffer) {
    b.playing && !b.paused
  }

  // ---------------------------------------------------------------------
  // Allocation and the registry

  /** What the two `calloc` calls of load_audio_buffer do. */
  datatype Allocation = AllocOk | BufferAllocFails | DataAllocFails

  /** Every buffer of the engine, in registry order, plus the master volume. */
  datatype Session = Session(registry: seq<BufferId>, buffers: map<BufferId, Buffer>, masterVolume: real)

  /** Exactly the allocated buffers are registered, each once. */
  ghost predicate Valid(s: Session) {
    && Distinct(s.registry)
    && (forall id :: id in s.registry <==> id in s.buffers)
    && (forall id :: id in s.buffers ==> WellFormed(s.buffers[id]))
  }

  /** The buffer load_audio_buffer initialises after both allocations
      succeed; `channels` samples per frame, all zero. */
  function NewBuffer(channels: nat, sizeInFrames: nat, usage: int): (b: Buffer)
    ensures b.volume == 1.0 && b.pitch == 1.0 && b.pan == 0.5
    ensures !b.playing && !b.paused && b.cursor == 0 && b.framesProcessed == 0
    ensures b.sizeInFrames == sizeInFrames && |b.data| == channels * sizeInFrames
    ensures forall i :: 0 <= i < |b.data| ==> b.data[i] == 0.0
    ensures b.processed0 == b.processed1 == (usage != 0)
    ensures b.isStreaming <==> usage == 1
  {
    RepeatFacts(0.0, channels * sizeInFrames);
    Buffer(1.0, 1.0, 0.5, false, false, usage == 1, usage != 0, usage != 0,
           sizeInFrames, 0, 0, Repeat(0.0, channels * sizeInFrames))
  }

  /** load_audio_buffer: allocate, initialise and register a buffer under
      the fresh identity `id`; either allocation failing yields NULL and
      leaves the engine as it was. */
  function LoadBuffer(s: Session, id: BufferId, channels: nat, sizeInFrames: nat, usage: int,
                      alloc: Allocation): (r: (Session, Option<BufferId>))
    requires id !in s.buffers
    ensures alloc != AllocOk ==> r == (s, None)
    ensures alloc == AllocOk ==> r.1 == Some(id)
    ensures alloc == AllocOk ==> r.0.registry == s.registry + [id]
    ensures alloc == AllocOk ==> r.0.buffers == s.buffers[id := NewBuffer(channels, sizeInFrames, usage)]
    ensures r.0.masterVolume == s.masterVolume
    ensures Valid(s) && id !in s.registry && channels >= DeviceChannels ==> Valid(r.0)
  {
    if alloc != AllocOk then (s, None)
    else
      var s' := s.(registry := s.registry + [id], buffers := s.buffers[id := NewBuffer(channels, sizeInFrames, usage)]);
      assert Valid(s) && channels >= DeviceChannels ==> Valid(s') by {
        if Valid(s) && channels >= DeviceChannels {
          assert id !in s.registry;
          assert Distinct(s'.registry) by {
            forall i, j | 0 <= i < j < |s'.registry|
              ensures s'.registry[i] != s'.registry[j]
            {
              if j == |s.registry| {
                assert s'.registry[i] == s.registry[i];
              }
            }
          }
        }
      }
      (s', Some(id))
  }

  /** unload_audio_buffer: a NULL handle does nothing; otherwise the
      buffer is unregistered and freed. */
  function UnloadBuffer(s: Session, handle: Option<BufferId>): (r: Session)
    requires handle.Some? ==> handle.value in s.registry
    ensures handle.None? ==> r == s
    ensures handle.Some? ==> r.buffers == s.buffers - {handle.value}
    ensures handle.Some? && Distinct(s.registry) ==>
      forall id :: id in r.registry <==> id in s.registry && id != handle.value
    ensures Valid(s) ==> Valid(r)
  {
    if handle.None? then s
    else
      var id := handle.value;
      var k := IndexOf(s.registry, id);
      var s' := s.(registry := RemoveAt(s.registry, k), buffers := s.buffers - {id});
      assert Distinct(s.registry) ==>
        Distinct(s'.registry) && forall x :: x in s'.registry <==> x in s.registry && x != id by {
        if Distinct(s.registry) {
          AudioRegistry.RemoveAtDistinct(s.registry, k);
        }
      }
      s'
  }

  /** A freshly allocated buffer, then freed, leaves the engine as it was. */
  lemma LoadThenUnload(s: Session, id: BufferId, channels: nat, sizeInFrames: nat, usage: int)
    requires Valid(s)
    requires id !in s.buffers
    ensures var (s1, h) := LoadBuffer(s, id, channels, sizeInFrames, usage, AllocOk);
      h == Some(id) && id in s1.registry && UnloadBuffer(s1, h) == s
  {
    var (s1, h) := LoadBuffer(s, id, channels, sizeInFrames, usage, AllocOk);
    assert id !in s.registry;
    assert s1.registry[|s.registry|] == id;
    assert forall j :: 0 <= j < |s.registry| ==> s1.registry[j] != id by {
      forall j | 0 <= j < |s.registry|
        ensures s1.registry[j] != id
      {
        assert s1.registry[j] == s.registry[j];
      }
    }
    assert RemoveAt(s1.registry, |s.registry|) == s.registry;
    assert s1.buffers - {id} == s.buffers;
  }

  /** set_master_volume */
  function SetMasterVolume(s: Session, volume: real): (r: Session)
    ensures r.masterVolume == volume
    ensures r.registry == s.registry && r.buffers == s.buffers
  {
    s.(masterVolume := volume)
  }

  // ---------------------------------------------------------------------
  // Per-buffer controls (the NULL-handle early returns are the identity)

  /** is_audio_buffer_playing */
  predicate IsPlaying(b: Buffer) {
    b.playing && !b.paused
  }

  /** play_audio_buffer: restart from the beginning; a static buffer's two
      halves become ready, a stream's halves keep their state. */
  function Play(b: Buffer): (r: Buffer)
    ensures IsPlaying(r) && r.cursor == 0 && r.framesProcessed == 0
    ensures !b.isStreaming ==> !r.processed0 && !r.processed1
    ensures b.isStreaming ==> r.processed0 == b.processed0 && r.processed1 == b.processed1
    ensures r.data == b.data && r.sizeInFrames == b.sizeInFrames && r.isStreaming == b.isStreaming
    ensures r.volume == b.volume && r.pitch == b.pitch && r.pan == b.pan
  {
    var r := b.(playing := true, paused := false, cursor := 0, framesProcessed := 0);
    if b.isStreaming then r else r.(processed0 := false, processed1 := false)
  }

  /** stop_audio_buffer: silence and rewind; both halves become stale. */
  function Stop(b: Buffer): (r: Buffer)
    ensures !IsPlaying(r) && !r.playing && !r.paused
    ensures r.cursor == 0 && r.framesProcessed == 0 && r.processed0 && r.processed1
    ensures r.data == b.data && r.sizeInFrames == b.sizeInFrames && r.isStreaming == b.isStreaming
    ensures r.volume == b.volume && r.pitch == b.pitch && r.pan == b.pan
  {
    b.(playing := false, paused := false, cursor := 0, framesProcessed := 0, processed0 := true, processed1 := true)
  }

  /** pause_audio_buffer */
  function Pause(b: Buffer): (r: Buffer)
    ensures !IsPlaying(r) && r.paused
    ensures r.(paused := b.paused) == b
  {
    b.(paused := true)
  }

  /** resume_audio_buffer */
  function Resume(b: Buffer): (r: Buffer)
    ensures !r.paused && (IsPlaying(r) <==> b.playing)
    ensures r.(paused := b.paused) == b
  {
    b.(paused := false)
  }

  /** set_audio_buffer_volume: stored as given, without a range check. */
  function SetVolume(b: Buffer, volume: real): (r: Buffer)
    ensures r.volume == volume && r.(volume := b.volume) == b
  {
    b.(volume := volume)
  }

  /** set_audio_buffer_pitch: a negative pitch is ignored. */
  function SetPitch(b: Buffer, pitch: real): (r: Buffer)
    ensures pitch < 0.0 ==> r == b
    ensures pitch >= 0.0 ==> r.pitch == pitch
    ensures r.(pitch := b.pitch) == b
  {
    if pitch < 0.0 then b else b.(pitch := pitch)
  }

  /** set_audio_buffer_pan: the pan is clamped into [0, 1]. */
  function SetPan(b: Buffer, pan: real): (r: Buffer)
    ensures 0.0 <= r.pan <= 1.0
    ensures 0.0 <= pan <= 1.0 ==> r.pan == pan
    ensures pan < 0.0 ==> r.pan == 0.0
    ensures pan > 1.0 ==> r.pan == 1.0
    ensures r.(pan := b.pan) == b
  {
    b.(pan := if pan < 0.0 then 0.0 else if pan > 1.0 then 1.0 else pan)
  }

  /** Pausing then resuming a playing buffer puts it back exactly as it was. */
  lemma PauseResumeRestores(b: Buffer)
    requires !b.paused
    ensures Resume(Pause(b)) == b
  {
  }

  /** Stopping is idempotent, and a stopped buffer plays again from the
      start once Play is called. */
  lemma StopIdempotent(b: Buffer)
    ensures Stop(Stop(b)) == Stop(b)
    ensures IsPlaying(Play(Stop(b))) && Play(Stop(b)).cursor == 0
  {
  }

  /** Clamping the pan is idempotent. */
  lemma SetPanIdempotent(b: Buffer, pan: real)
    ensures SetPan(SetPan(b, pan), SetPan(b, pan).pan) == SetPan(b, pan)
  {
  }

  // ---------------------------------------------------------------------
  // The mixer (port_audio_callback)

  /** Frames per half of the ring buffer (subBufferSizeFrames). */
  function Half(b: Buffer): nat {
    b.sizeInFrames / 2
  }

  /** The half-buffer segment the `k`-th frame of this callback falls in;
      segment `s` lies in half `s % 2` of the ring. */
  function Segment(b: Buffer, k: nat): nat
    requires b.sizeInFrames >= 2
  {
    (b.cursor + k) / Half(b)
  }

  /** The first segment boundary at which a static buffer stops: the
      smallest multiple of the half size that lies past the cursor and is at
      least the buffer size. */
  function StopBoundary(b: Buffer): nat
    requires b.sizeInFrames >= 2
  {
    StopMultiple(b) * Half(b)
  }

  /** The stop boundary counted in halves. */
  function StopMultiple(b: Buffer): nat
    requires b.sizeInFrames >= 2
  {
    Max(b.cursor / Half(b) + 1, (b.sizeInFrames + Half(b) - 1) / Half(b))
  }

  /** How many frames of one callback a buffer consumes: all of them for a
      stream, up to its stop boundary for a static buffer. */
  function Consumed(b: Buffer, framesPerBuffer: nat): nat
    requires b.sizeInFrames >= 2
  {
    StopBoundaryFacts(b);
    if b.isStreaming then framesPerBuffer
    else Min(framesPerBuffer, StopBoundary(b) - b.cursor)
  }

  /** The ring frame that feeds output frame `k`, or None for silence. A
      half that was stale when the callback began, or that the cursor
      re-enters after passing through it, contributes silence. */
  function ReadAt(b: Buffer, k: nat): Option<nat>
    requires b.sizeInFrames >= 2
  {
    var seg := Segment(b, k);
    if Processed(b, seg % 2) || seg >= Segment(b, 0) + 2 then None
    else Some((b.cursor + k) % b.sizeInFrames)
  }

  function FrameRead(b: Buffer, framesPerBuffer: nat, k: nat): Option<nat>
    requires b.sizeInFrames >= 2
  {
    if k < Consumed(b, framesPerBuffer) then ReadAt(b, k) else None
  }

  /** Some segment in [from, to) lies in half `h`. */
  function Vacated(from: nat, to: nat, h: nat): bool {
    to > from && (to - from >= 2 || from % 2 == h)
  }

  /** The buffer after one callback: cursor and play timing advance by the
      consumed frames, every half the cursor left is marked stale, and a
      static buffer that reaches its end stops. */
  function MixedBuffer(b: Buffer, framesPerBuffer: nat): Buffer
    requires b.sizeInFrames >= 2
  {
    var n := Consumed(b, framesPerBuffer);
    var s0 := Segment(b, 0);
    var s1 := Segment(b, n);
    b.(cursor := b.cursor + n,
       framesProcessed := b.framesProcessed + n,
       processed0 := b.processed0 || Vacated(s0, s1, 0),
       processed1 := b.processed1 || Vacated(s0, s1, 1),
       playing := b.playing && !(!b.isStreaming && n > 0 && b.cursor + n >= b.sizeInFrames))
  }

  /** The stop boundary is a segment boundary past the cursor and not below
      the buffer size, and it is the first such boundary. */
  lemma StopBoundaryFacts(b: Buffer)
    requires b.sizeInFrames >= 2
    ensures StopBoundary(b) > b.cursor
    ensures StopBoundary(b) >= b.sizeInFrames
    ensures StopBoundary(b) % Half(b) == 0
    ensures forall j: nat :: j * Half(b) > b.cursor && j * Half(b) >= b.sizeInFrames ==> StopBoundary(b) <= j * Half(b)
  {
    FirstBoundary(b.cursor, b.sizeInFrames, Half(b));
  }

  /** One buffer's frame added into one output frame. */
  datatype Contribution = Contribution(buffer: BufferId, frame: nat)

  function ContributionOf(id: BufferId, read: Option<nat>): seq<Contribution> {
    if read.Some? then [Contribution(id, read.value)] else []
  }

  /** Frames one pass of the inner loop covers: what is left of the
      callback, but no further than the end of the current half. */
  function PassLength(b: Buffer, x: nat, toMix: nat): nat
    requires b.sizeInFrames >= 2
  {
    Min(toMix, Half(b) - x % Half(b))
  }

  /** A pass stays inside one segment and ends at the next boundary when it
      runs to the end of the half; it never crosses the stop boundary. */
  lemma PassFacts(b: Buffer, x: nat, toMix: nat)
    requires b.sizeInFrames >= 2 && toMix > 0 && x >= b.cursor
    ensures var p := PassLength(b, x, toMix);
      && 0 < p <= toMix
      && (forall k :: x - b.cursor <= k < x - b.cursor + p ==> Segment(b, k) == x / Half(b))
      && (x + p) / Half(b) == (if p == Half(b) - x % Half(b) then x / Half(b) + 1 else x / Half(b))
      && (p == Half(b) - x % Half(b) ==> x + p == (x / Half(b) + 1) * Half(b))
      && (x < StopBoundary(b) ==> x + p <= StopBoundary(b))
  {
    var h := Half(b);
    var p := PassLength(b, x, toMix);
    RunWithinMultiple(x, h, p);
    forall k | x - b.cursor <= k < x - b.cursor + p
      ensures Segment(b, k) == x / h
    {
      assert x <= b.cursor + k < x + p;
    }
    assert x < StopMultiple(b) * h ==> x + p <= StopMultiple(b) * h;
  }

  /** The segments in [s0, seg + 1) reach half `h` when those in [s0, seg)
      do or `seg` itself lies in it. */
  lemma VacatedStep(s0: nat, seg: nat, h: nat)
    requires seg >= s0 && h < 2
    ensures Vacated(s0, seg + 1, h) == (Vacated(s0, seg, h) || seg % 2 == h)
    ensures Vacated(s0, seg, seg % 2) == (seg >= s0 + 2)
  {
  }

  /** What the inner loop of the callback has achieved once `toMix` frames
      are left: the cursor moved by the frames mixed so far, each of them
      read as the closed form says, the halves left behind marked stale,
      and a static buffer not past its stop boundary. */
  ghost predicate MixProgress(b: Buffer, framesPerBuffer: nat, toMix: nat, cursor: nat,
                              processed0: bool, processed1: bool, feed: seq<Option<nat>>)
    requires b.sizeInFrames >= 2
  {
    && toMix <= framesPerBuffer
    && cursor == b.cursor + (framesPerBuffer - toMix)
    && |feed| == framesPerBuffer - toMix
    && (forall k :: 0 <= k < |feed| ==> feed[k] == ReadAt(b, k))
    && cursor / Half(b) >= Segment(b, 0)
    && processed0 == (b.processed0 || Vacated(Segment(b, 0), cursor / Half(b), 0))
    && processed1 == (b.processed1 || Vacated(Segment(b, 0), cursor / Half(b), 1))
    && (!b.isStreaming ==> cursor <= StopBoundary(b))
  }

  /** The stale flags after a pass that starts in segment `seg` and
      either stays in it or enters the next one. */
  lemma FlagsAfterPass(b: Buffer, seg: nat, seg': nat, p0: bool, p1: bool, p0': bool, p1': bool)
    requires b.sizeInFrames >= 2
    requires seg >= Segment(b, 0)
    requires seg' == seg || seg' == seg + 1
    requires p0 == (b.processed0 || Vacated(Segment(b, 0), seg, 0))
    requires p1 == (b.processed1 || Vacated(Segment(b, 0), seg, 1))
    requires p0' == (p0 || (seg' % 2 != seg % 2 && seg % 2 == 0))
    requires p1' == (p1 || (seg' % 2 != seg % 2 && seg % 2 == 1))
    ensures p0' == (b.processed0 || Vacated(Segment(b, 0), seg', 0))
    ensures p1' == (b.processed1 || Vacated(Segment(b, 0), seg', 1))
  {
    VacatedStep(Segment(b, 0), seg, 0);
    VacatedStep(Segment(b, 0), seg, 1);
  }

  /** The output of a pass extends what the earlier passes produced. */
  lemma FeedAfterPass(b: Buffer, feed: seq<Option<nat>>, chunk: seq<Option<nat>>)
    requires b.sizeInFrames >= 2
    requires forall k :: 0 <= k < |feed| ==> feed[k] == ReadAt(b, k)
    requires forall i :: 0 <= i < |chunk| ==> chunk[i] == ReadAt(b, |feed| + i)
    ensures forall k :: 0 <= k < |feed + chunk| ==> (feed + chunk)[k] == ReadAt(b, k)
  {
    forall k | 0 <= k < |feed + chunk|
      ensures (feed + chunk)[k] == ReadAt(b, k)
    {
      if k >= |feed| {
        assert (feed + chunk)[k] == chunk[k - |feed|];
      }
    }
  }

  /** One pass of the inner loop: mix up to the end of the current half,
      mark the half stale if the cursor left it, and report whether a
      static buffer has reached its end. */
  method MixPass(b: Buffer, framesPerBuffer: nat, toMix: nat, cursor: nat,
                 processed0: bool, processed1: bool, feed: seq<Option<nat>>)
    returns (toMix': nat, cursor': nat, processed0': bool, processed1': bool, feed': seq<Option<nat>>, stop: bool)
    requires b.sizeInFrames >= 2 && toMix > 0
    requires MixProgress(b, framesPerBuffer, toMix, cursor, processed0, processed1, feed)
    requires !b.isStreaming ==> cursor == b.cursor || cursor < b.sizeInFrames
    ensures toMix' < toMix
    ensures MixProgress(b, framesPerBuffer, toMix', cursor', processed0', processed1', feed')
    ensures stop <==> !b.isStreaming && cursor' >= b.sizeInFrames
    ensures stop ==> Consumed(b, framesPerBuffer) == framesPerBuffer - toMix'
  {
    var half := Half(b);
    var seg := cursor / half;
    var sub := seg % 2;
    var left := half - cursor % half;
    var pass := if toMix < left then toMix else left;
    PassFacts(b, cursor, toMix);
    StopBoundaryFacts(b);
    var ready := !(if sub == 0 then processed0 else processed1);
    VacatedStep(Segment(b, 0), seg, sub);
    var chunk := seq(pass, i requires 0 <= i < pass =>
      if ready then Some((cursor + i) % b.sizeInFrames) else None);
    ChunkIsReadAt(b, cursor, pass, ready, chunk);
    FeedAfterPass(b, feed, chunk);
    feed' := feed + chunk;
    cursor' := cursor + pass;
    toMix' := toMix - pass;
    var seg' := cursor' / half;
    processed0', processed1' := processed0, processed1;
    if seg' % 2 != sub {
      if sub == 0 {
        processed0' := true;
      } else {
        processed1' := true;
      }
    }
    FlagsAfterPass(b, seg, seg', processed0, processed1, processed0', processed1');
    stop := !b.isStreaming && cursor' >= b.sizeInFrames;
    if stop && pass == left {
      assert StopBoundary(b) <= (seg + 1) * half;
    }
  }

  /** The inner loop of the callback for one mixable buffer: walk the ring
      half by half, read the halves that are ready, mark every half the
      cursor leaves as stale, and stop a static buffer at its end. `feed`
      has one entry per output frame. */
  method MixBuffer(b: Buffer, framesPerBuffer: nat) returns (r: Buffer, feed: seq<Option<nat>>)
    requires b.sizeInFrames >= 2
    requires Mixable(b)
    ensures r == MixedBuffer(b, framesPerBuffer)
    ensures |feed| == framesPerBuffer
    ensures forall k :: 0 <= k < framesPerBuffer ==> feed[k] == FrameRead(b, framesPerBuffer, k)
  {
    var toMix: nat := framesPerBuffer;
    var cursor: nat := b.cursor;
    var processed0, processed1 := b.processed0, b.processed1;
    var playing := true;
    feed := [];
    StopBoundaryFacts(b);
    while toMix > 0
      invariant MixProgress(b, framesPerBuffer, toMix, cursor, processed0, processed1, feed)
      invariant !b.isStreaming ==> cursor == b.cursor || cursor < b.sizeInFrames
    {
      var stop;
      toMix, cursor, processed0, processed1, feed, stop :=
        MixPass(b, framesPerBuffer, toMix, cursor, processed0, processed1, feed);
      if stop {
        playing := false;
        break;
      }
    }
    if !b.isStreaming && playing {
      assert Consumed(b, framesPerBuffer) == framesPerBuffer;
    }
    r := b.(cursor := cursor, framesProcessed := b.framesProcessed + (cursor - b.cursor),
            processed0 := processed0, processed1 := processed1, playing := playing);
    feed := feed + seq(toMix, i => None);
  }

  /** The frames one pass reads are those the closed form predicts: the
      pass's readiness is the flag the callback started with, unless the
      cursor has come round to the same half again. */
  lemma ChunkIsReadAt(b: Buffer, x: nat, pass: nat, ready: bool, chunk: seq<Option<nat>>)
    requires b.sizeInFrames >= 2 && x >= b.cursor
    requires forall k :: x - b.cursor <= k < x - b.cursor + pass ==> Segment(b, k) == x / Half(b)
    requires ready == !(Processed(b, (x / Half(b)) % 2) || x / Half(b) >= Segment(b, 0) + 2)
    requires |chunk| == pass
    requires forall i :: 0 <= i < pass ==> chunk[i] == if ready then Some((x + i) % b.sizeInFrames) else None
    ensures forall i :: 0 <= i < pass ==> chunk[i] == ReadAt(b, x - b.cursor + i)
  {
    forall i | 0 <= i < pass
      ensures chunk[i] == ReadAt(b, x - b.cursor + i)
    {
      assert Segment(b, x - b.cursor + i) == x / Half(b);
      assert b.cursor + (x - b.cursor + i) == x + i;
    }
  }

  /** A buffer after one callback, whether or not it was mixed. */
  function AfterCallback(b: Buffer, framesPerBuffer: nat): Buffer
    requires Mixable(b) ==> b.sizeInFrames >= 2
  {
    if Mixable(b) then MixedBuffer(b, framesPerBuffer) else b
  }

  /** The registry lists every buffer once, and every mixable buffer has at
      least two frames (the callback divides by half the size). */
  ghost predicate MixReady(s: Session) {
    && Distinct(s.registry)
    && (forall id :: id in s.registry <==> id in s.buffers)
    && (forall id :: id in s.buffers && Mixable(s.buffers[id]) ==> s.buffers[id].sizeInFrames >= 2)
  }

  /** What one buffer adds to output frame `k`. */
  function BufferFrame(buffers: map<BufferId, Buffer>, id: BufferId, framesPerBuffer: nat, k: nat): seq<Contribution> {
    if id in buffers && Mixable(buffers[id]) && buffers[id].sizeInFrames >= 2
    then ContributionOf(id, FrameRead(buffers[id], framesPerBuffer, k))
    else []
  }

  /** The contributions to output frame `k`, in registry order. */
  function MixedFrame(reg: seq<BufferId>, buffers: map<BufferId, Buffer>, framesPerBuffer: nat, k: nat): seq<Contribution> {
    if |reg| == 0 then []
    else MixedFrame(reg[..|reg| - 1], buffers, framesPerBuffer, k) + BufferFrame(buffers, reg[|reg| - 1], framesPerBuffer, k)
  }

  /** One step of the callback's walk over the registry: mix buffer `id`
      into the output if it is playing. */
  method MixOne(buffers: map<BufferId, Buffer>, id: BufferId, framesPerBuffer: nat, out: seq<seq<Contribution>>)
    returns (buffers': map<BufferId, Buffer>, out': seq<seq<Contribution>>)
    requires id in buffers
    requires Mixable(buffers[id]) ==> buffers[id].sizeInFrames >= 2
    requires |out| == framesPerBuffer
    ensures buffers' == buffers[id := AfterCallback(buffers[id], framesPerBuffer)]
    ensures |out'| == framesPerBuffer
    ensures forall k :: 0 <= k < framesPerBuffer ==> out'[k] == out[k] + BufferFrame(buffers, id, framesPerBuffer, k)
  {
    var b := buffers[id];
    buffers', out' := buffers, out;
    if Mixable(b) {
      var b', feed := MixBuffer(b, framesPerBuffer);
      buffers' := buffers[id := b'];
      out' := seq(framesPerBuffer, k requires 0 <= k < framesPerBuffer => out[k] + ContributionOf(id, feed[k]));
    }
  }

  /** port_audio_callback: one device callback of `framesPerBuffer` frames
      over every registered buffer, in registry order. */
  method MixCallback(s: Session, framesPerBuffer: nat) returns (r: Session, out: seq<seq<Contribution>>)
    requires MixReady(s)
    ensures r.registry == s.registry && r.masterVolume == s.masterVolume
    ensures r.buffers.Keys == s.buffers.Keys
    ensures forall id :: id in s.buffers ==> r.buffers[id] == AfterCallback(s.buffers[id], framesPerBuffer)
    ensures |out| == framesPerBuffer
    ensures forall k :: 0 <= k < framesPerBuffer ==> out[k] == MixedFrame(s.registry, s.buffers, framesPerBuffer, k)
  {
    var reg := s.registry;
    var buffers := s.buffers;
    out := seq(framesPerBuffer, k => []);
    var i := 0;
    assert reg[..0] == [];
    while i < |reg|
      invariant 0 <= i <= |reg|
      invariant MixedUpTo(s, buffers, out, i, framesPerBuffer)
    {
      ghost var before := buffers;
      ghost var outBefore := out;
      buffers, out := MixOne(buffers, reg[i], framesPerBuffer, out);
      MixStep(s, i, before, outBefore, buffers, out, framesPerBuffer);
      i := i + 1;
    }
    assert reg[..i] == reg;
    r := s.(buffers := buffers);
    CallbackCoversAll(s, buffers, framesPerBuffer);
  }

  /** The callback's state after the first `i` registry entries: those
      buffers have been through the callback, the others are untouched,
      and each output frame holds the first `i` buffers' contributions. */
  ghost predicate MixedUpTo(s: Session, buffers: map<BufferId, Buffer>, out: seq<seq<Contribution>>, i: nat, framesPerBuffer: nat)
    requires MixReady(s) && i <= |s.registry|
  {
    && buffers.Keys == s.buffers.Keys
    && (forall j :: i <= j < |s.registry| ==> buffers[s.registry[j]] == s.buffers[s.registry[j]])
    && (forall j :: 0 <= j < i ==> buffers[s.registry[j]] == AfterCallback(s.buffers[s.registry[j]], framesPerBuffer))
    && |out| == framesPerBuffer
    && (forall k :: 0 <= k < framesPerBuffer ==> out[k] == MixedFrame(s.registry[..i], s.buffers, framesPerBuffer, k))
  }

  /** Mixing the next registry entry moves the callback's state on by one
      entry. */
  lemma MixStep(s: Session, i: nat, before: map<BufferId, Buffer>, outBefore: seq<seq<Contribution>>,
                buffers: map<BufferId, Buffer>, out: seq<seq<Contribution>>, framesPerBuffer: nat)
    requires MixReady(s) && i < |s.registry|
    requires MixedUpTo(s, before, outBefore, i, framesPerBuffer)
    requires buffers == before[s.registry[i] := AfterCallback(before[s.registry[i]], framesPerBuffer)]
    requires |out| == framesPerBuffer
    requires forall k :: 0 <= k < framesPerBuffer ==> out[k] == outBefore[k] + BufferFrame(before, s.registry[i], framesPerBuffer, k)
    ensures MixedUpTo(s, buffers, out, i + 1, framesPerBuffer)
  {
    var reg, id := s.registry, s.registry[i];
    forall k | 0 <= k < framesPerBuffer
      ensures out[k] == MixedFrame(reg[..i + 1], s.buffers, framesPerBuffer, k)
    {
      MixedFrameSnoc(reg, i, s.buffers, framesPerBuffer, k);
      BufferFrameOfEntry(before, s.buffers, id, framesPerBuffer, k);
    }
    forall j | 0 <= j < |reg| && j != i
      ensures buffers[reg[j]] == before[reg[j]]
    {
      DistinctAt(reg, i, j);
    }
  }

  /** A buffer's frames depend only on that buffer's entry. */
  lemma BufferFrameOfEntry(a: map<BufferId, Buffer>, b: map<BufferId, Buffer>, id: BufferId, framesPerBuffer: nat, k: nat)
    requires id in a && id in b && a[id] == b[id]
    ensures BufferFrame(a, id, framesPerBuffer, k) == BufferFrame(b, id, framesPerBuffer, k)
  {
  }

  /** Walking one more registry entry adds that buffer's frames. */
  lemma MixedFrameSnoc(reg: seq<BufferId>, i: nat, buffers: map<BufferId, Buffer>, framesPerBuffer: nat, k: nat)
    requires i < |reg|
    ensures MixedFrame(reg[..i + 1], buffers, framesPerBuffer, k)
         == MixedFrame(reg[..i], buffers, framesPerBuffer, k) + BufferFrame(buffers, reg[i], framesPerBuffer, k)
  {
    assert reg[..i + 1][..i] == reg[..i];
  }

  lemma DistinctAt(s: seq<BufferId>, i: nat, j: nat)
    requires Distinct(s) && i < |s| && j < |s| && i != j
    ensures s[i] != s[j]
  {
  }

  lemma CallbackCoversAll(s: Session, buffers: map<BufferId, Buffer>, framesPerBuffer: nat)
    requires MixReady(s)
    requires buffers.Keys == s.buffers.Keys
    requires forall j :: 0 <= j < |s.registry| ==> buffers[s.registry[j]] == AfterCallback(s.buffers[s.registry[j]], framesPerBuffer)
    ensures forall id :: id in s.buffers ==> buffers[id] == AfterCallback(s.buffers[id], framesPerBuffer)
  {
    forall id | id in s.buffers
      ensures buffers[id] == AfterCallback(s.buffers[id], framesPerBuffer)
    {
      var j := IndexOf(s.registry, id);
      assert buffers[s.registry[j]] == AfterCallback(s.buffers[s.registry[j]], framesPerBuffer);
    }
  }

  /** Flags only ever become stale during a callback; a callback never
      makes a half ready. */
  lemma CallbackOnlyMarksStale(b: Buffer, framesPerBuffer: nat)
    requires b.sizeInFrames >= 2
    ensures b.processed0 ==> MixedBuffer(b, framesPerBuffer).processed0
    ensures b.processed1 ==> MixedBuffer(b, framesPerBuffer).processed1
    ensures MixedBuffer(b, framesPerBuffer).cursor - b.cursor == Consumed(b, framesPerBuffer) <= framesPerBuffer
    ensures b.isStreaming ==> Consumed(b, framesPerBuffer) == framesPerBuffer
  {
  }

  /** With both halves stale, a callback produces only silence. */
  lemma BothStaleIsSilent(b: Buffer, framesPerBuffer: nat, k: nat)
    requires b.sizeInFrames >= 2
    requires b.processed0 && b.processed1
    ensures FrameRead(b, framesPerBuffer, k) == None
  {
    assert Processed(b, Segment(b, k) % 2);
  }

  /** Every frame the mixer feed lies inside the buffer's data. */
  lemma ReadsInBounds(b: Buffer, framesPerBuffer: nat, k: nat)
    requires b.sizeInFrames >= 2
    requires WellFormed(b)
    ensures FrameRead(b, framesPerBuffer, k).Some? ==>
      var p := FrameRead(b, framesPerBuffer, k).value;
      p < b.sizeInFrames && DeviceChannels * p + 1 < |b.data|
  {
  }

  /** A static buffer whose ring has an even size and whose cursor is
      inside it plays exactly to its last frame, and stops in the callback
      that reaches it. */
  lemma StaticStopsAtEnd(b: Buffer, framesPerBuffer: nat)
    requires b.sizeInFrames >= 2 && b.sizeInFrames % 2 == 0
    requires !b.isStreaming && b.playing
    requires b.cursor < b.sizeInFrames
    ensures Consumed(b, framesPerBuffer) == Min(framesPerBuffer, b.sizeInFrames - b.cursor)
    ensures MixedBuffer(b, framesPerBuffer).playing <==> b.cursor + framesPerBuffer < b.sizeInFrames || framesPerBuffer == 0
  {
    var h := Half(b);
    assert b.sizeInFrames == 2 * h;
    StopBoundaryFacts(b);
    assert StopBoundary(b) <= 2 * h;
  }

  /** A static buffer that has just been played feed its frames in order
      from the start for as long as it stays inside the first half. */
  lemma StaticPlayReadsFromStart(b: Buffer, framesPerBuffer: nat, k: nat)
    requires b.sizeInFrames >= 2 && !b.isStreaming
    requires k < framesPerBuffer && k < Half(b)
    ensures FrameRead(Play(b), framesPerBuffer, k) == Some(k)
  {
    var p := Play(b);
    assert Half(p) == Half(b) && p.cursor == 0 && !p.processed0;
    StopBoundaryFacts(p);
    DivBetween(k, Half(b), 0);
    SmallDivMod(k, b.sizeInFrames);
    assert Segment(p, k) == 0 && Segment(p, 0) == 0;
  }

  // ---------------------------------------------------------------------
  // Music streams: refill, seek and play time

  /** Decoded frames, each holding one sample per channel of the file. */
  predicate FramesOf(channels: nat, frames: seq<seq<real>>) {
    channels >= 1 && forall j :: 0 <= j < |frames| ==> |frames[j]| == channels
  }

  /** One frame in the device's two channels: a mono sample goes to both,
      and a frame of two or more channels keeps its first two. */
  function DeviceFrame(channels: nat, frame: seq<real>): (r: seq<real>)
    requires channels >= 1 && |frame| == channels
  {
    if channels == 1 then [frame[0], frame[0]] else [frame[0], frame[1]]
  }

  /** Decoded frames in the device's interleaved two-channel layout. */
  function ToDevice(channels: nat, frames: seq<seq<real>>): (r: seq<real>)
    requires FramesOf(channels, frames)
    ensures |r| == DeviceChannels * |frames|
    ensures forall j :: 0 <= j < |frames| ==>
      r[2 * j] == frames[j][0] && r[2 * j + 1] == frames[j][if channels == 1 then 0 else 1]
  {
    if |frames| == 0 then []
    else
      var rest := ToDevice(channels, frames[1..]);
      assert forall j :: 1 <= j < |frames| ==> frames[1..][j - 1] == frames[j];
      DeviceFrame(channels, frames[0]) + rest
  }

  /** The frames' samples one after another, in the file's own layout. */
  function Interleaved(frames: seq<seq<real>>): seq<real> {
    if |frames| == 0 then [] else frames[0] + Interleaved(frames[1..])
  }

  /** Interleaving frames of `channels` samples gives `channels` samples
      per frame. */
  lemma {:induction false} InterleavedLength(channels: nat, frames: seq<seq<real>>)
    requires FramesOf(channels, frames)
    ensures |Interleaved(frames)| == channels * |frames|
  {
    if |frames| > 0 {
      InterleavedLength(channels, frames[1..]);
      MulSucc(|frames| - 1, channels);
    }
  }

  /** A stereo file is already in the device's layout: converting it is
      the plain copy. */
  lemma {:induction false} StereoIsCopied(frames: seq<seq<real>>)
    requires FramesOf(2, frames)
    ensures ToDevice(2, frames) == Interleaved(frames)
  {
    if |frames| > 0 {
      StereoIsCopied(frames[1..]);
      assert DeviceFrame(2, frames[0]) == frames[0];
    }
  }

  /** Samples in one half of the ring. */
  function Width(b: Buffer): nat {
    DeviceChannels * Half(b)
  }

  /** Where half `h` starts in the data. */
  function HalfOffset(b: Buffer, h: nat): nat
    requires h < 2
  {
    if h == 0 then 0 else Width(b)
  }

  /** The samples of half `h` of the ring. */
  function HalfData(b: Buffer, h: nat): seq<real>
    requires h < 2
    requires WellFormed(b)
  {
    b.data[HalfOffset(b, h) .. HalfOffset(b, h) + Width(b)]
  }

  /** The frames the decoder delivers for one half: at most half a ring
      of them (frames_to_read without a resampler), in the file's layout. */
  predicate DecodedFits(b: Buffer, channels: nat, decoded: seq<seq<real>>) {
    FramesOf(channels, decoded) && |decoded| <= Half(b)
  }

  /** Refill one half of a stream's ring if it is stale: the decoded
      frames, then zeros to the end of the half; the half becomes ready. */
  function RefillHalf(b: Buffer, h: nat, frames: seq<real>): (r: Buffer)
    requires h < 2
    requires WellFormed(b)
    requires |frames| <= Width(b)
    ensures r.sizeInFrames == b.sizeInFrames && |r.data| == |b.data|
    ensures r.(data := b.data, processed0 := b.processed0, processed1 := b.processed1) == b
    ensures !Processed(b, h) ==> r == b
    ensures Processed(b, h) ==> !Processed(r, h) && Processed(r, 1 - h) == Processed(b, 1 - h)
    ensures Processed(b, h) ==> HalfData(r, h) == frames + Repeat(0.0, Width(b) - |frames|)
    ensures HalfData(r, 1 - h) == HalfData(b, 1 - h)
    ensures r.data[2 * Width(b)..] == b.data[2 * Width(b)..]
  {
    if !Processed(b, h) then b
    else
      var w := Width(b);
      RepeatFacts(0.0, w - |frames|);
      var fill := frames + Repeat(0.0, w - |frames|);
      var data := SpliceHalf(b.data, w, HalfOffset(b, h), fill);
      if h == 0 then b.(data := data, processed0 := false) else b.(data := data, processed1 := false)
  }

  /** The samples with the `w` of them from `at` replaced by `fill`; the
      ring's other half is `w` samples from `w - at`. */
  function SpliceHalf(data: seq<real>, w: nat, at: nat, fill: seq<real>): (r: seq<real>)
    requires (at == 0 || at == w) && |fill| == w && 2 * w <= |data|
    ensures |r| == |data|
    ensures r[at..at + w] == fill
    ensures r[w - at..w - at + w] == data[w - at..w - at + w]
    ensures r[2 * w..] == data[2 * w..]
  {
    var r := data[..at] + fill + data[at + w..];
    assert r[at..at + w] == fill;
    r
  }

  /** update_music_stream: without a decoder nothing happens; otherwise
      each stale half is refilled with the frames decoded for it
      (`decoded0`, `decoded1`) padded with silence, and becomes ready; a
      half that was ready keeps its samples. */
  function UpdateMusicStream(b: Buffer, hasDecoder: bool, channels: nat, decoded0: seq<seq<real>>, decoded1: seq<seq<real>>): (r: Buffer)
    requires WellFormed(b)
    requires DecodedFits(b, channels, decoded0) && DecodedFits(b, channels, decoded1)
    ensures !hasDecoder ==> r == b
    ensures hasDecoder ==> !r.processed0 && !r.processed1
    ensures WellFormed(r) && |r.data| == |b.data|
    ensures r.(data := b.data, processed0 := b.processed0, processed1 := b.processed1) == b
    ensures !(hasDecoder && b.processed0) ==> HalfData(r, 0) == HalfData(b, 0)
    ensures !(hasDecoder && b.processed1) ==> HalfData(r, 1) == HalfData(b, 1)
    ensures hasDecoder && b.processed0 ==>
      HalfData(r, 0) == ToDevice(channels, decoded0) + Repeat(0.0, Width(b) - |ToDevice(channels, decoded0)|)
    ensures hasDecoder && b.processed1 ==>
      HalfData(r, 1) == ToDevice(channels, decoded1) + Repeat(0.0, Width(b) - |ToDevice(channels, decoded1)|)
    ensures r.data[2 * Width(b)..] == b.data[2 * Width(b)..]
  {
    if !hasDecoder then b else RefillDecoded(b, channels, decoded0, decoded1)
  }

  /** The decoder's part of update_music_stream: each stale half refilled
      with its decoded frames in the device's layout, padded with silence. */
  function RefillDecoded(b: Buffer, channels: nat, decoded0: seq<seq<real>>, decoded1: seq<seq<real>>): (r: Buffer)
    requires WellFormed(b)
    requires DecodedFits(b, channels, decoded0) && DecodedFits(b, channels, decoded1)
    ensures !r.processed0 && !r.processed1
    ensures WellFormed(r) && |r.data| == |b.data|
    ensures r.(data := b.data, processed0 := b.processed0, processed1 := b.processed1) == b
    ensures !b.processed0 ==> HalfData(r, 0) == HalfData(b, 0)
    ensures !b.processed1 ==> HalfData(r, 1) == HalfData(b, 1)
    ensures b.processed0 ==>
      HalfData(r, 0) == ToDevice(channels, decoded0) + Repeat(0.0, Width(b) - |ToDevice(channels, decoded0)|)
    ensures b.processed1 ==>
      HalfData(r, 1) == ToDevice(channels, decoded1) + Repeat(0.0, Width(b) - |ToDevice(channels, decoded1)|)
    ensures r.data[2 * Width(b)..] == b.data[2 * Width(b)..]
  {
    var f0 := ToDevice(channels, decoded0);
    var f1 := ToDevice(channels, decoded1);
    DeviceFramesFit(b, channels, decoded0);
    DeviceFramesFit(b, channels, decoded1);
    RefillBoth(b, f0, f1);
    RefillHalf(RefillHalf(b, 0, f0), 1, f1)
  }

  // ---------------------------------------------------------------------
  // The refill copy as written

  /** The samples update_music_stream copies into a half without a
      resampler: a mono file is duplicated into both device channels, any
      other file is copied as decoded, one sample per channel of the file. */
  function CopiedAsWritten(channels: nat, frames: seq<seq<real>>): (r: seq<real>)
    requires FramesOf(channels, frames)
    ensures |r| == Max(channels, DeviceChannels) * |frames|
  {
    InterleavedLength(channels, frames);
    if channels == 1 then ToDevice(channels, frames) else Interleaved(frames)
  }

  /** One stale half refilled as the source writes it: the copied samples
      from the half's start, then zeros from two samples per frame written
      to the end of the half, and the half becomes ready. None when the
      copy would write past the ring's allocation of two samples a frame. */
  function RefillHalfAsWritten(b: Buffer, h: nat, channels: nat, frames: seq<seq<real>>): (r: Option<Buffer>)
    requires h < 2 && WellFormed(b) && DecodedFits(b, channels, frames)
    ensures r.None? <==>
      Processed(b, h) && HalfOffset(b, h) + Max(channels, DeviceChannels) * |frames| > DeviceChannels * b.sizeInFrames
    ensures !Processed(b, h) ==> r == Some(b)
    ensures r.Some? ==> WellFormed(r.value) && |r.value.data| == |b.data|
    ensures r.Some? ==> r.value.(data := b.data, processed0 := b.processed0, processed1 := b.processed1) == b
  {
    if !Processed(b, h) then Some(b)
    else
      var at := HalfOffset(b, h);
      var copied := CopiedAsWritten(channels, frames);
      if at + |copied| > DeviceChannels * b.sizeInFrames then None
      else
        Some(SetProcessed(b.(data := CopyThenPad(b.data, at, Width(b), copied, |frames|)), h, false))
  }

  /** The samples after the copy and the zero fill: `copied` written from
      `at`, then zeros from two samples per frame copied to the end of the
      half of width `w`. */
  function CopyThenPad(data: seq<real>, at: nat, w: nat, copied: seq<real>, n: nat): (r: seq<real>)
    requires at + |copied| <= |data| && DeviceChannels * n <= w && at + w <= |data|
    ensures |r| == |data| && r[..at] == data[..at]
  {
    var written := data[..at] + copied + data[at + |copied|..];
    var pad := DeviceChannels * n;
    RepeatFacts(0.0, w - pad);
    if pad < w then written[..at + pad] + Repeat(0.0, w - pad) + written[at + w..] else written
  }

  /** update_music_stream as written, without a resampler: half 0 and then
      half 1 refilled by RefillHalfAsWritten; None when either copy runs
      past the ring. */
  function UpdateMusicStreamAsWritten(b: Buffer, hasDecoder: bool, channels: nat,
                                      decoded0: seq<seq<real>>, decoded1: seq<seq<real>>): (r: Option<Buffer>)
    requires WellFormed(b)
    requires DecodedFits(b, channels, decoded0) && DecodedFits(b, channels, decoded1)
    ensures !hasDecoder ==> r == Some(b)
    ensures r.Some? ==> WellFormed(r.value) && |r.value.data| == |b.data|
    ensures r.Some? ==> r.value.(data := b.data, processed0 := b.processed0, processed1 := b.processed1) == b
  {
    if !hasDecoder then Some(b)
    else match RefillHalfAsWritten(b, 0, channels, decoded0)
      case None => None
      case Some(b1) => RefillHalfAsWritten(b1, 1, channels, decoded1)
  }

  /** For mono and stereo files one half's refill as written is exactly
      the device-layout refill. */
  lemma RefillHalfAgrees(b: Buffer, h: nat, channels: nat, frames: seq<seq<real>>)
    requires h < 2 && WellFormed(b) && DecodedFits(b, channels, frames)
    requires channels <= 2
    ensures RefillHalfAsWritten(b, h, channels, frames) == Some(RefillHalf(b, h, ToDevice(channels, frames)))
  {
    DeviceFramesFit(b, channels, frames);
    if Processed(b, h) {
      CopiedUpToStereo(channels, frames);
      StaleHalfAgrees(b, h, channels, frames);
    }
  }

  /** Mono and stereo files are copied in the device's layout. */
  lemma CopiedUpToStereo(channels: nat, frames: seq<seq<real>>)
    requires FramesOf(channels, frames) && channels <= 2
    ensures CopiedAsWritten(channels, frames) == ToDevice(channels, frames)
  {
    if channels == 2 {
      StereoIsCopied(frames);
    }
  }

  /** The stale-half case of RefillHalfAgrees. */
  lemma StaleHalfAgrees(b: Buffer, h: nat, channels: nat, frames: seq<seq<real>>)
    requires h < 2 && WellFormed(b) && DecodedFits(b, channels, frames) && Processed(b, h)
    requires CopiedAsWritten(channels, frames) == ToDevice(channels, frames)
    requires |ToDevice(channels, frames)| <= Width(b)
    ensures RefillHalfAsWritten(b, h, channels, frames) == Some(RefillHalf(b, h, ToDevice(channels, frames)))
  {
    var at, w := HalfOffset(b, h), Width(b);
    var copied := ToDevice(channels, frames);
    var zeros := Repeat(0.0, w - |copied|);
    RepeatFacts(0.0, w - |copied|);
    CopyThenPadIsSplice(b.data, w, at, copied, |frames|, zeros);
    var data := SpliceHalf(b.data, w, at, copied + zeros);
    assert RefillHalf(b, h, copied) == SetProcessed(b.(data := data), h, false);
  }

  /** Copying two samples a frame and zeroing the rest of the half is
      splicing the padded frames into the half. */
  lemma CopyThenPadIsSplice(data: seq<real>, w: nat, at: nat, copied: seq<real>, n: nat, zeros: seq<real>)
    requires (at == 0 || at == w) && 2 * w <= |data|
    requires |copied| == DeviceChannels * n && DeviceChannels * n <= w
    requires zeros == Repeat(0.0, w - |copied|) && |zeros| == w - |copied|
    ensures CopyThenPad(data, at, w, copied, n) == SpliceHalf(data, w, at, copied + zeros)
  {
    var written := data[..at] + copied + data[at + |copied|..];
    assert SpliceHalf(data, w, at, copied + zeros) == data[..at] + (copied + zeros) + data[at + w..];
    if |copied| < w {
      assert CopyThenPad(data, at, w, copied, n) == written[..at + |copied|] + zeros + written[at + w..];
      PaddedCopy(data, w, at, copied, zeros);
    } else {
      assert CopyThenPad(data, at, w, copied, n) == written;
      assert copied + zeros == copied;
    }
  }

  /** The padded case of CopyThenPadIsSplice, on the concatenations. */
  lemma PaddedCopy(data: seq<real>, w: nat, at: nat, copied: seq<real>, zeros: seq<real>)
    requires at + w <= |data| && |copied| <= w
    ensures var written := data[..at] + copied + data[at + |copied|..];
      written[..at + |copied|] + zeros + written[at + w..] == data[..at] + (copied + zeros) + data[at + w..]
  {
    var head, tail := data[..at], data[at + |copied|..];
    SliceOfThree(head, copied, tail, w - |copied|);
    assert tail[w - |copied|..] == data[at + w..];
  }

  /** Slices of a three-part concatenation at the part boundaries. */
  lemma SliceOfThree(a: seq<real>, b: seq<real>, c: seq<real>, k: nat)
    requires k <= |c|
    ensures (a + b + c)[..|a| + |b|] == a + b
    ensures (a + b + c)[|a| + |b| + k..] == c[k..]
  {
  }

  /** Mono and stereo files are refilled as the device-layout model says. */
  lemma UpdateAgreesUpToStereo(b: Buffer, hasDecoder: bool, channels: nat,
                               decoded0: seq<seq<real>>, decoded1: seq<seq<real>>)
    requires WellFormed(b)
    requires DecodedFits(b, channels, decoded0) && DecodedFits(b, channels, decoded1)
    requires channels <= 2
    ensures UpdateMusicStreamAsWritten(b, hasDecoder, channels, decoded0, decoded1)
         == Some(UpdateMusicStream(b, hasDecoder, channels, decoded0, decoded1))
  {
    if hasDecoder {
      RefillHalfAgrees(b, 0, channels, decoded0);
      var b1 := RefillHalf(b, 0, ToDevice(channels, decoded0));
      RefillHalfAgrees(b1, 1, channels, decoded1);
    }
  }

  /** A two-frame ring of zeros with the given halves stale. */
  function TinyRing(processed0: bool, processed1: bool): Buffer {
    Buffer(1.0, 1.0, 0.5, true, false, true, processed0, processed1, 2, 0, 0, [0.0, 0.0, 0.0, 0.0])
  }

  /** A three-channel file overruns the ring: refilling the second half of
      a two-frame ring copies three samples where two remain. */
  lemma ThreeChannelsOverrun()
    ensures DecodedFits(TinyRing(false, true), 3, [[1.0, 1.0, 1.0]])
    ensures UpdateMusicStreamAsWritten(TinyRing(false, true), true, 3, [], [[1.0, 1.0, 1.0]]) == None
  {
  }

  /** A three-channel file also spills into the other half: refilling only
      the first half changes the second, which was ready to play, while the
      device-layout refill leaves it alone. */
  lemma ThreeChannelsSpill()
    ensures var b := TinyRing(true, false);
      && DecodedFits(b, 3, [[1.0, 1.0, 1.0]])
      && UpdateMusicStreamAsWritten(b, true, 3, [[1.0, 1.0, 1.0]], []).Some?
      && HalfData(UpdateMusicStreamAsWritten(b, true, 3, [[1.0, 1.0, 1.0]], []).value, 1) == [1.0, 0.0]
      && HalfData(b, 1) == [0.0, 0.0]
      && HalfData(UpdateMusicStream(b, true, 3, [[1.0, 1.0, 1.0]], []), 1) == [0.0, 0.0]
  {
    var b := TinyRing(true, false);
    var copied := CopiedAsWritten(3, [[1.0, 1.0, 1.0]]);
    assert Interleaved([[1.0, 1.0, 1.0]]) == [1.0, 1.0, 1.0];
    assert copied == [1.0, 1.0, 1.0];
    var written := b.data[..0] + copied + b.data[3..];
    assert written == [1.0, 1.0, 1.0, 0.0];
  }

  /** Decoded samples that fit a half still fit it once converted to the
      device's layout. */
  lemma DeviceFramesFit(b: Buffer, channels: nat, decoded: seq<seq<real>>)
    requires DecodedFits(b, channels, decoded)
    ensures |ToDevice(channels, decoded)| <= Width(b)
  {
  }

  /** Refilling half 0 and then half 1 refills each stale half with its
      frames padded with silence, readies both, and touches nothing else. */
  lemma RefillBoth(b: Buffer, f0: seq<real>, f1: seq<real>)
    requires WellFormed(b)
    requires |f0| <= Width(b) && |f1| <= Width(b)
    ensures var r := RefillHalf(RefillHalf(b, 0, f0), 1, f1);
      && !r.processed0 && !r.processed1
      && WellFormed(r) && |r.data| == |b.data|
      && r.(data := b.data, processed0 := b.processed0, processed1 := b.processed1) == b
      && (!b.processed0 ==> HalfData(r, 0) == HalfData(b, 0))
      && (!b.processed1 ==> HalfData(r, 1) == HalfData(b, 1))
      && (b.processed0 ==> HalfData(r, 0) == f0 + Repeat(0.0, Width(b) - |f0|))
      && (b.processed1 ==> HalfData(r, 1) == f1 + Repeat(0.0, Width(b) - |f1|))
      && r.data[2 * Width(b)..] == b.data[2 * Width(b)..]
  {
    var b1 := RefillHalf(b, 0, f0);
    assert Width(b1) == Width(b);
  }

  /** Refilling is idempotent: once both halves are ready, another update
      changes nothing, whatever the decoder would deliver. */
  lemma RefillIdempotent(b: Buffer, channels: nat, d0: seq<seq<real>>, d1: seq<seq<real>>, e0: seq<seq<real>>, e1: seq<seq<real>>)
    requires WellFormed(b)
    requires DecodedFits(b, channels, d0) && DecodedFits(b, channels, d1)
    requires DecodedFits(b, channels, e0) && DecodedFits(b, channels, e1)
    ensures var r := UpdateMusicStream(b, true, channels, d0, d1);
      UpdateMusicStream(r, true, channels, e0, e1) == r
  {
    var r := UpdateMusicStream(b, true, channels, d0, d1);
    assert Width(r) == Width(b);
  }

  /** seek_music_stream: `positionInFrames` is the requested time already
      converted to source frames; when the decoder refuses the seek nothing
      changes, otherwise play timing jumps there and both halves must be
      refilled. */
  function SeekMusicStream(b: Buffer, hasDecoder: bool, positionInFrames: nat, seekSucceeds: bool): (r: Buffer)
    ensures !(hasDecoder && seekSucceeds) ==> r == b
    ensures hasDecoder && seekSucceeds ==>
      r.framesProcessed == positionInFrames && r.cursor == 0 && r.processed0 && r.processed1
    ensures r.(framesProcessed := b.framesProcessed, cursor := b.cursor,
               processed0 := b.processed0, processed1 := b.processed1) == b
  {
    if !(hasDecoder && seekSucceeds) then b
    else b.(framesProcessed := positionInFrames, cursor := 0, processed0 := true, processed1 := true)
  }

  /** get_music_time_played: seconds of audio the mixer has consumed. */
  function TimePlayed(b: Buffer, sampleRate: real): real
    requires sampleRate > 0.0
  {
    b.framesProcessed as real / sampleRate
  }

  /** After a successful seek the stream is silent until it is refilled,
      the processed-frame count is the target frame (so the play time is
      that frame over the rate), and after the refill the next callback
      starts reading at the beginning of the ring. */
  lemma SeekThenRefill(b: Buffer, position: nat, sampleRate: real, channels: nat,
                       d0: seq<seq<real>>, d1: seq<seq<real>>, framesPerBuffer: nat, k: nat)
    requires WellFormed(b) && b.sizeInFrames >= 2 && b.isStreaming
    requires sampleRate > 0.0
    requires DecodedFits(b, channels, d0) && DecodedFits(b, channels, d1)
    requires k < framesPerBuffer && k < Half(b)
    ensures var sought := SeekMusicStream(b, true, position, true);
      && FrameRead(sought, framesPerBuffer, k) == None
      && TimePlayed(sought, sampleRate) == position as real / sampleRate
      && FrameRead(UpdateMusicStream(sought, true, channels, d0, d1), framesPerBuffer, k) == Some(k)
  {
    var sought := SeekMusicStream(b, true, position, true);
    BothStaleIsSilent(sought, framesPerBuffer, k);
    var filled := UpdateMusicStream(sought, true, channels, d0, d1);
    assert filled.sizeInFrames == b.sizeInFrames && filled.isStreaming;
    FreshRingReads(filled, framesPerBuffer, k);
  }

  /** A streaming buffer with its cursor at the start and its first half
      ready reads the first half frame by frame. */
  lemma FreshRingReads(b: Buffer, framesPerBuffer: nat, k: nat)
    requires WellFormed(b) && b.sizeInFrames >= 2 && b.isStreaming
    requires b.cursor == 0 && !b.processed0
    requires k < framesPerBuffer && k < Half(b)
    ensures FrameRead(b, framesPerBuffer, k) == Some(k)
  {
    DivBetween(k, Half(b), 0);
    SmallDivMod(k, b.sizeInFrames);
    assert Segment(b, k) == 0 && Segment(b, 0) == 0;
  }

  /** A stream is created with both halves stale, so playing it before the
      first refill outputs silence. */
  lemma NewStreamIsSilentUntilRefilled(sizeInFrames: nat, framesPerBuffer: nat, k: nat)
    requires sizeInFrames >= 2
    ensures FrameRead(Play(NewBuffer(DeviceChannels, sizeInFrames, 1)), framesPerBuffer, k) == None
  {
    var p := Play(NewBuffer(DeviceChannels, sizeInFrames, 1));
    BothStaleIsSilent(p, framesPerBuffer, k);
  }

  // ---------------------------------------------------------------------
  // update_audio_stream

  /** Samples copied by update_audio_stream: the requested frames, capped
      at the buffer's current size, both counted in 32-bit unsigned
      arithmetic. */
  function CopiedSamples(b: Buffer, frameCount: int): nat {
    Min(U32(frameCount * DeviceChannels), U32(b.sizeInFrames * DeviceChannels))
  }

  lemma CopiedFitsData(b: Buffer, frameCount: int)
    requires WellFormed(b)
    ensures CopiedSamples(b, frameCount) <= |b.data|
  {
    assert U32(b.sizeInFrames * DeviceChannels) <= b.sizeInFrames * DeviceChannels;
  }

  /** update_audio_stream as written: the copy is capped, but the buffer
      size is then set to the requested frame count regardless. */
  function UpdateAudioStreamAsWritten(b: Buffer, input: seq<real>, frameCount: int): (r: Buffer)
    requires WellFormed(b)
    requires |input| >= CopiedSamples(b, frameCount)
    ensures r.sizeInFrames == U32(frameCount)
    ensures |r.data| == |b.data|
    ensures r.data[..CopiedSamples(b, frameCount)] == input[..CopiedSamples(b, frameCount)]
  {
    CopiedFitsData(b, frameCount);
    var n := CopiedSamples(b, frameCount);
    b.(data := input[..n] + b.data[n..], sizeInFrames := U32(frameCount))
  }

  /** A two-frame stream updated with four frames: the size grows past the
      allocated data, and the next callback feed frame 3, whose samples
      lie beyond the end of the data. */
  lemma UpdateAudioStreamOverrun()
    ensures var b := Buffer(1.0, 1.0, 0.5, true, false, true, false, false, 2, 0, 0, [0.0, 0.0, 0.0, 0.0]);
      var r := UpdateAudioStreamAsWritten(b, [1.0, 2.0, 3.0, 4.0, 5.0, 6.0, 7.0, 8.0], 4);
      && WellFormed(b)
      && !WellFormed(r)
      && FrameRead(r, 4, 3) == Some(3)
      && DeviceChannels * 3 >= |r.data|
  {
    var b := Buffer(1.0, 1.0, 0.5, true, false, true, false, false, 2, 0, 0, [0.0, 0.0, 0.0, 0.0]);
    var r := UpdateAudioStreamAsWritten(b, [1.0, 2.0, 3.0, 4.0, 5.0, 6.0, 7.0, 8.0], 4);
    assert r.sizeInFrames == 4;
    assert Segment(r, 3) == 1;
    assert Segment(r, 0) == 0;
  }

  /** update_audio_stream with the size set to the frames actually
      copied: the buffer stays well formed and every frame the mixer can
      read afterwards comes from the new input. */
  function UpdateAudioStream(b: Buffer, input: seq<real>, frameCount: int): (r: Buffer)
    requires WellFormed(b)
    requires |input| >= CopiedSamples(b, frameCount)
    ensures WellFormed(r) && |r.data| == |b.data|
    ensures r.sizeInFrames <= b.sizeInFrames
    ensures DeviceChannels * r.sizeInFrames <= CopiedSamples(b, frameCount)
    ensures forall j :: 0 <= j < DeviceChannels * r.sizeInFrames ==> r.data[j] == input[j]
  {
    CopiedFitsData(b, frameCount);
    var n := CopiedSamples(b, frameCount);
    assert DeviceChannels * (n / DeviceChannels) <= n;
    b.(data := input[..n] + b.data[n..], sizeInFrames := n / DeviceChannels)
  }
}
