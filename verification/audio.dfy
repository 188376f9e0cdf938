/**
 * The listening-test session (`SongSession` of the FMOD implementation):
 * eligibility flags set when a file is opened, the three PCM buffers and how
 * they are filled and converted, the coin that decides which slot plays the
 * better rendition, and the small transport state machine over the FMOD
 * sound and channel handles.
 *
 * Every FMOD call that reports on a file or a playback is an input: what
 * `createSound` reports about a file, the PCM bytes `readData` delivers,
 * whether creating or starting a sound succeeded, and the position and
 * length FMOD reports. The paused state of a channel is the exception: the
 * model keeps it as the state `setPaused` last set, instead of asking
 * `getPaused`. `rand() % 2` is an input bit as well.
 */
module Audio {
  import opened Common
  import opened Pcm

  /** Sampling rate of the decimated buffer and of the requantized buffer. */
  const LOW_RATE: nat := 48000

  /** The two renditions compared in one test. */
  datatype Rendition = HQ | LQ

  /** The arguments of `createSound(buffer, freq, depth, channel)`: what a slot plays. */
  datatype Sound = Sound(data: seq<Byte>, frequency: nat, depth: nat, channels: nat)

  /** An FMOD channel playing a sound; it is created paused. */
  datatype Channel = Channel(paused: bool)

  /** What FMOD reports about a file opened with `createSound(path)`. */
  datatype StreamInfo = StreamInfo(frequency: uint32, channels: int, bits: int)

  /**
   * The state of one `SongSession`. `data192_24` holds the decoded source
   * when it qualifies for a rate test (96 kHz or 192 kHz), `data48_24` holds
   * 48 kHz (or, for other sources, native-rate) 24-bit audio, and `data48_8`
   * its 8-bit requantization.
   */
  datatype Session = Session(
    path: string,
    samplingrate: uint32,
    channelCount: uint8,
    bitDepthTest: bool,
    sampleRateTest: bool,
    firstSoundIsBetter: bool,
    testingSamplerate: bool,
    data192_24: seq<Byte>,
    data48_24: seq<Byte>,
    data48_8: seq<Byte>,
    sound: Option<Sound>,
    channel: Option<Channel>)

  /**
   * A freshly constructed session. The constructor leaves the rate, the
   * channel count, the coin and the test-type flag uninitialised; their
   * initial values are parameters here.
   */
  function NewSession(rate: uint32, channels: uint8, coin: bool, testing: bool): (r: Session)
    ensures !r.bitDepthTest && !r.sampleRateTest && FlagsConsistent(r)
    ensures !IsInited(r) && !IsPlaying(r)
    ensures r.data192_24 == [] && r.data48_24 == [] && r.data48_8 == [] && BuffersFit(r)
  {
    Session("", rate, channels, false, false, coin, testing, [], [], [], None, None)
  }

  /** The rate test is only ever allowed together with the bit-depth test. */
  predicate FlagsConsistent(s: Session)
  {
    s.sampleRateTest ==> s.bitDepthTest
  }

  /** Every buffer was filled from a 32-bit FMOD byte length, or derived from one. */
  predicate BuffersFit(s: Session)
  {
    |s.data192_24| < UINT32_MODULUS && |s.data48_24| < UINT32_MODULUS && |s.data48_8| < UINT32_MODULUS
  }

  /** The buffers and flags of two sessions agree; only handles and coin may differ. */
  predicate SameMedia(s: Session, t: Session)
  {
    && s.path == t.path && s.samplingrate == t.samplingrate && s.channelCount == t.channelCount
    && s.bitDepthTest == t.bitDepthTest && s.sampleRateTest == t.sampleRateTest
    && s.data192_24 == t.data192_24 && s.data48_24 == t.data48_24 && s.data48_8 == t.data48_8
  }

  /**
   * `openSound`: remember the path, probe the file and, when the probe
   * succeeds, record its rate and channel count and raise the eligibility
   * flags a 24-bit file earns. The flags are never lowered. The probe handle
   * is released before returning.
   */
  function OpenSound(s: Session, path: string, info: Option<StreamInfo>): (r: (Session, bool))
    ensures r.1 <==> info.Some?
    ensures r.0.path == path && r.0.sound.None? && r.0.channel == s.channel
    ensures info.None? ==> r.0 == s.(path := path, sound := None)
    ensures info.Some? ==> r.0.samplingrate == info.value.frequency && r.0.channelCount == ToUint8(info.value.channels)
    ensures info.Some? && info.value.bits == 24 ==> r.0.bitDepthTest
    ensures info.Some? && info.value.bits == 24 && (info.value.frequency == 96000 || info.value.frequency == 192000) ==>
              r.0.sampleRateTest
    ensures s.bitDepthTest ==> r.0.bitDepthTest
    ensures s.sampleRateTest ==> r.0.sampleRateTest
    ensures r.0.bitDepthTest && !s.bitDepthTest ==> info.Some? && info.value.bits == 24
    ensures r.0.sampleRateTest && !s.sampleRateTest ==>
              && info.Some? && info.value.bits == 24
              && (info.value.frequency == 96000 || info.value.frequency == 192000)
              && r.0.bitDepthTest && (r.0.samplingrate == 96000 || r.0.samplingrate == 192000)
    ensures r.0.bitDepthTest <==> s.bitDepthTest || (info.Some? && info.value.bits == 24)
    ensures r.0.sampleRateTest <==>
              s.sampleRateTest
              || (info.Some? && info.value.bits == 24 && (info.value.frequency == 96000 || info.value.frequency == 192000))
    ensures FlagsConsistent(s) ==> FlagsConsistent(r.0)
    ensures r.0.data192_24 == s.data192_24 && r.0.data48_24 == s.data48_24 && r.0.data48_8 == s.data48_8
    ensures r.0.firstSoundIsBetter == s.firstSoundIsBetter && r.0.testingSamplerate == s.testingSamplerate
  {
    var t := s.(path := path, sound := None);
    match info
    case None => (t, false)
    case Some(fmt) =>
      var u := t.(samplingrate := fmt.frequency, channelCount := ToUint8(fmt.channels));
      if fmt.bits == 24 then
        var rateTest := u.sampleRateTest || fmt.frequency == 96000 || fmt.frequency == 192000;
        (u.(bitDepthTest := true, sampleRateTest := rateTest), true)
      else
        (u, true)
  }

  /**
   * Opening a file in a fresh session: the bit-depth test is offered iff the
   * file is 24-bit, the rate test iff it is 24-bit at 96 kHz or 192 kHz, so
   * the rate test is only offered together with the bit-depth test.
   */
  lemma OpenFreshEligibility(rate: uint32, channels: uint8, coin: bool, testing: bool,
                             path: string, info: StreamInfo)
    ensures var r := OpenSound(NewSession(rate, channels, coin, testing), path, Some(info)).0;
            && (r.bitDepthTest <==> info.bits == 24)
            && (r.sampleRateTest <==> info.bits == 24 && (info.frequency == 96000 || info.frequency == 192000))
            && (r.sampleRateTest ==> r.bitDepthTest)
            && r.samplingrate == info.frequency
            && (0 <= info.channels < 0x100 ==> r.channelCount == info.channels)
  {
  }

  /**
   * `readSound`: decode the whole file (`decoded` is what `readData` wrote, or
   * `None` when the file could not be opened) into the buffer the session's
   * conversions start from: `data192_24` for a rate-test source, otherwise
   * `data48_24`, and nowhere when the file qualifies for no test.
   */
  function ReadSound(s: Session, decoded: Option<seq<Byte>>): (r: (Session, bool))
    requires decoded.Some? ==> |decoded.value| < UINT32_MODULUS
    ensures r.1 <==> decoded.Some?
    ensures r.0.sound.None? && r.0.channel == s.channel && r.0.data48_8 == s.data48_8
    ensures r.0 == s.(sound := None, data192_24 := r.0.data192_24, data48_24 := r.0.data48_24)
    ensures decoded.None? || !(s.bitDepthTest || s.sampleRateTest) ==> r.0 == s.(sound := None)
    ensures decoded.Some? && s.sampleRateTest ==>
              r.0.data192_24 == decoded.value && r.0.data48_24 == s.data48_24
    ensures decoded.Some? && !s.sampleRateTest && s.bitDepthTest ==>
              r.0.data48_24 == decoded.value && r.0.data192_24 == s.data192_24
    ensures BuffersFit(s) ==> BuffersFit(r.0)
  {
    var t := s.(sound := None);
    match decoded
    case None => (t, false)
    case Some(pcm) =>
      if s.sampleRateTest then (t.(data192_24 := pcm), true)
      else if s.bitDepthTest then (t.(data48_24 := pcm), true)
      else (t, true)
  }

  /** The decimation step `samplingrate / 48000` of `convertSamplingrate`. */
  function DecimationStep(s: Session): nat
  {
    s.samplingrate / LOW_RATE
  }

  /** Bytes per frame of 24-bit packed audio: `3 * channel_count`. */
  function FrameBytes24(s: Session): nat
  {
    SAMPLE_BYTES_24 * s.channelCount
  }

  /** The buffer prefix a 32-bit byte count reaches (`uint32_t count = size()`). */
  function Prefix32(b: seq<Byte>): (p: seq<Byte>)
    ensures |b| < UINT32_MODULUS ==> p == b
  {
    b[..|b| % UINT32_MODULUS]
  }

  /**
   * `convertSamplingrate`: draw the coin, switch the session to the rate
   * test, and, when the rate test is allowed and `data48_24` is still empty,
   * fill it with the decimation of `data192_24` by `samplingrate / 48000`.
   * The source divides by the step and by the frame size, so both must be
   * non-zero when the conversion runs.
   */
  function ConvertSamplingrate(s: Session, coin: bool): (r: Session)
    requires s.sampleRateTest && |s.data48_24| == 0 ==> s.samplingrate >= LOW_RATE && s.channelCount >= 1
    ensures r.firstSoundIsBetter == coin && r.testingSamplerate
    ensures r == s.(firstSoundIsBetter := coin, testingSamplerate := true, data48_24 := r.data48_24)
    ensures !s.sampleRateTest || |s.data48_24| > 0 ==> r.data48_24 == s.data48_24
    ensures s.sampleRateTest && |s.data48_24| == 0 && |s.data192_24| < UINT32_MODULUS ==>
              r.data48_24 == Decimate(s.data192_24, DecimationStep(s), FrameBytes24(s))
    ensures BuffersFit(s) ==> BuffersFit(r)
  {
    var t := s.(firstSoundIsBetter := coin, testingSamplerate := true);
    if s.sampleRateTest && |s.data48_24| == 0 then
      t.(data48_24 := Decimate(Prefix32(s.data192_24), DecimationStep(s), FrameBytes24(s)))
    else
      t
  }

  /**
   * The requantization loop with its 32-bit arithmetic: the sample count and
   * the source index `3i + 2` are `uint32_t`, and entries the loop does not
   * reach keep the zero fill of `resize`. For every buffer a 32-bit length
   * describes, it is the plain requantization.
   */
  function Requantize32(src: seq<Byte>): (dst: seq<Byte>)
    ensures |dst| == |src| / SAMPLE_BYTES_24
    ensures |src| < UINT32_MODULUS ==> dst == Requantize(src)
  {
    var n := |src| / 3;
    var count := n % UINT32_MODULUS;
    var dst := seq(n, i requires 0 <= i < n =>
                 if i < count then (src[TopIndex32(i, |src|)] as int + 0x80) % 0x100 else 0);
    assert |src| < UINT32_MODULUS ==> dst == Requantize(src) by {
      if |src| < UINT32_MODULUS {
        forall i | 0 <= i < n
          ensures dst[i] == Requantize(src)[i]
        {
          assert TopIndex32(i, |src|) == 3 * i + 2;
        }
      }
    }
    dst
  }

  /** The `uint32_t` index `3i + 2` of the top byte of sample `i` in a buffer of `len` bytes. */
  function TopIndex32(i: nat, len: nat): (k: nat)
    requires 3 * i + 3 <= len || len >= UINT32_MODULUS
    ensures k < len
    ensures 3 * i + 2 < UINT32_MODULUS ==> k == 3 * i + 2
  {
    (3 * i + 2) % UINT32_MODULUS
  }

  /**
   * `convertBitdepth`: switch the session to the bit-depth test and, when
   * the bit-depth test is allowed and `data48_8` is still empty, fill it with
   * the 8-bit requantization of `data48_24`.
   */
  function ConvertBitdepth(s: Session): (r: Session)
    ensures !r.testingSamplerate
    ensures r == s.(testingSamplerate := false, data48_8 := r.data48_8)
    ensures !s.bitDepthTest || |s.data48_8| > 0 ==> r.data48_8 == s.data48_8
    ensures s.bitDepthTest && |s.data48_8| == 0 && |s.data48_24| < UINT32_MODULUS ==>
              r.data48_8 == Requantize(s.data48_24)
    ensures BuffersFit(s) ==> BuffersFit(r)
  {
    var t := s.(testingSamplerate := false);
    if s.bitDepthTest && |s.data48_8| == 0 then
      t.(data48_8 := Requantize32(s.data48_24))
    else
      t
  }

  /**
   * The rate conversion is cached: a second call keeps the buffer the first
   * one produced, and only its own coin survives.
   */
  lemma ConvertSamplingrateTwice(s: Session, coin1: bool, coin2: bool)
    requires s.sampleRateTest && |s.data48_24| == 0 ==> s.samplingrate >= LOW_RATE && s.channelCount >= 1
    ensures ConvertSamplingrate(ConvertSamplingrate(s, coin1), coin2) == ConvertSamplingrate(s, coin2)
  {
  }

  /** The bit-depth conversion is idempotent. */
  lemma ConvertBitdepthTwice(s: Session)
    ensures ConvertBitdepth(ConvertBitdepth(s)) == ConvertBitdepth(s)
  {
  }

  /** The rendition a slot plays: the first slot plays HQ iff the coin says the first sound is better. */
  function SlotRendition(s: Session, first: bool): (r: Rendition)
    ensures r == HQ <==> first == s.firstSoundIsBetter
  {
    if first == s.firstSoundIsBetter then HQ else LQ
  }

  /**
   * What each rendition is created from, as `startPlaying` writes it:
   *
   *   | test  | LQ                       | HQ                               |
   *   | rate  | data48_24 at 48000 / 24  | data192_24 at samplingrate / 24  |
   *   | depth | data48_8  at 48000 / 8   | data48_24  at 48000 / 24         |
   */
  function SoundOf(s: Session, rendition: Rendition): Sound
  {
    match (s.testingSamplerate, rendition)
    case (true, LQ) => Sound(s.data48_24, LOW_RATE, 24, s.channelCount)
    case (true, HQ) => Sound(s.data192_24, s.samplingrate, 24, s.channelCount)
    case (false, LQ) => Sound(s.data48_8, LOW_RATE, 8, s.channelCount)
    case (false, HQ) => Sound(s.data48_24, LOW_RATE, 24, s.channelCount)
  }

  /**
   * The HQ rendition is strictly finer than the LQ one: a higher rate at the
   * same depth in the rate test, a higher depth at the same rate in the
   * bit-depth test.
   */
  lemma HqFinerThanLq(s: Session)
    requires s.testingSamplerate ==> s.samplingrate > LOW_RATE
    ensures var hq := SoundOf(s, HQ); var lq := SoundOf(s, LQ);
            if s.testingSamplerate then hq.frequency > lq.frequency && hq.depth == lq.depth
            else hq.frequency == lq.frequency && hq.depth > lq.depth
  {
  }

  /** Whether the session holds a sound or a channel handle (`isInited`). */
  predicate IsInited(s: Session)
  {
    s.sound.Some? || s.channel.Some?
  }

  /** The effect of `createSound` followed by `playSound` on the two handles. */
  function Launch(s: Session, snd: Sound, created: bool, played: bool): (r: Session)
    requires !IsInited(s)
    ensures r.sound.Some? <==> created && played
    ensures r.channel.Some? <==> created && played
    ensures r.sound.Some? ==> r.sound.value == snd && r.channel.value.paused
    ensures SameMedia(s, r) && r.firstSoundIsBetter == s.firstSoundIsBetter
    ensures r.testingSamplerate == s.testingSamplerate
  {
    if created && played then s.(sound := Some(snd), channel := Some(Channel(true)))
    else s
  }

  /**
   * `startPlaying(first)`: a no-op while a sound or channel exists;
   * otherwise create the sound of the slot's rendition and start it paused.
   * When creating fails nothing is held; when starting fails the sound is
   * released.
   */
  function StartPlaying(s: Session, first: bool, created: bool, played: bool): (r: Session)
    ensures IsInited(s) ==> r == s
    ensures !IsInited(s) ==> (r.sound.Some? <==> created && played)
    ensures !IsInited(s) && created && played ==>
              && r.sound == Some(SoundOf(s, SlotRendition(s, first)))
              && r.channel == Some(Channel(true))
              && !IsPlaying(r)
    ensures !IsInited(s) && !(created && played) ==> !IsInited(r)
    ensures !(created && played) ==> r == s
    ensures r == s.(sound := r.sound, channel := r.channel)
  {
    if IsInited(s) then s
    else
      var snd :=
        if s.firstSoundIsBetter != first then
          if s.testingSamplerate then Sound(s.data48_24, 48000, 24, s.channelCount)
          else Sound(s.data48_8, 48000, 8, s.channelCount)
        else
          if s.testingSamplerate then Sound(s.data192_24, s.samplingrate, 24, s.channelCount)
          else Sound(s.data48_24, 48000, 24, s.channelCount);
      Launch(s, snd, created, played)
  }

  /** `isPlaying`: a channel exists and is not paused. */
  function IsPlaying(s: Session): (r: bool)
    ensures r ==> s.channel.Some? && IsInited(s)
  {
    match s.channel
    case None => false
    case Some(c) => !c.paused
  }

  /**
   * `togglePlaying`: `setPaused(isPlaying())` on the channel. Without a
   * channel the call goes to a null handle and changes nothing.
   */
  function TogglePlaying(s: Session): (r: Session)
    ensures s.channel.Some? ==> IsPlaying(r) == !IsPlaying(s)
    ensures r.channel.Some? == s.channel.Some?
    ensures s.channel.None? ==> r == s
    ensures r == s.(channel := r.channel)
  {
    match s.channel
    case None => s
    case Some(_) => s.(channel := Some(Channel(IsPlaying(s))))
  }

  /** `stopPlaying`: stop and drop the channel, release the sound. */
  function StopPlaying(s: Session): (r: Session)
    ensures !IsInited(r) && !IsPlaying(r)
    ensures SameMedia(s, r) && r.firstSoundIsBetter == s.firstSoundIsBetter
    ensures r.testingSamplerate == s.testingSamplerate
  {
    s.(channel := None, sound := None)
  }

  /**
   * `getTimeInfo(current, max)`: while playing, overwrite both outputs with
   * the channel position and the sound length FMOD reports (in ms);
   * otherwise leave them untouched.
   */
  function GetTimeInfo(s: Session, current: uint32, max: uint32, position: uint32, length: uint32): (r: (uint32, uint32))
    ensures !IsPlaying(s) ==> r == (current, max)
    ensures IsPlaying(s) ==> r == (position, length)
  {
    if IsPlaying(s) then (position, length) else (current, max)
  }

  /** `setTime(ms)`: the seek request sent to the channel, if there is one. */
  function SetTime(s: Session, ms: uint32): (r: Option<uint32>)
    ensures r.Some? <==> s.channel.Some?
    ensures r.Some? ==> r.value == ms
  {
    if s.channel.Some? then Some(ms) else None
  }

  /**
   * `isCorrectAnswer(selected)`: the listener picked the slot that plays the
   * HQ rendition. The two slots get complementary verdicts.
   */
  function IsCorrectAnswer(s: Session, selected: bool): (r: bool)
    ensures r <==> SlotRendition(s, selected) == HQ
    ensures r <==> SlotRendition(s, !selected) == LQ
  {
    s.firstSoundIsBetter == selected
  }

  /** The two slots always play different renditions. */
  lemma SlotsDiffer(s: Session)
    ensures SlotRendition(s, true) != SlotRendition(s, false)
    ensures IsCorrectAnswer(s, true) != IsCorrectAnswer(s, false)
  {
  }

  /**
   * While a channel exists the sound it plays exists too, so `getTimeInfo`
   * never asks a null sound for its length. Every transport operation keeps
   * this.
   */
  predicate ChannelHasSound(s: Session)
  {
    s.channel.Some? ==> s.sound.Some?
  }

  lemma TransportKeepsChannelHasSound(s: Session, first: bool, created: bool, played: bool)
    requires ChannelHasSound(s)
    ensures ChannelHasSound(StartPlaying(s, first, created, played))
    ensures ChannelHasSound(StartPlayingAtDataRate(s, first, created, played))
    ensures ChannelHasSound(TogglePlaying(s))
    ensures ChannelHasSound(StopPlaying(s))
    ensures IsPlaying(s) ==> s.sound.Some?
  {
  }

  /**
   * What the timer and the seek slider get from the session at each stage of
   * a playback: an idle or freshly started (paused) session leaves the time
   * outputs alone; once playing it reports FMOD's position and length; a
   * seek reaches FMOD from the start of playback until it is stopped.
   */
  lemma TimeInfoFollowsTransport(s: Session, first: bool, cur: uint32, max: uint32,
                                 position: uint32, length: uint32, ms: uint32)
    requires !IsInited(s)
    ensures GetTimeInfo(s, cur, max, position, length) == (cur, max) && SetTime(s, ms).None?
    ensures var started := StartPlaying(s, first, true, true);
            && GetTimeInfo(started, cur, max, position, length) == (cur, max)
            && SetTime(started, ms) == Some(ms)
            && GetTimeInfo(TogglePlaying(started), cur, max, position, length) == (position, length)
            && SetTime(TogglePlaying(started), ms) == Some(ms)
            && GetTimeInfo(StopPlaying(TogglePlaying(started)), cur, max, position, length) == (cur, max)
            && SetTime(StopPlaying(TogglePlaying(started)), ms).None?
    ensures forall created: bool, played: bool :: !(created && played) ==>
              SetTime(StartPlaying(s, first, created, played), ms).None?
  {
  }

  /**
   * Pressing a play button on an idle session (`startPlaying` then
   * `togglePlaying`) plays the slot's rendition; pressing it again pauses;
   * stopping returns to idle.
   */
  lemma {:induction false} PlayPauseStop(s: Session, first: bool)
    requires !IsInited(s)
    ensures var started := TogglePlaying(StartPlaying(s, first, true, true));
            && IsPlaying(started)
            && started.sound == Some(SoundOf(s, SlotRendition(s, first)))
            && !IsPlaying(TogglePlaying(started))
            && !IsInited(StopPlaying(TogglePlaying(started)))
  {
    var launched := StartPlaying(s, first, true, true);
    assert launched.channel == Some(Channel(true));
    assert !IsPlaying(launched);
  }

  /** The eligibility flags only change in `openSound`, which keeps them consistent. */
  lemma OperationsKeepFlagsConsistent(s: Session, path: string, info: Option<StreamInfo>,
                                      decoded: Option<seq<Byte>>, coin: bool, first: bool, created: bool, played: bool)
    requires FlagsConsistent(s)
    requires decoded.Some? ==> |decoded.value| < UINT32_MODULUS
    requires s.sampleRateTest && |s.data48_24| == 0 ==> s.samplingrate >= LOW_RATE && s.channelCount >= 1
    ensures FlagsConsistent(OpenSound(s, path, info).0)
    ensures FlagsConsistent(ReadSound(s, decoded).0)
    ensures FlagsConsistent(ConvertSamplingrate(s, coin))
    ensures FlagsConsistent(ConvertBitdepth(s))
    ensures FlagsConsistent(StartPlaying(s, first, created, played))
    ensures FlagsConsistent(TogglePlaying(s))
    ensures FlagsConsistent(StopPlaying(s))
  {
  }

  /**
   * Rate test of a 24-bit 96 kHz or 192 kHz file in a fresh session: after
   * open, read and `convertSamplingrate`, the HQ rendition is the decoded
   * file at its own rate and the LQ rendition keeps every 2nd or 4th frame of
   * it at 48 kHz.
   */
  lemma {:induction false} RateTestPipeline(rate0: uint32, channels0: uint8, coin0: bool, testing0: bool,
                                            path: string, info: StreamInfo, pcm: seq<Byte>, coin: bool)
    requires info.bits == 24 && (info.frequency == 96000 || info.frequency == 192000)
    requires 1 <= info.channels < 0x100
    requires |pcm| < UINT32_MODULUS
    ensures var probed := OpenSound(NewSession(rate0, channels0, coin0, testing0), path, Some(info)).0;
            var read := ReadSound(probed, Some(pcm)).0;
            && read.samplingrate >= LOW_RATE && read.channelCount >= 1
            && var s := ConvertSamplingrate(read, coin);
            && (DecimationStep(s) == 2 || DecimationStep(s) == 4)
            && DecimationStep(s) == info.frequency / LOW_RATE
            && s.testingSamplerate && s.firstSoundIsBetter == coin
            && SoundOf(s, HQ) == Sound(pcm, info.frequency, 24, info.channels)
            && SoundOf(s, LQ) == Sound(Decimate(pcm, info.frequency / LOW_RATE, 3 * info.channels), LOW_RATE, 24, info.channels)
  {
  }

  /**
   * Bit-depth test of a 24-bit file that does not qualify for the rate test:
   * after open, read, `convertSamplingrate` (which draws the coin) and
   * `convertBitdepth`, the HQ rendition is the decoded file and the LQ
   * rendition its 8-bit requantization.
   */
  lemma {:induction false} DepthTestPipeline(rate0: uint32, channels0: uint8, coin0: bool, testing0: bool,
                                             path: string, info: StreamInfo, pcm: seq<Byte>, coin: bool)
    requires info.bits == 24 && info.frequency != 96000 && info.frequency != 192000
    requires 1 <= info.channels < 0x100
    requires |pcm| < UINT32_MODULUS
    ensures var probed := OpenSound(NewSession(rate0, channels0, coin0, testing0), path, Some(info)).0;
            var read := ReadSound(probed, Some(pcm)).0;
            var s := ConvertBitdepth(ConvertSamplingrate(read, coin));
            && !s.testingSamplerate && s.firstSoundIsBetter == coin
            && SoundOf(s, HQ).data == pcm
            && SoundOf(s, LQ).data == Requantize(pcm)
            && SoundOf(s, HQ).depth == 24 && SoundOf(s, LQ).depth == 8
  {
  }

  /**
   * For a 96 kHz or 192 kHz source the bit-depth conversion works on
   * `data48_24`, which only the rate conversion fills: without it the LQ
   * rendition is empty, with it the LQ rendition is the requantized
   * decimation.
   */
  lemma {:induction false} HighRateDepthTest(rate0: uint32, channels0: uint8, coin0: bool, testing0: bool,
                                             path: string, info: StreamInfo, pcm: seq<Byte>, coin: bool)
    requires info.bits == 24 && (info.frequency == 96000 || info.frequency == 192000)
    requires 1 <= info.channels < 0x100
    requires |pcm| < UINT32_MODULUS
    ensures var probed := OpenSound(NewSession(rate0, channels0, coin0, testing0), path, Some(info)).0;
            var read := ReadSound(probed, Some(pcm)).0;
            && ConvertBitdepth(read).data48_8 == []
            && read.samplingrate >= LOW_RATE && read.channelCount >= 1
            && ConvertBitdepth(ConvertSamplingrate(read, coin)).data48_8
               == Requantize(Decimate(pcm, info.frequency / LOW_RATE, 3 * info.channels))
  {
  }

  /**
   * The rate of the samples in `data48_24` and `data48_8`: 48 kHz after
   * decimating a rate-test source, the source's own rate otherwise.
   */
  function Data48Rate(s: Session): nat
  {
    if s.sampleRateTest then LOW_RATE else s.samplingrate
  }

  /** The rendition table with each buffer played at the rate of its samples. */
  function SoundAtDataRate(s: Session, rendition: Rendition): (snd: Sound)
    ensures snd.data == SoundOf(s, rendition).data && snd.depth == SoundOf(s, rendition).depth
    ensures s.sampleRateTest ==> snd == SoundOf(s, rendition)
  {
    match (s.testingSamplerate, rendition)
    case (true, LQ) => Sound(s.data48_24, Data48Rate(s), 24, s.channelCount)
    case (true, HQ) => Sound(s.data192_24, s.samplingrate, 24, s.channelCount)
    case (false, LQ) => Sound(s.data48_8, Data48Rate(s), 8, s.channelCount)
    case (false, HQ) => Sound(s.data48_24, Data48Rate(s), 24, s.channelCount)
  }

  /**
   * `startPlaying` with each buffer played at the rate of its samples: in the
   * bit-depth test both renditions play at the same rate, the one the
   * buffers were decoded or decimated at.
   */
  function StartPlayingAtDataRate(s: Session, first: bool, created: bool, played: bool): (r: Session)
    ensures IsInited(s) ==> r == s
    ensures !IsInited(s) && created && played ==>
              r.sound == Some(SoundAtDataRate(s, SlotRendition(s, first))) && r.channel == Some(Channel(true))
    ensures !IsInited(s) && created && played && !s.testingSamplerate ==>
              r.sound.value.frequency == (if s.sampleRateTest then LOW_RATE else s.samplingrate)
    ensures !IsInited(s) && !(created && played) ==> !IsInited(r)
    ensures !(created && played) ==> r == s
    ensures r == s.(sound := r.sound, channel := r.channel)
  {
    if IsInited(s) then s
    else Launch(s, SoundAtDataRate(s, SlotRendition(s, first)), created, played)
  }

  /**
   * As written, a bit-depth test of a 24-bit 44.1 kHz stereo file creates
   * its HQ sound at 48 kHz: one second of audio plays in 0.92 seconds.
   */
  lemma DepthTestPlaysAtWrongRate(pcm: seq<Byte>, coin: bool)
    requires |pcm| == 44100 * 6
    ensures var info := StreamInfo(44100, 2, 24);
            var probed := OpenSound(NewSession(0, 0, false, false), "a.flac", Some(info)).0;
            var s := ConvertBitdepth(ConvertSamplingrate(ReadSound(probed, Some(pcm)).0, coin));
            var played := StartPlaying(s, coin, true, true).sound.value;
            && played.data == pcm && played.frequency == 48000
            && |played.data| / (3 * played.channels) != played.frequency
  {
  }

  /**
   * With each buffer played at the rate of its samples, both renditions of
   * a bit-depth test play at the source's rate for any 24-bit source, and
   * the rate test is unchanged.
   */
  lemma DepthTestKeepsSourceRate(rate0: uint32, channels0: uint8, coin0: bool, testing0: bool,
                                 path: string, info: StreamInfo, pcm: seq<Byte>, coin: bool, first: bool)
    requires info.bits == 24 && 1 <= info.channels < 0x100
    requires |pcm| < UINT32_MODULUS
    ensures var probed := OpenSound(NewSession(rate0, channels0, coin0, testing0), path, Some(info)).0;
            var read := ReadSound(probed, Some(pcm)).0;
            var s := ConvertBitdepth(ConvertSamplingrate(read, coin));
            && StartPlayingAtDataRate(s, first, true, true).sound.value.frequency
               == (if read.sampleRateTest then LOW_RATE else info.frequency)
            && (read.sampleRateTest ==> StartPlayingAtDataRate(s, first, true, true) == StartPlaying(s, first, true, true))
  {
  }
}
