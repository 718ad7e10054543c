/**
 The audio side of ffplay: the callback that cuts decoded buffers into the pieces the sound
 card asks for, and the ring of recent samples behind the wave display.
 */
module AudioOutput {
  type Byte = x: int | 0 <= x < 256

  const SDL_AUDIO_MIN_BUFFER_SIZE := 512

  /** audio_decode_frame: a buffer of bytes, or a negative return. */
  datatype Decoded = Buffer(bytes: seq<Byte>) | Error

  lemma MulAtLeast(a: int, n: nat)
    requires a >= 1
    ensures a * n >= n
  {
  }

  lemma MulDistributes(a: int, b: int, n: int)
    ensures (a - b) * n == a * n - b * n
  {
  }

  lemma QuotientUnique(a: int, b: int, n: nat, p: int, r: int)
    requires 0 <= p < n && 0 <= r < n && a * n + p == b * n + r
    ensures p == r
  {
    MulDistributes(a, b, n);
    MulDistributes(b, a, n);
    if a > b {
      MulAtLeast(a - b, n);
    } else if a < b {
      MulAtLeast(b - a, n);
    }
  }

  lemma ModOf(lap: nat, p: nat, n: nat)
    requires 0 <= p < n
    ensures (lap * n + p) % n == p
  {
    var z := lap * n + p;
    QuotientUnique(lap, z / n, n, p, z % n);
  }

  lemma WholeFrames(n: nat, frameSize: nat)
    requires 0 < frameSize
    ensures var m := n / frameSize * frameSize; m % frameSize == 0 && m <= n < m + frameSize
  {
    ModOf(n / frameSize, 0, frameSize);
  }

  /** On error the callback plays as much silence as fits whole frames into the silence buffer. */
  function SilenceSize(frameSize: nat): (n: nat)
    requires 0 < frameSize
    ensures n % frameSize == 0 && n <= 512 < n + frameSize
  {
    WholeFrames(SDL_AUDIO_MIN_BUFFER_SIZE, frameSize);
    SDL_AUDIO_MIN_BUFFER_SIZE / frameSize * frameSize
  }

  function Chunk(d: Decoded, frameSize: nat): (r: seq<Byte>)
    requires 0 < frameSize
    ensures d.Error? ==> |r| == SilenceSize(frameSize) && forall i :: 0 <= i < |r| ==> r[i] == 0
  {
    match d
    case Buffer(bytes) => bytes
    case Error => seq(SilenceSize(frameSize), _ => 0)
  }

  /** What the decoder returns, call after call. */
  datatype Source = Source(decode: nat -> Decoded, frameSize: nat)

  /** The decoder call m, not before call k, brings something to play. */
  ghost predicate SoundAt(src: Source, k: nat, m: nat)
    requires 0 < src.frameSize
  {
    k <= m && Chunk(src.decode(m), src.frameSize) != []
  }

  ghost predicate SoundAfter(src: Source, k: nat)
    requires 0 < src.frameSize
  {
    exists m: nat :: SoundAt(src, k, m)
  }

  /** Empty buffers may come, but never for ever. */
  ghost predicate Productive(src: Source) {
    0 < src.frameSize && forall k: nat :: SoundAfter(src, k)
  }

  lemma SoundComes(src: Source, k: nat) returns (m: nat)
    requires Productive(src)
    ensures SoundAt(src, k, m)
  {
    assert SoundAfter(src, k);
    m :| SoundAt(src, k, m);
  }

  /** The first k buffers, end to end. */
  function Joined(src: Source, k: nat): seq<Byte>
    requires 0 < src.frameSize
  {
    if k == 0 then [] else Joined(src, k - 1) + Chunk(src.decode(k - 1), src.frameSize)
  }

  lemma {:induction false} JoinedGrows(src: Source, j: nat, k: nat)
    requires 0 < src.frameSize && j <= k
    ensures Joined(src, j) <= Joined(src, k)
    decreases k - j
  {
    if j < k {
      JoinedGrows(src, j, k - 1);
      assert Joined(src, k - 1) <= Joined(src, k);
    }
  }

  /** n bytes have been played after k decoder calls, none of them made too early. */
  ghost predicate Played(src: Source, k: nat, n: nat)
    requires 0 < src.frameSize
  {
    n <= |Joined(src, k)| && (k > 0 ==> |Joined(src, k - 1)| < n)
  }

  /**
   Re-chunking: what has been played, and how often the decoder has been called for it,
   depends only on the number of bytes, not on the lengths of the callbacks.
   */
  lemma {:induction false} OutputDependsOnTotalOnly(src: Source, j: nat, k: nat, n: nat)
    requires 0 < src.frameSize && Played(src, j, n) && Played(src, k, n)
    ensures j == k && Joined(src, j)[..n] == Joined(src, k)[..n]
  {
    if j < k {
      JoinedGrows(src, j, k - 1);
    } else if k < j {
      JoinedGrows(src, k, j - 1);
    }
  }

  class AudioDevice {
    const src: Source
    var calls: nat
    var audioBuf: seq<Byte>
    var audioBufSize: nat
    var audioBufIndex: nat
    var audioWriteBufSize: nat
    ghost var played: seq<Byte>

    /** Between the rounds of a callback: the last buffer may have been empty. */
    ghost predicate Filling()
      reads this
    {
      && Productive(src)
      && audioBufIndex <= audioBufSize == |audioBuf|
      && played + audioBuf[audioBufIndex..] == Joined(src, calls)
      && (calls > 0 ==> |Joined(src, calls - 1)| <= |played|)
    }

    ghost predicate Valid()
      reads this
    {
      Filling() && Played(src, calls, |played|)
    }

    constructor (src: Source)
      requires Productive(src)
      ensures Valid() && this.src == src && played == [] && calls == 0
    {
      this.src := src;
      calls, audioBuf, audioBufSize, audioBufIndex, audioWriteBufSize, played := 0, [], 0, 0, 0, [];
    }

    method Refill()
      requires Filling() && audioBufIndex >= audioBufSize
      modifies this
      ensures Filling() && calls == old(calls) + 1 && played == old(played) && audioBufIndex == 0
      ensures audioBuf == Chunk(src.decode(old(calls)), src.frameSize)
    {
      match src.decode(calls) {
        case Error =>
          audioBufSize := SDL_AUDIO_MIN_BUFFER_SIZE / src.frameSize * src.frameSize;
          audioBuf := seq(audioBufSize, _ => 0);
        case Buffer(bytes) =>
          audioBuf := bytes;
          audioBufSize := |bytes|;
      }
      audioBufIndex := 0;
      calls := calls + 1;
      assert played == Joined(src, calls - 1);
      assert audioBuf[audioBufIndex..] == audioBuf;
    }

    /** The memcpy of one round and the bookkeeping around it. */
    method CopyOut(stream: array<Byte>, pos: nat) returns (len1: nat)
      requires Filling() && pos < stream.Length
      modifies this, stream
      ensures Filling() && calls == old(calls) && len1 <= stream.Length - pos
      ensures len1 == 0 <==> old(audioBufIndex == audioBufSize)
      ensures len1 > 0 ==> Played(src, calls, |played|)
      ensures stream[..pos] == old(stream[..pos]) && played == old(played) + stream[pos..pos + len1]
    {
      len1 := audioBufSize - audioBufIndex;
      if len1 > stream.Length - pos {
        len1 := stream.Length - pos;
      }
      ghost var piece := audioBuf[audioBufIndex..audioBufIndex + len1];
      forall i | 0 <= i < len1 {
        stream[pos + i] := audioBuf[audioBufIndex + i];
      }
      assert stream[pos..pos + len1] == piece;
      assert audioBuf[audioBufIndex..] == piece + audioBuf[audioBufIndex + len1..];
      played := played + piece;
      audioBufIndex := audioBufIndex + len1;
      assert played + audioBuf[audioBufIndex..] == Joined(src, calls);
    }

    /** sdl_audio_callback: fill the whole of stream. */
    method Callback(stream: array<Byte>)
      requires Valid()
      modifies this, stream
      ensures Valid() && played == old(played) + stream[..]
      ensures stream[..] == Joined(src, calls)[|old(played)|..|old(played)| + stream.Length]
      ensures audioWriteBufSize == |Joined(src, calls)| - |played|
    {
      var pos := 0;
      hide Joined, SoundAfter;
      ghost var sound: nat := SoundComes(src, calls);
      while pos < stream.Length
        invariant Filling() && 0 <= pos <= stream.Length
        invariant pos == stream.Length ==> Played(src, calls, |played|)
        invariant played == old(played) + stream[..pos]
        invariant SoundAt(src, calls, sound)
        decreases stream.Length - pos, sound - calls
      {
        if audioBufIndex >= audioBufSize {
          Refill();
        }
        var len1 := CopyOut(stream, pos);
        assert stream[..pos + len1] == stream[..pos] + stream[pos..pos + len1];
        pos := pos + len1;
        if calls > sound {
          sound := SoundComes(src, calls);
        }
      }
      audioWriteBufSize := audioBufSize - audioBufIndex;
      assert stream[..pos] == stream[..];
      assert Joined(src, calls)[..|played|] == played;
    }
  }

  // ------------------------------------------------------------------------- sample ring

  const SAMPLE_ARRAY_SIZE := 8 * 65536

  /** The ring shows the last samples of a history, each at its position modulo the ring size. */
  ghost predicate ShowsRecent(ring: seq<int>, hist: seq<int>)
    requires |ring| > 0
  {
    forall t :: 0 <= t < |hist| && |hist| - |ring| <= t ==> ring[t % |ring|] == hist[t]
  }

  /** The same said with laps: `base` samples filled whole laps, `index` more are in the current one. */
  ghost predicate Lapped(ring: seq<int>, hist: seq<int>, base: nat, index: nat) {
    && index <= |ring| && |hist| == base + index
    && (forall p :: 0 <= p < index ==> ring[p] == hist[base + p])
    && (base > 0 ==> base >= |ring| && forall p :: index <= p < |ring| ==> ring[p] == hist[base - |ring| + p])
  }

  lemma {:induction false} LapsShowRecent(ring: seq<int>, hist: seq<int>, base: nat, index: nat)
    requires |ring| > 0 && Lapped(ring, hist, base, index) && base % |ring| == 0
    ensures ShowsRecent(ring, hist) && (index < |ring| ==> |hist| % |ring| == index)
  {
    var n := |ring|;
    var lap := base / n;
    assert base == lap * n;
    if index < n {
      ModOf(lap, index, n);
    }
    forall t | 0 <= t < |hist| && |hist| - n <= t ensures ring[t % n] == hist[t] {
      if t >= base {
        if t - base < n {
          ModOf(lap, t - base, n);
        }
      } else {
        assert base >= n && lap >= 1;
        ModOf(lap - 1, t - (base - n), n);
        assert (lap - 1) * n == base - n;
      }
    }
  }

  /** What a memcpy into the current lap does, and that a full lap can be read as the start of the next. */
  lemma {:induction false} CopyKeepsLaps(before: seq<int>, after: seq<int>, hist: seq<int>, base: nat, index: nat,
                                         samples: seq<int>)
    requires Lapped(before, hist, base, index) && |after| == |before| && index + |samples| <= |before|
    requires forall p :: 0 <= p < |after| ==>
      after[p] == if index <= p < index + |samples| then samples[p - index] else before[p]
    ensures Lapped(after, hist + samples, base, index + |samples|)
    ensures index + |samples| == |after| ==> Lapped(after, hist + samples, base + |after|, 0)
  {
    var all := hist + samples;
    forall p | 0 <= p < index + |samples| ensures after[p] == all[base + p] {
      if p < index {
        assert all[base + p] == hist[base + p];
      }
    }
    if base > 0 {
      forall p | index + |samples| <= p < |after| ensures after[p] == all[base - |after| + p] {
        assert all[base - |after| + p] == hist[base - |before| + p];
      }
    }
  }

  class SampleDisplay {
    const ring: array<int>
    var index: nat
    ghost var hist: seq<int>
    ghost var base: nat

    ghost predicate Valid()
      reads this, ring
    {
      && ring.Length == SAMPLE_ARRAY_SIZE && index < SAMPLE_ARRAY_SIZE
      && base % SAMPLE_ARRAY_SIZE == 0 && Lapped(ring[..], hist, base, index)
    }

    constructor ()
      ensures Valid() && hist == [] && fresh(ring)
    {
      ring := new int[SAMPLE_ARRAY_SIZE](_ => 0);
      index, hist, base := 0, [], 0;
    }

    /** One memcpy of the loop: at most up to the end of the array. */
    method Copy(samples: seq<int>)
      requires Valid() && samples != [] && |samples| <= SAMPLE_ARRAY_SIZE - index
      modifies this, ring
      ensures Valid() && hist == old(hist) + samples
    {
      forall i | 0 <= i < |samples| {
        ring[index + i] := samples[i];
      }
      CopyKeepsLaps(old(ring[..]), ring[..], hist, base, index, samples);
      hist := hist + samples;
      index := index + |samples|;
      if index >= SAMPLE_ARRAY_SIZE {
        index := 0;
        base := base + SAMPLE_ARRAY_SIZE;
      }
    }

    /** update_sample_display, with the size in bytes as its caller passes it. */
    method Update(samples: seq<int>, samplesSize: nat)
      requires Valid() && |samples| >= samplesSize / 2
      modifies this, ring
      ensures Valid() && hist == old(hist) + samples[..samplesSize / 2]
      ensures ShowsRecent(ring[..], hist) && index == |hist| % SAMPLE_ARRAY_SIZE
    {
      var size := samplesSize / 2;
      var pos := 0;
      while size > 0
        invariant Valid() && pos >= 0 && size >= 0 && pos + size == samplesSize / 2
        invariant hist == old(hist) + samples[..pos]
      {
        var len := SAMPLE_ARRAY_SIZE - index;
        if len > size {
          len := size;
        }
        Copy(samples[pos..pos + len]);
        assert samples[..pos] + samples[pos..pos + len] == samples[..pos + len];
        pos := pos + len;
        size := size - len;
      }
      LapsShowRecent(ring[..], hist, base, index);
    }
  }
}
