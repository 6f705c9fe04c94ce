/**
 * `load_audio_dataframe`: the default track's decoded packets, each holding
 * its samples interleaved frame by frame, are split into one buffer per
 * channel; the table is a `sample_index` column (`u32`) followed by one
 * `Float32` column `channel_{i}` per channel, every channel padded with zeros
 * (or cut) to the length of the first.
 */
module AudioLoader {
  import opened Wrappers
  import opened Text
  import opened Values
  import opened AppErrors
  import opened Frame

  /**
   * What symphonia delivers for the default track: the channel count from its
   * codec parameters and, per decoded packet, the interleaved `f32` samples
   * that `copy_interleaved_ref` leaves in the sample buffer.
   */
  datatype AudioStream = AudioStream(numChannels: nat, packets: seq<seq<F32>>)

  /** `0.0_f32`, the padding value. */
  const ZERO_F32: F32 := 0

  /** `iter().skip(c).step_by(n)`: the samples at `c`, `c + n`, `c + 2n`, and so on. */
  function Strided(s: seq<F32>, c: nat, n: nat): seq<F32>
    requires n > 0
    decreases |s| - c
  {
    if c >= |s| then [] else [s[c]] + Strided(s, c + n, n)
  }

  /** Sample `k` taken at stride `n` from offset `c` is `s[c + k * n]`. */
  lemma {:induction false} StridedAt(s: seq<F32>, c: nat, n: nat, k: nat)
    requires n > 0 && k < |Strided(s, c, n)|
    ensures c + k * n < |s| && Strided(s, c, n)[k] == s[c + k * n]
    decreases k
  {
    if k > 0 {
      StridedAt(s, c + n, n, k - 1);
      MulStep(c, n, k);
    }
  }

  lemma MulStep(c: nat, n: nat, k: nat)
    requires k > 0
    ensures c + n + (k - 1) * n == c + k * n
  {
  }

  /** Past the last sample taken, the next one at stride `n` would lie beyond the buffer. */
  lemma {:induction false} StridedComplete(s: seq<F32>, c: nat, n: nat)
    requires n > 0
    ensures c + |Strided(s, c, n)| * n >= |s|
    decreases |s| - c
  {
    if c < |s| {
      StridedComplete(s, c + n, n);
      MulStep(c, n, |Strided(s, c + n, n)| + 1);
    }
  }

  /** Channel `c` of an interleaved buffer of `n` channels: every sample at `c + k * n`, and none missed. */
  lemma StridedSpec(s: seq<F32>, c: nat, n: nat)
    requires n > 0
    ensures forall k :: 0 <= k < |Strided(s, c, n)| ==> c + k * n < |s| && Strided(s, c, n)[k] == s[c + k * n]
    ensures c + |Strided(s, c, n)| * n >= |s|
  {
    forall k | 0 <= k < |Strided(s, c, n)|
      ensures c + k * n < |s| && Strided(s, c, n)[k] == s[c + k * n]
    {
      StridedAt(s, c, n, k);
    }
    StridedComplete(s, c, n);
  }

  /** Taking at stride `n` past a leading block of `n` samples skips exactly that block. */
  lemma {:induction false} StridedShift(x: seq<F32>, rest: seq<F32>, c: nat, n: nat)
    requires n > 0 && |x| == n
    ensures Strided(x + rest, c + n, n) == Strided(rest, c, n)
    decreases |rest| - c
  {
    if c < |rest| {
      StridedShift(x, rest, c + n, n);
      assert (x + rest)[c + n] == rest[c];
    }
  }

  /** Frames of `n` samples each, laid out one after the other as an interleaved buffer. */
  function Interleave(frames: seq<seq<F32>>): seq<F32> {
    if frames == [] then [] else frames[0] + Interleave(frames[1..])
  }

  /** De-interleaving recovers each channel: channel `c` of an interleaved buffer is sample `c` of every frame. */
  lemma {:induction false} StridedInterleave(frames: seq<seq<F32>>, c: nat, n: nat)
    requires 0 <= c < n
    requires forall k :: 0 <= k < |frames| ==> |frames[k]| == n
    ensures Strided(Interleave(frames), c, n) == seq(|frames|, k requires 0 <= k < |frames| => frames[k][c])
  {
    if frames != [] {
      var rest := Interleave(frames[1..]);
      StridedInterleave(frames[1..], c, n);
      assert Interleave(frames) == frames[0] + rest;
      assert (frames[0] + rest)[c] == frames[0][c];
      StridedShift(frames[0], rest, c, n);
    }
  }

  /** Channel `c` after the packets: each packet's share appended in packet order. */
  function Gathered(packets: seq<seq<F32>>, c: nat, n: nat): seq<F32>
    requires n > 0
  {
    if packets == [] then []
    else Gathered(packets[..|packets| - 1], c, n) + Strided(packets[|packets| - 1], c, n)
  }

  /** The per-channel buffers `channels_data` after the decoding loop. */
  function ChannelData(stream: AudioStream): (chs: seq<seq<F32>>)
    ensures |chs| == stream.numChannels
  {
    var n := stream.numChannels;
    seq(n, c requires 0 <= c < n => Gathered(stream.packets, c, n))
  }

  /** `num_samples`: the first channel's length, 0 without channels. */
  function NumSamples(channels: seq<seq<F32>>): nat {
    if channels == [] then 0 else |channels[0]|
  }

  /** `Vec::resize(len, fill)`: cut to `len`, or padded with `fill` up to it. */
  function Resize(s: seq<F32>, len: nat, fill: F32): (r: seq<F32>)
    ensures |r| == len
    ensures forall i :: 0 <= i < len ==> r[i] == if i < |s| then s[i] else fill
  {
    seq(len, i requires 0 <= i < len => if i < |s| then s[i] else fill)
  }

  /** `channel_{i}`. */
  function ChannelName(i: nat): string {
    "channel_" + Decimal(i)
  }

  /** Channel `i`'s column, resized to `numSamples`. */
  function ChannelColumn(samples: seq<F32>, i: nat, numSamples: nat): (col: Column)
    ensures col.name == ChannelName(i) && col.dtype == Float32Type && |col.cells| == numSamples
    ensures forall k :: 0 <= k < numSamples ==> col.cells[k] == Float32(if k < |samples| then samples[k] else ZERO_F32)
  {
    var padded := Resize(samples, numSamples, ZERO_F32);
    Column(ChannelName(i), Float32Type, seq(numSamples, k requires 0 <= k < numSamples => Float32(padded[k])))
  }

  /** The columns handed to `DataFrame::new`. */
  function AudioColumns(channels: seq<seq<F32>>): (cols: seq<Column>)
    ensures |cols| == |channels| + 1
    ensures cols[0] == IndexColumn("sample_index", NumSamples(channels))
    ensures forall c :: 0 <= c < |channels| ==> cols[c + 1] == ChannelColumn(channels[c], c, NumSamples(channels))
  {
    var num := NumSamples(channels);
    [IndexColumn("sample_index", num)]
      + seq(|channels|, c requires 0 <= c < |channels| => ChannelColumn(channels[c], c, num))
  }

  /** The table built from the channel buffers: empty when there are no samples. */
  function AudioTable(channels: seq<seq<F32>>): Result<seq<Column>, AppError> {
    if NumSamples(channels) == 0 then Ok([])
    else NewDataFrame(AudioColumns(channels))
  }

  /** The whole audio branch; `source` is the decoded track, or the first error symphonia or the file system reports. */
  function AudioLoad(source: Result<AudioStream, AppError>): Result<seq<Column>, AppError> {
    match source
    case Err(e) => Err(e)
    case Ok(stream) => AudioTable(ChannelData(stream))
  }

  /** Channel names differ from one another and from `sample_index`. */
  lemma ChannelNamesDistinct(i: nat, j: nat)
    ensures ChannelName(i) != "sample_index"
    ensures i != j ==> ChannelName(i) != ChannelName(j)
  {
    assert ChannelName(i)[0] == 'c';
    if i != j && ChannelName(i) == ChannelName(j) {
      assert Decimal(i) == ChannelName(i)[8..];
      assert Decimal(j) == ChannelName(j)[8..];
      DecimalInjective(i, j);
    }
  }

  /** The column names of an audio table are distinct. */
  lemma AudioNamesUnique(channels: seq<seq<F32>>)
    ensures UniqueNames(AudioColumns(channels))
  {
    var cols := AudioColumns(channels);
    forall i, j | 0 <= i < j < |cols|
      ensures cols[i].name != cols[j].name
    {
      NamesDiffer(channels, i, j);
    }
  }

  lemma NamesDiffer(channels: seq<seq<F32>>, i: nat, j: nat)
    requires i < j <= |channels|
    ensures AudioColumns(channels)[i].name != AudioColumns(channels)[j].name
  {
    var cols := AudioColumns(channels);
    var num := NumSamples(channels);
    assert cols[j] == ChannelColumn(channels[j - 1], j - 1, num);
    if i == 0 {
      ChannelNamesDistinct(j - 1, j - 1);
    } else {
      assert cols[i] == ChannelColumn(channels[i - 1], i - 1, num);
      ChannelNamesDistinct(i - 1, j - 1);
    }
  }

  /**
   * What an audio table looks like: empty when the first channel (or the
   * channel list) is empty; otherwise a row per sample of the first channel,
   * the row number in `sample_index` and each channel's samples, zero-padded;
   * and a shape error once the sample count no longer fits in `u32`.
   */
  lemma AudioTableShape(channels: seq<seq<F32>>)
    ensures NumSamples(channels) == 0 ==> AudioTable(channels) == Ok([])
    ensures NumSamples(channels) >= U32_MODULUS ==> AudioTable(channels) == Err(Polars(ShapeMismatch))
    ensures 0 < NumSamples(channels) < U32_MODULUS ==>
      var num := NumSamples(channels);
      && AudioTable(channels).Ok?
      && var cols := AudioTable(channels).value;
      && |cols| == |channels| + 1 && Height(cols) == num
      && cols[0].name == "sample_index"
      && (forall i :: 0 <= i < num ==> cols[0].cells[i] == Int(UInt32, i))
      && (forall c :: 0 <= c < |channels| ==> cols[c + 1].name == ChannelName(c) && |cols[c + 1].cells| == num)
      && (forall c, k :: 0 <= c < |channels| && 0 <= k < num ==>
            cols[c + 1].cells[k] == Float32(if k < |channels[c]| then channels[c][k] else ZERO_F32))
  {
    var num := NumSamples(channels);
    if num > 0 {
      var cols := AudioColumns(channels);
      AudioNamesUnique(channels);
      if num >= U32_MODULUS {
        assert |cols[1].cells| != |cols[0].cells|;
      } else {
        assert SameHeight(cols);
      }
    }
  }

  /** One packet's interleaved samples, appended channel by channel. */
  method ExtendChannels(channels: seq<seq<F32>>, samples: seq<F32>, n: nat) returns (out: seq<seq<F32>>)
    requires n > 0 && |channels| == n
    ensures |out| == n
    ensures forall c :: 0 <= c < n ==> out[c] == channels[c] + Strided(samples, c, n)
  {
    out := channels;
    for c := 0 to n
      invariant |out| == n
      invariant forall j :: 0 <= j < c ==> out[j] == channels[j] + Strided(samples, j, n)
      invariant forall j :: c <= j < n ==> out[j] == channels[j]
    {
      var channelSamples := Strided(samples, c, n);
      out := out[c := out[c] + channelSamples];
    }
  }

  /** The decoding loop: every packet's samples are split over the channel buffers. */
  method Deinterleave(stream: AudioStream) returns (channels: seq<seq<F32>>)
    ensures channels == ChannelData(stream)
  {
    var n := stream.numChannels;
    var packets := stream.packets;
    channels := seq(n, _ => []);
    if n == 0 {
      return;
    }
    for pi := 0 to |packets|
      invariant |channels| == n
      invariant forall c :: 0 <= c < n ==> channels[c] == Gathered(packets[..pi], c, n)
    {
      channels := ExtendChannels(channels, packets[pi], n);
      assert packets[..pi + 1][..pi] == packets[..pi];
    }
    assert packets[..|packets|] == packets;
  }

  /** The columns assembled after decoding, `sample_index` first. */
  method BuildAudioColumns(channels: seq<seq<F32>>, numSamples: nat) returns (columnVec: seq<Column>)
    requires numSamples == NumSamples(channels)
    ensures columnVec == AudioColumns(channels)
  {
    var len := AsU32(numSamples);
    var indices := seq(len, i requires 0 <= i < len => Int(UInt32, i));
    columnVec := [Column("sample_index", IntType(UInt32), indices)];
    for i := 0 to |channels|
      invariant |columnVec| == i + 1
      invariant columnVec[0] == IndexColumn("sample_index", numSamples)
      invariant forall c :: 0 <= c < i ==> columnVec[c + 1] == ChannelColumn(channels[c], c, numSamples)
    {
      var samples := Resize(channels[i], numSamples, ZERO_F32);
      var values := seq(numSamples, k requires 0 <= k < numSamples => Float32(samples[k]));
      columnVec := columnVec + [Column(ChannelName(i), Float32Type, values)];
    }
  }

  /** `load_audio_dataframe` on the decoded track. */
  method LoadAudio(source: Result<AudioStream, AppError>) returns (r: Result<seq<Column>, AppError>)
    ensures r == AudioLoad(source)
  {
    if source.Err? {
      return Err(source.error);
    }
    var channels := Deinterleave(source.value);
    var numSamples := if |channels| == 0 then 0 else |channels[0]|;
    if numSamples == 0 {
      return Ok([]);
    }
    var columnVec := BuildAudioColumns(channels, numSamples);
    r := NewDataFrame(columnVec);
  }
}
