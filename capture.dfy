/** The microphone capture of `audio/capture.rs`: a mono sample buffer filled
    by the input-stream callback, with a soft cap, cleared when capture
    starts, copied by snapshots and taken by `stop`. The audio host and its
    devices are values handed in by the caller; samples are reals. */
module Capture {
  import opened Wrappers

  /** `MAX_BUFFER_SAMPLES`: ten minutes at 48 kHz, mono. */
  const MaxBufferSamples: nat := 48000 * 60 * 10

  /** What `default_input_config` reports for a device. */
  datatype InputConfig = InputConfig(sampleRate: nat, channels: nat)

  /** An input device: its name (reading it can fail), its default input
      configuration (reading it can fail), and whether building and playing
      an input stream on it succeed. */
  datatype Device = Device(name: Option<string>, config: Result<InputConfig>, build: Outcome, play: Outcome)

  /** The default audio host: its input-device list (listing can fail) and
      its default input device, if any. */
  datatype Host = Host(inputs: Result<seq<Device>>, defaultInput: Option<Device>)

  /** The index of the first device named `id`. */
  function FirstNamed(devices: seq<Device>, id: string): (r: Option<nat>)
    ensures r.Some? ==> r.value < |devices| && devices[r.value].name == Some(id)
    ensures r.Some? ==> forall j :: 0 <= j < r.value ==> devices[j].name != Some(id)
    ensures r.None? <==> forall j :: 0 <= j < |devices| ==> devices[j].name != Some(id)
  {
    if devices == [] then None
    else if devices[0].name == Some(id) then Some(0)
    else match FirstNamed(devices[1..], id)
      case None => None
      case Some(i) => Some(i + 1)
  }

  /** `get_device`: the first input device with the given name, or the
      default input device when no name is given. */
  function GetDevice(host: Host, id: Option<string>): (r: Result<Device>)
    ensures id.Some? && r.Ok? ==> r.value.name == id
    ensures id.Some? && host.inputs.Ok? ==>
      (r.Ok? <==> exists j :: 0 <= j < |host.inputs.value| && host.inputs.value[j].name == id)
    ensures id.Some? && host.inputs.Ok? && r.Err? ==> r.error == "Device '" + id.value + "' not found"
    ensures id.Some? && host.inputs.Err? ==> r == Err(host.inputs.error)
    ensures id.None? ==> (r.Ok? <==> host.defaultInput.Some?)
    ensures id.None? && r.Ok? ==> r.value == host.defaultInput.value
    ensures id.None? && r.Err? ==> r.error == "No default input device"
  {
    match id
    case Some(name) =>
      (match host.inputs
       case Err(e) => Err(e)
       case Ok(devices) =>
         match FirstNamed(devices, name)
         case Some(i) => Ok(devices[i])
         case None => Err("Device '" + name + "' not found"))
    case None =>
      match host.defaultInput
      case Some(d) => Ok(d)
      case None => Err("No default input device")
  }

  function Sum(s: seq<real>): real {
    if s == [] then 0.0 else Sum(s[..|s| - 1]) + s[|s| - 1]
  }

  function Min(a: nat, b: nat): nat {
    if a <= b then a else b
  }

  /** The number of frames `chunks(channels)` cuts `len` samples into:
      whole frames and one short frame at the end. There are never more
      frames than samples, and none only for no samples. */
  function Frames(len: nat, channels: nat): (f: nat)
    requires channels > 0
    ensures f <= len
    ensures f == 0 <==> len == 0
    decreases len
  {
    if len == 0 then 0 else Frames(len - Min(channels, len), channels) + 1
  }

  /** The frame count is `len / channels` rounded up. */
  lemma {:induction false} FramesRoundUp(len: nat, channels: nat)
    requires channels > 0
    ensures Frames(len, channels) * channels >= len
    ensures Frames(len, channels) == 0 || (Frames(len, channels) - 1) * channels < len
    decreases len
  {
    if len > 0 {
      var n := Min(channels, len);
      var f' := Frames(len - n, channels);
      FramesRoundUp(len - n, channels);
      assert Frames(len, channels) == f' + 1;
      assert (f' + 1) * channels == f' * channels + channels;
      if f' > 0 {
        MulStep(f', channels);
      }
    }
  }

  /** Multichannel samples folded to mono: one sample per frame (the last
      frame may be short), the frame's sum divided by the channel count. */
  function Downmix(data: seq<real>, channels: nat): (r: seq<real>)
    requires channels > 1
    ensures |r| == Frames(|data|, channels)
    decreases |data|
  {
    if data == [] then []
    else
      var n := Min(channels, |data|);
      [Sum(data[..n]) / channels as real] + Downmix(data[n..], channels)
  }

  /** Frame `k` of the data: the `channels` samples after the first `k`
      frames, fewer at the end. */
  function Frame(data: seq<real>, channels: nat, k: nat): seq<real>
    requires channels > 1 && k < Frames(|data|, channels)
    decreases k
  {
    var n := Min(channels, |data|);
    if k == 0 then data[..n] else Frame(data[n..], channels, k - 1)
  }

  lemma MulStep(k: nat, c: nat)
    requires k > 0
    ensures (k - 1) * c + c == k * c
  {
  }

  /** Frame `k` starts at `k * channels`. */
  lemma FrameIsSlice(data: seq<real>, channels: nat, k: nat)
    requires channels > 1 && k < Frames(|data|, channels)
    ensures k * channels < |data|
    ensures Frame(data, channels, k) == data[k * channels..Min(k * channels + channels, |data|)]
  {
    StartIsProduct(k, channels);
    FrameFrom(data, channels, k);
  }

  /** The offset of frame `k`, one frame length at a time. */
  function Start(k: nat, channels: nat): nat {
    if k == 0 then 0 else Start(k - 1, channels) + channels
  }

  lemma {:induction false} StartIsProduct(k: nat, channels: nat)
    ensures Start(k, channels) == k * channels
  {
    if k > 0 {
      StartIsProduct(k - 1, channels);
      MulStep(k, channels);
    }
  }

  lemma {:induction false} FrameFrom(data: seq<real>, channels: nat, k: nat)
    requires channels > 1 && k < Frames(|data|, channels)
    ensures Start(k, channels) < |data|
    ensures Frame(data, channels, k) == data[Start(k, channels)..Min(Start(k, channels) + channels, |data|)]
    decreases k
  {
    if k == 0 {
      assert data[..Min(channels, |data|)] == data[0..Min(0 + channels, |data|)];
    } else {
      SecondFrame(|data|, channels);
      var rest := data[channels..];
      assert Frame(data, channels, k) == Frame(rest, channels, k - 1);
      FrameFrom(rest, channels, k - 1);
      var m := Start(k - 1, channels);
      var hi := Min(m + channels, |rest|);
      SliceOfRest(data, channels, m, hi);
    }
  }

  lemma SliceOfRest(data: seq<real>, d: nat, lo: nat, hi: nat)
    requires d <= |data| && lo <= hi <= |data| - d
    ensures data[d..][lo..hi] == data[d + lo..d + hi]
  {
  }

  /** Data cut into two frames or more is longer than one frame, and the
      frames after the first are those of the rest. */
  lemma SecondFrame(len: nat, channels: nat)
    requires channels > 1 && Frames(len, channels) >= 2
    ensures len > channels
    ensures Frames(len, channels) == Frames(len - channels, channels) + 1
  {
    assert Frames(len, channels) == Frames(len - Min(channels, len), channels) + 1;
  }

  /** Every output sample is the sum of its frame over the channel count. */
  lemma {:induction false} DownmixAt(data: seq<real>, channels: nat, k: nat)
    requires channels > 1 && k < Frames(|data|, channels)
    ensures Downmix(data, channels)[k] == Sum(Frame(data, channels, k)) / channels as real
    decreases k
  {
    if k > 0 {
      DownmixAt(data[Min(channels, |data|)..], channels, k - 1);
    }
  }

  /** What one callback appends: mono data verbatim, otherwise one folded
      sample per frame. */
  function Converted(data: seq<real>, channels: nat): (r: seq<real>)
    ensures |r| <= |data|
    ensures channels <= 1 ==> r == data
  {
    if channels > 1 then Downmix(data, channels)
    else data
  }

  /** The `for chunk in data.chunks(channels)` loop of the callback. */
  method FoldFrames(data: seq<real>, channels: nat) returns (pushed: seq<real>)
    requires channels > 1
    ensures pushed == Downmix(data, channels)
  {
    pushed := [];
    var rest := data;
    while rest != []
      invariant pushed + Downmix(rest, channels) == Downmix(data, channels)
      decreases |rest|
    {
      var n := Min(channels, |rest|);
      var chunk := rest[..n];
      var mono := Sum(chunk) / channels as real;
      assert Downmix(rest, channels) == [mono] + Downmix(rest[n..], channels);
      assert pushed + Downmix(rest, channels) == (pushed + [mono]) + Downmix(rest[n..], channels);
      pushed := pushed + [mono];
      rest := rest[n..];
    }
  }

  /** `AudioCapture`: while `streaming` holds the input stream is alive and
      its callback appends to `buffer`. `streamChannels` is the channel count
      the live callback was built with; `lockPoisoned` records that the
      buffer's mutex was poisoned by a panicking holder. */
  class AudioCapture {
    var streaming: bool
    var buffer: seq<real>
    var sampleRate: nat
    var channels: nat
    var streamChannels: nat
    var lockPoisoned: bool

    /** The state `new` builds from the device's configuration. */
    constructor (config: InputConfig)
      ensures !streaming && buffer == [] && !lockPoisoned
      ensures sampleRate == config.sampleRate && channels == config.channels
      ensures streamChannels == config.channels
    {
      streaming := false;
      buffer := [];
      sampleRate := config.sampleRate;
      channels := config.channels;
      streamChannels := config.channels;
      lockPoisoned := false;
    }

    /** `AudioCapture::new`: fails when there is no such device or its
        configuration cannot be read. */
    static method New(host: Host, id: Option<string>) returns (r: Result<AudioCapture>)
      ensures GetDevice(host, id).Err? ==> r == Err(GetDevice(host, id).error)
      ensures GetDevice(host, id).Ok? && GetDevice(host, id).value.config.Err? ==>
        r == Err(GetDevice(host, id).value.config.error)
      ensures r.Ok? <==> GetDevice(host, id).Ok? && GetDevice(host, id).value.config.Ok?
      ensures r.Ok? ==> fresh(r.value) && !r.value.streaming && r.value.buffer == [] && !r.value.lockPoisoned
      ensures r.Ok? ==> r.value.sampleRate == GetDevice(host, id).value.config.value.sampleRate
      ensures r.Ok? ==> r.value.channels == GetDevice(host, id).value.config.value.channels
    {
      var device := GetDevice(host, id);
      if device.Err? {
        return Err(device.error);
      }
      var config := device.value.config;
      if config.Err? {
        return Err(config.error);
      }
      var c := new AudioCapture(config.value);
      return Ok(c);
    }

    function IsRecording(): bool
      reads this
    {
      streaming
    }

    /** `start`: on a device and configuration that can be read, rate and
        channels are taken from the configuration and the buffer is cleared,
        all before the stream is built; the stream is kept only once it
        plays. */
    method Start(host: Host, id: Option<string>) returns (r: Outcome)
      modifies this
      ensures lockPoisoned == old(lockPoisoned)
      ensures var d := GetDevice(host, id);
        if d.Err? then r == Fail(d.error) && unchanged(this)
        else if d.value.config.Err? then r == Fail(d.value.config.error) && unchanged(this)
        else
          && sampleRate == d.value.config.value.sampleRate
          && channels == d.value.config.value.channels
          && buffer == (if lockPoisoned then old(buffer) else [])
          && (if d.value.build.Fail? then r == d.value.build
              else if d.value.play.Fail? then r == d.value.play
              else r == Pass)
          && (r.Pass? ==> streaming && streamChannels == channels)
          && (r.Fail? ==> streaming == old(streaming) && streamChannels == old(streamChannels))
    {
      var device := GetDevice(host, id);
      if device.Err? {
        return Fail(device.error);
      }
      var config := device.value.config;
      if config.Err? {
        return Fail(config.error);
      }
      sampleRate := config.value.sampleRate;
      channels := config.value.channels;
      if !lockPoisoned {
        buffer := [];
      }
      if device.value.build.Fail? {
        return device.value.build;
      }
      if device.value.play.Fail? {
        return device.value.play;
      }
      streaming := true;
      streamChannels := channels;
      return Pass;
    }

    /** The input callback: nothing happens once the buffer holds
        `MaxBufferSamples` or more; otherwise the whole converted chunk is
        appended, so the buffer only grows at its end. */
    method OnInput(data: seq<real>)
      modifies this
      ensures streaming == old(streaming) && sampleRate == old(sampleRate) && channels == old(channels)
      ensures streamChannels == old(streamChannels) && lockPoisoned == old(lockPoisoned)
      ensures buffer == if lockPoisoned || |old(buffer)| >= MaxBufferSamples then old(buffer)
                        else old(buffer) + Converted(data, streamChannels)
      ensures |buffer| < MaxBufferSamples + |data| || buffer == old(buffer)
    {
      if lockPoisoned || |buffer| >= MaxBufferSamples {
        return;
      }
      var ch := streamChannels;
      if ch > 1 {
        var mono := FoldFrames(data, ch);
        buffer := buffer + mono;
      } else {
        buffer := buffer + data;
      }
    }

    /** A panic inside the callback while it holds the buffer lock. */
    method PoisonLock()
      modifies this
      ensures lockPoisoned
      ensures streaming == old(streaming) && buffer == old(buffer) && sampleRate == old(sampleRate)
      ensures channels == old(channels) && streamChannels == old(streamChannels)
    {
      lockPoisoned := true;
    }

    /** `stop`: the stream is dropped first; then the buffer and rate are
        returned and the buffer is cleared, unless the lock is poisoned. */
    method Stop() returns (r: Result<(seq<real>, nat)>)
      modifies this
      ensures !streaming
      ensures sampleRate == old(sampleRate) && channels == old(channels)
      ensures streamChannels == old(streamChannels) && lockPoisoned == old(lockPoisoned)
      ensures lockPoisoned ==> r.Err? && buffer == old(buffer)
      ensures !lockPoisoned ==> r == Ok((old(buffer), old(sampleRate))) && buffer == []
    {
      streaming := false;
      if lockPoisoned {
        return Err("Failed to lock audio buffer: poisoned lock: another task failed inside");
      }
      var audio := buffer;
      buffer := [];
      return Ok((audio, sampleRate));
    }

    /** `get_audio_snapshot`: a copy of the buffer (empty when the lock is
        poisoned) and the rate; nothing changes. */
    method Snapshot() returns (audio: seq<real>, rate: nat)
      ensures audio == (if lockPoisoned then [] else buffer) && rate == sampleRate
    {
      if lockPoisoned {
        audio := [];
      } else {
        audio := buffer;
      }
      rate := sampleRate;
    }
  }

}
