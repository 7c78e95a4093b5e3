/** The native (DPF) plugin class of src/plugin.cpp: its label, the descriptors it fills in
    for the host (audio ports grouped into stereo pairs, the single base64 state), and the
    audio callback, which converts the host's frame counter into a signed sample position
    before handing everything to the Rust plugin. */
module NativePlugin {
  import opened MachineInts
  import opened Decimal
  import opened Wrappers
  import RustPlugin

  /** The characters DPF allows in a symbol: ASCII letters, digits and `_`. */
  predicate IsSymbolChar(c: char) {
    ('a' <= c <= 'z') || ('A' <= c <= 'Z') || IsDigit(c) || c == '_'
  }

  predicate IsSymbolText(s: string) {
    forall i :: 0 <= i < |s| ==> IsSymbolChar(s[i])
  }

  /** A symbol proper: symbol characters, not starting with a digit. */
  predicate IsSymbol(s: string) {
    0 < |s| && IsSymbolText(s) && !IsDigit(s[0])
  }

  /** `getLabel`: "my_plugin", with "_debug" appended in a DEBUG build. A label follows the
      rules of a symbol except that it may start with a digit. */
  function Label(debug: bool): (text: string)
    ensures IsSymbol(text)
    ensures |text| >= 9 && text[..9] == "my_plugin"
    ensures debug <==> text != "my_plugin"
  {
    if debug then "my_plugin_debug" else "my_plugin"
  }

  /** The stereo pair an audio port belongs to. */
  function PortGroup(index: u32): (group: u32)
    ensures 2 * group as int <= index as int < 2 * group as int + 2
  {
    index / 2
  }

  /** The one-based channel-pair number written into port names and symbols. */
  function PairNumber(index: u32): (n: nat)
    ensures n == PortGroup(index) as int + 1
  {
    index as int / 2 + 1
  }

  /** `port.name`: "Channel " followed by the pair number in decimal, without padding. */
  function PortName(index: u32): (name: string)
    ensures |name| > 8 && name[..8] == "Channel "
    ensures AllDigits(name[8..]) && DigitsValue(name[8..]) == PairNumber(index)
    ensures name[8] != '0'
  {
    var digits := NatToString(PairNumber(index));
    DigitsValueOfNatToString(PairNumber(index));
    assert ("Channel " + digits)[8..] == digits;
    "Channel " + digits
  }

  /** `port.symbol`: "channel_" followed by the pair number in decimal, without padding; a
      valid symbol. */
  function PortSymbol(index: u32): (symbol: string)
    ensures IsSymbol(symbol)
    ensures |symbol| > 8 && symbol[..8] == "channel_"
    ensures AllDigits(symbol[8..]) && DigitsValue(symbol[8..]) == PairNumber(index)
    ensures symbol[8] != '0'
  {
    var digits := NatToString(PairNumber(index));
    DigitsValueOfNatToString(PairNumber(index));
    var symbol := "channel_" + digits;
    assert symbol[8..] == digits;
    assert forall i :: 8 <= i < |symbol| ==> symbol[i] == digits[i - 8];
    symbol
  }

  /** Ports 2k and 2k+1 form pair k and carry the same name and symbol. */
  lemma PairedPortsAgree(k: u32)
    requires 2 * k as int + 1 < TWO_TO_THE_32
    ensures PortGroup(2 * k) == PortGroup(2 * k + 1) == k
    ensures PortName(2 * k) == PortName(2 * k + 1)
    ensures PortSymbol(2 * k) == PortSymbol(2 * k + 1)
  {
  }

  /** Two ports get the same name exactly when they are in the same pair; likewise symbols. */
  lemma PortNamesIdentifyPairs(a: u32, b: u32)
    ensures PortName(a) == PortName(b) <==> PortGroup(a) == PortGroup(b)
    ensures PortSymbol(a) == PortSymbol(b) <==> PortGroup(a) == PortGroup(b)
  {
    if PortName(a) == PortName(b) {
      assert PortName(a)[8..] == PortName(b)[8..];
    }
    if PortSymbol(a) == PortSymbol(b) {
      assert PortSymbol(a)[8..] == PortSymbol(b)[8..];
    }
  }

  /** The C++ conversion `int64_t samplePosition = frame` of a `uint64_t` frame counter:
      the same 64 bits read as two's complement. */
  function SamplePosition(frame: u64): (position: i64)
    ensures position as int % TWO_TO_THE_64 == frame as int
    ensures position < 0 <==> frame as int >= TWO_TO_THE_63
  {
    if frame as int < TWO_TO_THE_63 then frame as int as i64
    else (frame as int - TWO_TO_THE_64) as i64
  }

  /** The opposite conversion, `int64_t` to `uint64_t`, modulo 2^64. */
  function FrameOf(position: i64): (frame: u64)
    ensures frame as int == position as int % TWO_TO_THE_64
  {
    if position < 0 then (position as int + TWO_TO_THE_64) as u64 else position as int as u64
  }

  /** The reinterpretation loses nothing: the two conversions are inverse to each other. */
  lemma SamplePositionRoundTrip(frame: u64, position: i64)
    ensures FrameOf(SamplePosition(frame)) == frame
    ensures SamplePosition(FrameOf(position)) == position
  {
  }

  /** DPF's `AudioPort`, reduced to the fields `initAudioPort` assigns. */
  class AudioPort {
    var groupId: u32
    var name: string
    var symbol: string

    constructor ()
      ensures groupId == 0 && name == [] && symbol == []
    {
      groupId, name, symbol := 0, [], [];
    }
  }

  /** The hint `initState` gives: the state value is a base64 blob. */
  datatype StateHint = StateIsBase64Blob

  /** DPF's `State`, reduced to the fields `initState` assigns. */
  class State {
    var defaultValue: string
    var key: string
    var hints: set<StateHint>

    constructor ()
      ensures defaultValue == [] && key == [] && hints == {}
    {
      defaultValue, key, hints := [], [], {};
    }
  }

  /** `MyPlugin`: owns the Rust plugin object for its whole life. */
  class MyPlugin {
    const inner: RustPlugin.PluginImpl

    /** Builds the Rust plugin around default parameters. */
    constructor ()
      ensures fresh(inner)
      ensures inner.State() == RustPlugin.InitialState(RustPlugin.PluginParams(""))
    {
      inner := new RustPlugin.PluginImpl(RustPlugin.PluginParams(""));
    }

    /** `initAudioPort`: the same descriptor for input and output ports of one index. */
    method InitAudioPort(input: bool, index: u32, port: AudioPort)
      modifies port
      ensures port.groupId == PortGroup(index)
      ensures port.name == PortName(index) && port.symbol == PortSymbol(index)
    {
      port.groupId := index / 2;
      port.name := "Channel " + NatToString(index as int / 2 + 1);
      port.symbol := "channel_" + NatToString(index as int / 2 + 1);
    }

    /** `initState`: the one state is keyed "state", defaults to "" and is a base64 blob. */
    method InitState(index: u32, state: State)
      modifies state
      ensures state.defaultValue == "" && state.key == "state" && state.hints == {StateIsBase64Blob}
    {
      state.defaultValue := "";
      state.key := "state";
      state.hints := {StateIsBase64Blob};
    }

    /** `setState`: forwards the value to the Rust plugin and ignores its result. */
    method SetState(key: string, value: string, decoded: Result<RustPlugin.PluginParams, RustPlugin.StateError>)
      modifies inner`params
      ensures inner.params == RustPlugin.SetStateStep(old(inner.params), value, decoded).0
    {
      var _ := inner.SetState(value, decoded);
    }

    /** `run`: passes the buffers, the sample rate, the transport flag and the frame
        counter reinterpreted as a signed position to the Rust callback. */
    method Run(inputs: seq<seq<real>>, outputs: array<array<real>>, sampleRate: real,
               frame: u64, playing: bool, lockAcquired: bool, sendSucceeds: bool)
      returns (attempted: Option<RustPlugin.UiNotification>)
      modifies inner, set i | 0 <= i < outputs.Length :: outputs[i]
      ensures forall i, j :: 0 <= i < outputs.Length && 0 <= j < outputs[i].Length ==> outputs[i][j] == 0.0
      ensures RustPlugin.RunOutcome(inner.State(), attempted) ==
              RustPlugin.RunStep(old(inner.State()),
                RustPlugin.RunInput(sampleRate, playing, SamplePosition(frame), lockAcquired, sendSucceeds))
    {
      var samplePosition := SamplePosition(frame);
      attempted := inner.Run(inputs, outputs, sampleRate, playing, samplePosition, lockAcquired, sendSucceeds);
    }
  }
}
