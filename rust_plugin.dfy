/** The Rust side of the plugin (src/plugin.rs): the `PluginImpl` object that the native
    plugin owns, its initial state, the empty-input branch of `set_state`, and the audio
    callback `run`, which silences every output buffer and, when it can take the plugin's
    lock, tracks the host's sample position and transport state and tells the UI when the
    transport starts or stops. */
module RustPlugin {
  import opened Wrappers
  import opened MachineInts

  /** The one message the audio callback sends to the UI. */
  datatype UiNotification = UpdatePlayingState(isPlaying: bool)

  /** The sending half of an unbounded channel, identified by the channel it feeds. */
  datatype Sender = Sender(channel: nat)

  /** The persisted settings structure. */
  datatype PluginParams = PluginParams(dummy: string)

  /** Why a non-empty state string could not be loaded (bad base64 or bad binary encoding). */
  datatype StateError = InvalidBase64 | InvalidEncoding

  /** The f32 value `current_position`, kept unevaluated: either the initial 0.0, or
      `(sample as f32 / sampleRate).max(0.0)` for the sample and rate it was computed from. */
  datatype Seconds = ZeroSeconds | SampleOverRate(sample: i64, sampleRate: real)

  /** The fields of `PluginImpl` as one value. */
  datatype PluginState = PluginState(
    notificationSender: Option<Sender>,
    params: PluginParams,
    prevPosition: i64,
    prevIsPlaying: bool,
    currentPosition: Seconds,
    currentPositionUpdated: bool)

  /** What `PluginImpl::new` builds around the given parameters. */
  function InitialState(params: PluginParams): PluginState {
    PluginState(None, params, 0, false, ZeroSeconds, false)
  }

  /** Loading a state string into `params`, with the base64-then-bincode decoding of the
      string given as `decoded` (that decoding is a library call outside the model).
      Returns the new parameters and the call's result. */
  function SetStateStep(params: PluginParams, stateBase64: string, decoded: Result<PluginParams, StateError>)
    : (r: (PluginParams, Result<(), StateError>))
    ensures stateBase64 == [] ==> r.0 == params && r.1 == Success(())
    ensures r.1.Failure? ==> r.0 == params && stateBase64 != [] && decoded == Failure(r.1.error)
    ensures r.1.Success? && stateBase64 != [] ==> decoded.Success? && r.0 == decoded.value
  {
    if stateBase64 == [] then (params, Success(()))
    else match decoded
      case Failure(e) => (params, Failure(e))
      case Success(p) => (p, Success(()))
  }

  /** The scalar arguments of one audio callback, with the two outcomes the model does not
      compute: whether `try_lock` on the plugin succeeded and whether a channel send would succeed. */
  datatype RunInput = RunInput(
    sampleRate: real,
    isPlaying: bool,
    currentSample: i64,
    lockAcquired: bool,
    sendSucceeds: bool)

  /** The plugin's state after a callback and the notification handed to the sender, if any. */
  datatype RunOutcome = RunOutcome(state: PluginState, attempted: Option<UiNotification>)

  /** The effect of one audio callback on the plugin's fields. */
  function RunStep(s: PluginState, input: RunInput): (r: RunOutcome)
    // without the lock nothing changes and nothing is sent
    ensures !input.lockAcquired ==> r.state == s && r.attempted == None
    ensures r.state.params == s.params
    // with the lock, the last seen position and transport flag are those of this call
    ensures input.lockAcquired ==>
              r.state.prevPosition == input.currentSample && r.state.prevIsPlaying == input.isPlaying
    // a repeated position leaves the position fields alone
    ensures input.lockAcquired && s.prevPosition == input.currentSample ==>
              r.state.currentPosition == s.currentPosition
    ensures input.lockAcquired && s.prevPosition != input.currentSample ==>
              r.state.currentPosition == SampleOverRate(input.currentSample, input.sampleRate)
    // the "updated" flag is only ever raised, and raised exactly when the position moved
    ensures r.state.currentPositionUpdated <==>
              s.currentPositionUpdated || (input.lockAcquired && s.prevPosition != input.currentSample)
    // a notification is attempted exactly on a transport transition seen while a sender is held
    ensures r.attempted.Some? <==>
              input.lockAcquired && s.prevIsPlaying != input.isPlaying && s.notificationSender.Some?
    ensures r.attempted.Some? ==> r.attempted.value == UpdatePlayingState(input.isPlaying)
    // the sender is dropped exactly when an attempted send fails
    ensures r.state.notificationSender ==
              if r.attempted.Some? && !input.sendSucceeds then None else s.notificationSender
  {
    if !input.lockAcquired then RunOutcome(s, None)
    else
      var moved :=
        if s.prevPosition != input.currentSample then
          s.(prevPosition := input.currentSample,
             currentPosition := SampleOverRate(input.currentSample, input.sampleRate),
             currentPositionUpdated := true)
        else s;
      if moved.prevIsPlaying != input.isPlaying then
        var flipped := moved.(prevIsPlaying := input.isPlaying);
        match flipped.notificationSender
        case None => RunOutcome(flipped, None)
        case Some(_) =>
          var note := UpdatePlayingState(input.isPlaying);
          if input.sendSucceeds then RunOutcome(flipped, Some(note))
          else RunOutcome(flipped.(notificationSender := None), Some(note))
      else RunOutcome(moved, None)
  }

  /** The state after a sequence of callbacks and every notification attempted, in order. */
  datatype TraceOutcome = TraceOutcome(state: PluginState, attempted: seq<UiNotification>)

  function RunTrace(s: PluginState, inputs: seq<RunInput>): TraceOutcome
    decreases |inputs|
  {
    if inputs == [] then TraceOutcome(s, [])
    else
      var first := RunStep(s, inputs[0]);
      var rest := RunTrace(first.state, inputs[1..]);
      TraceOutcome(rest.state, (if first.attempted.Some? then [first.attempted.value] else []) + rest.attempted)
  }

  /** The transport flags of the callbacks that took the lock, in order. */
  function HeldFlags(inputs: seq<RunInput>): seq<bool> {
    if inputs == [] then []
    else (if inputs[0].lockAcquired then [inputs[0].isPlaying] else []) + HeldFlags(inputs[1..])
  }

  /** The sample positions of the callbacks that took the lock, in order. */
  function HeldSamples(inputs: seq<RunInput>): seq<i64> {
    if inputs == [] then []
    else (if inputs[0].lockAcquired then [inputs[0].currentSample] else []) + HeldSamples(inputs[1..])
  }

  /** One notification per change of the flag, starting from `prev`: the reference
      definition of "exactly one notification per transition". */
  function TransitionNotes(prev: bool, flags: seq<bool>): seq<UiNotification>
    decreases |flags|
  {
    if flags == [] then []
    else (if flags[0] != prev then [UpdatePlayingState(flags[0])] else []) + TransitionNotes(flags[0], flags[1..])
  }

  /** Whether the positions ever differ from the one before them, starting from `prev`. */
  predicate Moves(prev: i64, samples: seq<i64>)
    decreases |samples|
  {
    samples != [] && (samples[0] != prev || Moves(samples[0], samples[1..]))
  }

  function LastOr(default: i64, xs: seq<i64>): i64 {
    if xs == [] then default else xs[|xs| - 1]
  }

  /** Once the sender has been dropped (or was never installed), no later callback sends anything. */
  lemma {:induction false} NoSenderNoNotifications(s: PluginState, inputs: seq<RunInput>)
    requires s.notificationSender == None
    ensures RunTrace(s, inputs).attempted == []
    ensures RunTrace(s, inputs).state.notificationSender == None
    decreases |inputs|
  {
    if inputs != [] {
      NoSenderNoNotifications(RunStep(s, inputs[0]).state, inputs[1..]);
    }
  }

  /** A freshly built plugin sends nothing until a sender is installed. */
  lemma FreshPluginIsSilent(params: PluginParams, inputs: seq<RunInput>)
    ensures RunTrace(InitialState(params), inputs).attempted == []
  {
    NoSenderNoNotifications(InitialState(params), inputs);
  }

  /** Callbacks that keep reporting the last seen transport flag send nothing. */
  lemma {:induction false} SteadyTransportSendsNothing(s: PluginState, inputs: seq<RunInput>)
    requires forall i :: 0 <= i < |inputs| ==> inputs[i].isPlaying == s.prevIsPlaying
    ensures RunTrace(s, inputs).attempted == []
    ensures RunTrace(s, inputs).state.prevIsPlaying == s.prevIsPlaying
    decreases |inputs|
  {
    if inputs != [] {
      SteadyTransportSendsNothing(RunStep(s, inputs[0]).state, inputs[1..]);
    }
  }

  /** While every send succeeds, the notifications attempted are exactly one per change of
      the transport flag among the callbacks that took the lock. */
  lemma {:induction false} OneNotificationPerTransition(s: PluginState, inputs: seq<RunInput>)
    requires s.notificationSender.Some?
    requires forall i :: 0 <= i < |inputs| ==> inputs[i].sendSucceeds
    ensures RunTrace(s, inputs).attempted == TransitionNotes(s.prevIsPlaying, HeldFlags(inputs))
    ensures RunTrace(s, inputs).state.notificationSender == s.notificationSender
    decreases |inputs|
  {
    if inputs != [] {
      var first := RunStep(s, inputs[0]);
      OneNotificationPerTransition(first.state, inputs[1..]);
      if inputs[0].lockAcquired {
        assert HeldFlags(inputs) == [inputs[0].isPlaying] + HeldFlags(inputs[1..]);
      } else {
        assert HeldFlags(inputs) == HeldFlags(inputs[1..]);
      }
    }
  }

  /** Over any sequence of callbacks the last seen position is the last one seen under the
      lock, and the "updated" flag ends raised exactly when it started raised or the
      position moved under the lock: nothing in `run` lowers it. */
  lemma {:induction false} PositionTracking(s: PluginState, inputs: seq<RunInput>)
    ensures RunTrace(s, inputs).state.prevPosition == LastOr(s.prevPosition, HeldSamples(inputs))
    ensures RunTrace(s, inputs).state.currentPositionUpdated <==>
              s.currentPositionUpdated || Moves(s.prevPosition, HeldSamples(inputs))
    decreases |inputs|
  {
    if inputs != [] {
      var first := RunStep(s, inputs[0]);
      var rest := inputs[1..];
      PositionTracking(first.state, rest);
      if inputs[0].lockAcquired {
        var held := [inputs[0].currentSample] + HeldSamples(rest);
        assert HeldSamples(inputs) == held;
        assert held[1..] == HeldSamples(rest);
        assert LastOr(s.prevPosition, held) == LastOr(inputs[0].currentSample, HeldSamples(rest));
      } else {
        assert HeldSamples(inputs) == HeldSamples(rest);
      }
    }
  }

  /** The Rust plugin object. Its fields are updated in place through the mutex guard. */
  class PluginImpl {
    var notificationSender: Option<Sender>
    var params: PluginParams
    var prevPosition: i64
    var prevIsPlaying: bool
    var currentPosition: Seconds
    var currentPositionUpdated: bool

    ghost function State(): PluginState
      reads this
    {
      PluginState(notificationSender, params, prevPosition, prevIsPlaying, currentPosition, currentPositionUpdated)
    }

    /** `PluginImpl::new`: no sender, position 0, transport stopped, nothing updated. */
    constructor (params: PluginParams)
      ensures State() == InitialState(params)
      ensures notificationSender == None && prevPosition == 0 && !prevIsPlaying
      ensures currentPosition == ZeroSeconds && !currentPositionUpdated && this.params == params
    {
      notificationSender := None;
      this.params := params;
      prevPosition := 0;
      prevIsPlaying := false;
      currentPosition := ZeroSeconds;
      currentPositionUpdated := false;
    }

    /** `set_state`: the empty string is accepted and changes nothing. */
    method SetState(stateBase64: string, decoded: Result<PluginParams, StateError>)
      returns (r: Result<(), StateError>)
      modifies this`params
      ensures (params, r) == SetStateStep(old(params), stateBase64, decoded)
      ensures stateBase64 == [] ==> r.Success? && params == old(params)
    {
      if stateBase64 == [] {
        return Success(());
      }
      match decoded
      case Failure(e) =>
        r := Failure(e);
      case Success(loaded) =>
        params := loaded;
        r := Success(());
    }

    /** The UI installs a new sender when it is created (src/ui.rs). */
    method InstallSender(sender: Sender)
      modifies this`notificationSender
      ensures notificationSender == Some(sender)
    {
      notificationSender := Some(sender);
    }

    /** `run`: zero every output sample, then, if the lock is free, track position and
        transport and notify the UI of a transport transition. Returns the notification
        handed to the sender, if one was. */
    method Run(inputs: seq<seq<real>>, outputs: array<array<real>>, sampleRate: real,
               isPlaying: bool, currentSample: i64, lockAcquired: bool, sendSucceeds: bool)
      returns (attempted: Option<UiNotification>)
      modifies this, set i | 0 <= i < outputs.Length :: outputs[i]
      ensures forall i, j :: 0 <= i < outputs.Length && 0 <= j < outputs[i].Length ==> outputs[i][j] == 0.0
      ensures RunOutcome(State(), attempted) ==
              RunStep(old(State()), RunInput(sampleRate, isPlaying, currentSample, lockAcquired, sendSucceeds))
    {
      for i := 0 to outputs.Length
        invariant forall k, j :: 0 <= k < i && 0 <= j < outputs[k].Length ==> outputs[k][j] == 0.0
        invariant State() == old(State())
      {
        var output := outputs[i];
        for j := 0 to output.Length
          invariant forall k, m :: 0 <= k < i && 0 <= m < outputs[k].Length ==> outputs[k][m] == 0.0
          invariant forall m :: 0 <= m < j ==> output[m] == 0.0
          invariant State() == old(State())
        {
          output[j] := 0.0;
        }
      }
      attempted := None;
      if lockAcquired {
        if prevPosition != currentSample {
          prevPosition := currentSample;
          currentPosition := SampleOverRate(currentSample, sampleRate);
          currentPositionUpdated := true;
        }
        if prevIsPlaying != isPlaying {
          prevIsPlaying := isPlaying;
          if notificationSender.Some? {
            attempted := Some(UpdatePlayingState(isPlaying));
            if !sendSucceeds {
              notificationSender := None;
            }
          }
        }
      }
    }
  }
}
