/** The native UI class of src/ui.cpp. It owns the Rust UI object `inner`, which it tries to
    build once in its constructor and, if that produced nothing (some hosts hand over an
    invalid window on the first try), once more on the first idle tick, remembered in
    `uiRetried`. Idle ticks and size changes are forwarded to the Rust UI only once it exists. */
module NativeUi {
  import opened Wrappers

  /** A non-null `Rust::PluginUi` pointer. */
  datatype UiHandle = UiHandle(id: nat)

  /** A `plugin_ui_set_size` call. */
  datatype SetSizeCall = SetSizeCall(ui: UiHandle, width: nat, height: nat, scaleFactor: real)

  /** The UI's default size (DISTRHO_UI_DEFAULT_WIDTH and _HEIGHT). */
  const DEFAULT_WIDTH: nat := 1080
  const DEFAULT_HEIGHT: nat := 720

  /** The fields of `MyPluginUi`, with the base UI's size. */
  datatype UiState = UiState(inner: Option<UiHandle>, uiRetried: bool, width: nat, height: nat)

  /** What a step did outside the object: whether it called `plugin_ui_new`, the UI it
      forwarded an idle tick to, and the size change it forwarded. */
  datatype Effect = Effect(calledNew: bool, idled: Option<UiHandle>, resized: Option<SetSizeCall>)

  const NO_EFFECT: Effect := Effect(false, None, None)

  datatype StepOutcome = StepOutcome(state: UiState, effect: Effect)

  /** `initializeRustUi`, where `created` is what `plugin_ui_new` returns if it is called. */
  function InitializeStep(s: UiState, created: Option<UiHandle>): (r: StepOutcome)
    ensures s.inner.Some? ==> r == StepOutcome(s, NO_EFFECT)
    ensures s.inner.None? ==> r.state == s.(inner := created) && r.effect == Effect(true, None, None)
  {
    if s.inner.Some? then StepOutcome(s, NO_EFFECT)
    else StepOutcome(s.(inner := created), Effect(true, None, None))
  }

  /** The state right after the constructor, whose one attempt returned `created`. */
  function Constructed(created: Option<UiHandle>): UiState {
    InitializeStep(UiState(None, false, DEFAULT_WIDTH, DEFAULT_HEIGHT), created).state
  }

  /** `uiIdle`, where `created` is what a retried `plugin_ui_new` would return and
      `lockAcquired` whether `try_lock` on the UI mutex succeeds. */
  function IdleStep(s: UiState, created: Option<UiHandle>, lockAcquired: bool): (r: StepOutcome)
    // a UI whose retry is spent and that has no Rust UI does nothing
    ensures s.inner.None? && s.uiRetried ==> r == StepOutcome(s, NO_EFFECT)
    // the one retry: build, remember the retry, and do not idle in the same tick
    ensures s.inner.None? && !s.uiRetried ==>
              r.state == s.(inner := created, uiRetried := true) && r.effect == Effect(true, None, None)
    // with a Rust UI present nothing changes, and the tick is forwarded to it if the lock is free
    ensures s.inner.Some? ==> r.state == s && !r.effect.calledNew && r.effect.resized.None?
    ensures r.effect.idled.Some? <==> s.inner.Some? && lockAcquired
    ensures r.effect.idled.Some? ==> r.effect.idled == s.inner
  {
    if s.inner.None? then
      if s.uiRetried then StepOutcome(s, NO_EFFECT)
      else
        var init := InitializeStep(s, created);
        StepOutcome(init.state.(uiRetried := true), init.effect)
    else if lockAcquired then StepOutcome(s, Effect(false, s.inner, None))
    else StepOutcome(s, NO_EFFECT)
  }

  /** `onSizeChanged`: the size request that reaches the Rust UI, if there is one. */
  function OnSizeChangedCall(s: UiState, width: nat, height: nat, scaleFactor: real): (call: Option<SetSizeCall>)
    ensures call.Some? <==> s.inner.Some?
    ensures call.Some? ==> call.value.ui == s.inner.value && call.value.width == width && call.value.height == height
  {
    if s.inner.None? then None else Some(SetSizeCall(s.inner.value, width, height, scaleFactor))
  }

  /** `sizeChanged`: the base UI's size is always updated, then `onSizeChanged` runs. */
  function SizeChangedStep(s: UiState, width: nat, height: nat, scaleFactor: real): (r: StepOutcome)
    ensures r.state == s.(width := width, height := height)
    ensures !r.effect.calledNew && r.effect.idled.None?
    ensures r.effect.resized == OnSizeChangedCall(s, width, height, scaleFactor)
  {
    StepOutcome(s.(width := width, height := height),
                Effect(false, None, OnSizeChangedCall(s, width, height, scaleFactor)))
  }

  /** The host's calls into the UI after construction. */
  datatype UiEvent =
    | Idle(created: Option<UiHandle>, lockAcquired: bool)
    | SizeChanged(width: nat, height: nat, scaleFactor: real)

  function Step(s: UiState, e: UiEvent): StepOutcome {
    match e
    case Idle(created, lockAcquired) => IdleStep(s, created, lockAcquired)
    case SizeChanged(w, h, scale) => SizeChangedStep(s, w, h, scale)
  }

  /** The state after a sequence of events, the number of `plugin_ui_new` calls they made
      and the number of idle ticks forwarded to the Rust UI. */
  datatype TraceOutcome = TraceOutcome(state: UiState, newCalls: nat, idles: nat)

  function Trace(s: UiState, events: seq<UiEvent>): TraceOutcome
    decreases |events|
  {
    if events == [] then TraceOutcome(s, 0, 0)
    else
      var first := Step(s, events[0]);
      var rest := Trace(first.state, events[1..]);
      TraceOutcome(rest.state,
                   rest.newCalls + (if first.effect.calledNew then 1 else 0),
                   rest.idles + (if first.effect.idled.Some? then 1 else 0))
  }

  /** After any events, `uiRetried` is never reset and at most one more `plugin_ui_new`
      call was made, none once the retry is spent. */
  lemma {:induction false} AtMostOneRetry(s: UiState, events: seq<UiEvent>)
    ensures s.uiRetried ==> Trace(s, events).state.uiRetried
    ensures Trace(s, events).newCalls <= (if s.uiRetried then 0 else 1)
    decreases |events|
  {
    if events != [] {
      AtMostOneRetry(Step(s, events[0]).state, events[1..]);
    }
  }

  /** Over the object's whole life the Rust UI constructor is called at most twice: once in
      the constructor and at most once on retry. */
  lemma RustUiBuiltAtMostTwice(created: Option<UiHandle>, events: seq<UiEvent>)
    ensures 1 + Trace(Constructed(created), events).newCalls <= 2
  {
    AtMostOneRetry(Constructed(created), events);
  }

  /** Once present, the Rust UI is never replaced or cleared and never rebuilt. */
  lemma {:induction false} InnerNeverCleared(s: UiState, events: seq<UiEvent>)
    requires s.inner.Some?
    ensures Trace(s, events).state.inner == s.inner
    ensures Trace(s, events).newCalls == 0
    decreases |events|
  {
    if events != [] {
      InnerNeverCleared(Step(s, events[0]).state, events[1..]);
    }
  }

  /** A UI that spent its retry without getting a Rust UI stays without one and never
      forwards an idle tick. */
  lemma {:induction false} FailedRetryIsFinal(s: UiState, events: seq<UiEvent>)
    requires s.inner.None? && s.uiRetried
    ensures Trace(s, events).state.inner.None?
    ensures Trace(s, events).newCalls == 0 && Trace(s, events).idles == 0
    decreases |events|
  {
    if events != [] {
      FailedRetryIsFinal(Step(s, events[0]).state, events[1..]);
    }
  }

  /** `MyPluginUi`. `newCalls` counts the `plugin_ui_new` calls made so far. */
  class MyPluginUi {
    var inner: Option<UiHandle>
    var uiRetried: bool
    var width: nat
    var height: nat
    ghost var newCalls: nat

    /** The constructor made one attempt, and the retry one more. */
    ghost predicate Valid()
      reads this
    {
      newCalls == if uiRetried then 2 else 1
    }

    ghost function State(): UiState
      reads this
    {
      UiState(inner, uiRetried, width, height)
    }

    /** The base UI at its default size, then one attempt to build the Rust UI. */
    constructor (created: Option<UiHandle>)
      ensures Valid() && newCalls == 1
      ensures State() == Constructed(created)
    {
      inner := None;
      uiRetried := false;
      width, height := DEFAULT_WIDTH, DEFAULT_HEIGHT;
      newCalls := 0;
      new;
      InitializeRustUi(created);
    }

    /** `initializeRustUi`: builds the Rust UI unless one is already present. */
    method InitializeRustUi(created: Option<UiHandle>)
      modifies this`inner, this`newCalls
      ensures State() == InitializeStep(old(State()), created).state
      ensures newCalls == old(newCalls) + (if old(inner).None? then 1 else 0)
    {
      if inner.Some? {
        return;
      }
      newCalls := newCalls + 1;
      inner := created;
    }

    /** `uiIdle`: returns the Rust UI the tick was forwarded to, if any. */
    method UiIdle(created: Option<UiHandle>, lockAcquired: bool) returns (idled: Option<UiHandle>)
      requires Valid()
      modifies this`inner, this`uiRetried, this`newCalls
      ensures Valid()
      ensures StepOutcome(State(), Effect(newCalls != old(newCalls), idled, None)) ==
              IdleStep(old(State()), created, lockAcquired)
    {
      if inner.None? {
        if uiRetried {
          return None;
        }
        InitializeRustUi(created);
        uiRetried := true;
        return None;
      }
      if lockAcquired {
        idled := inner;
      } else {
        idled := None;
      }
    }

    /** `onSizeChanged`: the size request forwarded to the Rust UI, if there is one. */
    method OnSizeChanged(width: nat, height: nat, scaleFactor: real) returns (resized: Option<SetSizeCall>)
      ensures resized.Some? <==> inner.Some?
      ensures resized.Some? ==> resized.value == SetSizeCall(inner.value, width, height, scaleFactor)
    {
      if inner.None? {
        return None;
      }
      resized := Some(SetSizeCall(inner.value, width, height, scaleFactor));
    }

    /** `sizeChanged`: records the new size in the base UI, then calls `onSizeChanged`. */
    method SizeChanged(width: nat, height: nat, scaleFactor: real) returns (resized: Option<SetSizeCall>)
      requires Valid()
      modifies this`width, this`height
      ensures Valid()
      ensures StepOutcome(State(), Effect(false, None, resized)) ==
              SizeChangedStep(old(State()), width, height, scaleFactor)
    {
      this.width, this.height := width, height;
      resized := OnSizeChanged(width, height, scaleFactor);
    }
  }
}
