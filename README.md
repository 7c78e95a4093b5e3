# rust-cpp-vst-template, modelled in Dafny

This project models the logic of an audio-plugin template. A native DPF plugin and UI
(`src/plugin.cpp`, `src/ui.cpp`) own objects from a Rust library (`src/plugin.rs`). A Rust
development tool (`xtask/src/main.rs`) builds the plugin, writes its installer script and
follows its log files. The model covers what these files decide, and proves it:

- **The audio callback** (`RustPlugin`). `PluginImpl` is a class whose `Run` method zeroes
  every output buffer in place (an array of arrays). When the plugin's lock is free, `Run`
  also updates the last seen sample position and the transport flag. It sends one
  `UpdatePlayingState` notification per transport transition, and drops the sender for good
  when a send fails. `RunStep` states one callback on the fields as a value. `RunTrace`
  chains callbacks. The lemmas state what holds over any sequence of callbacks.
- **The native plugin** (`NativePlugin`). This covers the label, the audio-port
  descriptors (ports grouped into stereo pairs, named and symbolised by the pair number in
  decimal) and the state descriptor. It also covers the conversion of the host's unsigned
  frame counter into the signed sample position that the Rust callback receives.
- **The native UI** (`NativeUi`). `MyPluginUi` builds the Rust UI in its constructor. If
  that yields nothing, it retries exactly once, on the first idle tick. It never clears the
  Rust UI, and it forwards idle ticks and size changes only while the Rust UI exists.
- **The development tool** (`Xtask`). `find_log` picks the log file with the greatest number.
  `build` resolves its `--release`/`--log` flags into a build configuration or refuses.
  `generate-installer` substitutes the package version into the NSIS template.
- `Decimal` holds decimal spelling and reading of numbers (shared by port names and `u64`
  parsing). `MachineInts` holds the 32- and 64-bit integer ranges. `Wrappers` holds
  Option/Result.

Inputs that the model cannot compute are parameters of the operations:

- whether a `try_lock` succeeds;
- whether a channel send succeeds;
- what `plugin_ui_new` returns;
- what base64-then-bincode decoding of a state string yields;
- whether DEBUG is defined;
- the directory listing, the inherited environment and the template text.

Two observations from the proofs, both stated in contracts:

- `build` adds `RUST_VST_LOG=1` to the environment when logging is on. When logging is off,
  it leaves an inherited `RUST_VST_LOG` in place, with its inherited value (stated by
  `PlanBuild`). A shell that exports it therefore still passes it to the release build.
- A frame counter of 2^63 or more becomes a negative sample position. The source intends
  this (`SamplePosition`).

## Model

| member | source | states |
|---|---|---|
| `Decimal.NatToString` | src/plugin.cpp:72-76 | the decimal spelling of a number is a non-empty digit string without a leading zero (unless the number is 0) |
| `Decimal.DigitsValueOfNatToString` | src/plugin.cpp:72-76 | reading back the decimal spelling gives the number again |
| `Decimal.NatToStringInjective` | src/plugin.cpp:72-76 | different numbers are spelled differently |
| `Decimal.DigitsValueLeadingZero` | xtask/src/main.rs:256 | a leading zero does not change the value read from a digit string |
| `RustPlugin.SetStateStep` | src/plugin.rs:88-98 | the empty string succeeds and leaves the parameters unchanged; a failed load leaves them unchanged and reports the decoding error; a successful non-empty load installs the decoded parameters |
| `RustPlugin.RunStep` | src/plugin.rs:119-138 | without the lock nothing changes and nothing is sent; with it, the last position and flag become this call's; a repeated position leaves the position fields alone; the updated flag is raised exactly when the position moved and is never lowered; a notification carrying the new flag is attempted exactly on a transition while a sender is held; the sender is dropped exactly when that send fails |
| `RustPlugin.NoSenderNoNotifications` | src/plugin.rs:127-136 | once the sender is gone, no sequence of callbacks sends anything or gets a sender back |
| `RustPlugin.FreshPluginIsSilent` | src/plugin.rs:75-84 | a freshly built plugin sends nothing until a sender is installed |
| `RustPlugin.SteadyTransportSendsNothing` | src/plugin.rs:127-131 | callbacks that keep reporting the last seen transport flag send nothing |
| `RustPlugin.OneNotificationPerTransition` | src/plugin.rs:127-137 | while sends succeed, the notifications are exactly one per change of the transport flag among the callbacks that took the lock, in order |
| `RustPlugin.PositionTracking` | src/plugin.rs:122-126 | over any callbacks the last seen position is the last one seen under the lock, and the updated flag ends raised exactly when it started raised or the position moved under the lock |
| `RustPlugin.PluginImpl.constructor` | src/plugin.rs:75-84 | a new plugin has no sender, position 0, transport stopped, position 0.0 and nothing updated |
| `RustPlugin.PluginImpl.SetState` | src/plugin.rs:88-98 | updates `params` as SetStateStep says; the empty string returns Ok with `params` unchanged |
| `RustPlugin.PluginImpl.InstallSender` | src/ui.rs:77-81 | creating the UI installs a new sender in the plugin |
| `RustPlugin.PluginImpl.Run` | src/plugin.rs:106-139 | every sample of every output buffer is 0.0 afterwards, whether or not the lock was taken; the fields and the attempted notification are those of RunStep |
| `NativePlugin.Label` | src/plugin.cpp:19-25 | the label is a valid symbol starting with "my_plugin", and differs from "my_plugin" exactly in a DEBUG build |
| `NativePlugin.PortGroup` | src/plugin.cpp:71 | port `index` belongs to the pair `g` with `2g <= index < 2g + 2` |
| `NativePlugin.PortName` | src/plugin.cpp:72-73 | the name is "Channel " followed by digits that read as the one-based pair number, with no zero padding |
| `NativePlugin.PortSymbol` | src/plugin.cpp:75-76 | the symbol is a valid symbol, "channel_" followed by digits that read as the one-based pair number, with no zero padding |
| `NativePlugin.PairedPortsAgree` | src/plugin.cpp:70-77 | ports 2k and 2k+1 are in pair k and get the same name and symbol |
| `NativePlugin.PortNamesIdentifyPairs` | src/plugin.cpp:70-77 | two ports get the same name (and the same symbol) exactly when they are in the same pair |
| `NativePlugin.SamplePosition` | src/plugin.cpp:104-106 | the signed position equals the frame counter modulo 2^64 and is negative exactly when the frame counter is at least 2^63 |
| `NativePlugin.FrameOf` | src/plugin.cpp:104-106 | the reverse conversion takes a signed position to its value modulo 2^64 |
| `NativePlugin.SamplePositionRoundTrip` | src/plugin.cpp:104-106 | the two conversions are inverse to each other, so the reinterpretation loses nothing |
| `NativePlugin.MyPlugin.constructor` | src/plugin.cpp:9-12 | the native plugin owns a fresh Rust plugin in its initial state |
| `NativePlugin.MyPlugin.InitAudioPort` | src/plugin.cpp:70-77 | the port gets the group, name and symbol of its index, whatever the input flag |
| `NativePlugin.MyPlugin.InitState` | src/plugin.cpp:79-83 | the state defaults to "", is keyed "state" and is hinted as a base64 blob |
| `NativePlugin.MyPlugin.SetState` | src/plugin.cpp:84-86 | the value is forwarded to the Rust plugin, whose result is ignored |
| `NativePlugin.MyPlugin.Run` | src/plugin.cpp:101-110 | the outputs are silenced and the Rust plugin sees the callback with the frame counter converted by SamplePosition |
| `NativeUi.InitializeStep` | src/ui.cpp:55-69 | with a Rust UI present nothing happens; otherwise the constructor is called and its result becomes `inner` |
| `NativeUi.IdleStep` | src/ui.cpp:22-38 | without a Rust UI and with the retry spent nothing happens; without one and the retry unspent the UI is built once, the retry is marked spent, and no tick is forwarded; with one, nothing changes and the tick is forwarded to it exactly when the lock is free |
| `NativeUi.OnSizeChangedCall` | src/ui.cpp:42-48 | a size request reaches the Rust UI exactly when one is present, with the given size |
| `NativeUi.SizeChangedStep` | src/ui.cpp:16-20 | the base UI's size is always updated, and the request is what onSizeChanged forwards |
| `NativeUi.AtMostOneRetry` | src/ui.cpp:22-33 | after any events `uiRetried` stays set once set, and at most one more constructor call was made, none once the retry is spent |
| `NativeUi.RustUiBuiltAtMostTwice` | src/ui.cpp:13-33 | over the object's life the Rust UI constructor is called at most twice |
| `NativeUi.InnerNeverCleared` | src/ui.cpp:55-69 | once present the Rust UI is never replaced or cleared and never rebuilt |
| `NativeUi.FailedRetryIsFinal` | src/ui.cpp:22-26 | a UI that spent its retry without getting a Rust UI never gets one and never forwards an idle tick |
| `NativeUi.MyPluginUi.constructor` | src/ui.cpp:13 | the UI starts at its default size with one constructor call made and the retry unspent |
| `NativeUi.MyPluginUi.InitializeRustUi` | src/ui.cpp:55-69 | follows InitializeStep, counting the constructor call it makes |
| `NativeUi.MyPluginUi.UiIdle` | src/ui.cpp:22-38 | follows IdleStep and keeps the invariant "constructor calls = 1, or 2 once the retry is spent" |
| `NativeUi.MyPluginUi.OnSizeChanged` | src/ui.cpp:42-48 | forwards the size request exactly when the Rust UI is present |
| `NativeUi.MyPluginUi.SizeChanged` | src/ui.cpp:16-20 | follows SizeChangedStep and keeps the invariant |
| `Xtask.LastDot` | xtask/src/main.rs:252 | finds the last '.' of a file name, or reports that there is none |
| `Xtask.Extension` | xtask/src/main.rs:252 | the extension is the dot-free text after a '.' that is not the leading character; without one, and for "..", there is no extension |
| `Xtask.Stem` | xtask/src/main.rs:256 | the stem is the dot-free prefix of the name ending at its first '.' |
| `Xtask.ParseU64` | xtask/src/main.rs:256 | a text is accepted exactly when it is an optional '+' then a non-empty run of digits (leading zeros allowed) whose value is below 2^64, and that value is the result |
| `Xtask.ParseU64OfDecimal` | xtask/src/main.rs:256 | every 64-bit number is accepted from its decimal spelling, with or without '+' |
| `Xtask.ParseU64OfPadded` | xtask/src/main.rs:256 | a zero-padded spelling reads as the same number, so "05.log" and "5.log" carry equal numbers |
| `Xtask.LogFileNameEndsInLog` | xtask/src/main.rs:250-257 | a name that carries a number ends in ".log" after a non-empty stem |
| `Xtask.LogFileNumberOfStem` | xtask/src/main.rs:250-257 | a name "<stem>.log" whose stem has no '.' carries the number its stem parses to, or none when it does not parse |
| `Xtask.NumberedLogFile` | xtask/src/main.rs:250-257 | a regular file named by a decimal number followed by ".log" passes the filter and carries that number |
| `Xtask.PassingIndices` | xtask/src/main.rs:250-258 | the positions whose element passes a filter, in increasing order, each once, none missing |
| `Xtask.Candidates` | xtask/src/main.rs:247-258 | every entry that passes the filter yields a candidate, and every candidate comes from such an entry |
| `Xtask.CandidatesKeepOrder` | xtask/src/main.rs:247-258 | the candidates are the passing entries in directory order, each once: the k-th candidate comes from the k-th passing position |
| `Xtask.Insert` | xtask/src/main.rs:259-268 | insertion adds exactly the new element to the others, and the last element is the old last one if its number is greater, else the new one |
| `Xtask.InsertPosition` | xtask/src/main.rs:259-268 | the insertion point lies just after the last element whose number is not greater than the new one's, with only greater numbers after it |
| `Xtask.InsertPlacement` | xtask/src/main.rs:259-268 | insertion puts the new element at the insertion point and keeps every other element in its order, so equal numbers keep their order of arrival |
| `Xtask.InsertSorted` | xtask/src/main.rs:259-268 | insertion keeps a sorted sequence sorted |
| `Xtask.SortByNumber` | xtask/src/main.rs:259-268 | the result is a permutation of the candidates sorted by number |
| `Xtask.LastSortedIsLastGreatest` | xtask/src/main.rs:259-270 | the last sorted candidate is the log file with the greatest number, the last such in directory order |
| `Xtask.FindLog` | xtask/src/main.rs:246-271 | the result is None exactly when no entry passes the filter; otherwise it names a log file whose number is at least every other's and greater than every later one's |
| `Xtask.PlanBuild` | xtask/src/main.rs:74-99 | the build fails exactly for release with `--log true`; logging follows `--log`, else is on exactly in debug builds; build name and CMake type follow `--release` and agree; the environment is the inherited one plus RUST_VST_LOG=1 when logging and CLICOLOR_FORCE=1 when colouring, with no other key added, and a switch left off keeps its inherited value |
| `Xtask.Replace` | xtask/src/main.rs:166 | `str::replace` leaves a text without an occurrence of the pattern unchanged |
| `Xtask.ReplaceSkipsPrefix` | xtask/src/main.rs:166 | text in which no occurrence of the pattern starts is copied unchanged |
| `Xtask.ReplaceJoin` | xtask/src/main.rs:166 | segments joined by the pattern, with no occurrence starting inside a segment, come out joined by the replacement |
| `Xtask.PlaceholderDoesNotStraddle` | xtask/src/main.rs:166 | no "{version}" can start in a placeholder-free segment and run into the placeholder after it |
| `Xtask.InstallerScript` | xtask/src/main.rs:163-166 | a template without "{version}" is written unchanged, and the bare placeholder becomes the version |
| `Xtask.InstallerScriptFillsVersion` | xtask/src/main.rs:163-166 | every "{version}" of the template is replaced by the version and the rest is copied unchanged |

## Left out

- `generate_header` writes the header from cbindgen's output. That is a foreign library call, and no parser or trampoline generator exists in the source to model.
- `loadRustDll` (src/rust_bridge.cpp) is left out: it loads a dynamic library and caches it under a shared mutex, which is concurrency and foreign code.
- `get_state` and the base64/bincode decoding inside `set_state` are library calls. Only their outcome enters, as the `decoded` parameter of `SetState`.
- `current_position` is an f32 computed by division and `max`. It is kept unevaluated as `SampleOverRate(sample, rate)`.
- Locks and channels are not modelled as concurrency. `try_lock` and the send result are boolean parameters, and the blocking locks are assumed to be acquired.
- The logging and panic-hook set-up in `PluginImpl::new` is file I/O and is left out.
- `plugin_new`, `plugin_run`, `plugin_set_state` and `plugin_ui_new` are the Rust entry points for the native side, and their bodies are not in the source. `MyPlugin`'s constructor assumes `PluginImpl::new` with default parameters, `Run` assumes the buffers are forwarded unchanged, and `SetState` assumes the string reaches `PluginImpl::set_state` unchanged.
- `MyPluginUi` is not linked to the plugin's sender: installing a sender is modelled separately, as `InstallSender`.
- The window-handle plumbing and the empty `idle`/`set_size` bodies of src/ui.rs are left out.
- Subprocess runs (cmake, makensis, tail), path joining, timing and console output of the xtask commands are left out, and so are the `watch_log` event loop and reading the directory. The listing is an input of `FindLog`, and file names are strings (non-UTF-8 names are not modelled).
- Reading the version from Cargo.toml is left out; the version is an input of `InstallerScript`.
- The constant getters (`getDescription`, `getMaker`, `getHomePage`, `getLicense`), `getVersion`'s version packing, `getState` and the empty UI callbacks are left out.
- DPF's `AudioPort` and `State` are reduced to the fields the plugin assigns. DPF's numeric value of `kStateIsBase64Blob` is not modelled.
- build.rs, src/common.rs and src/DistrhoPluginInfo.h hold no logic. Only the default UI size (1080 x 720) is used.
- Xtask.SortByNumber: it is stable by construction, but stability is proved only through its consequence for the last element (`LastSortedIsLastGreatest`), not for the whole order.
