# SDL2 binding: initialization and teardown state machine

This project models the lifecycle core of a Rust binding to SDL2. It also
proves properties of that model.

The binding keeps process-wide liveness flags. There is one for the library,
`INITIALIZED`, and one for each of eight subsystems: Timer, Audio, Video,
Joystick, Haptic, GameController, Events and Sensor. The operations are:

- `SdlContext::new` checks the root flag, calls `SDL_Init(0)`, and sets the flag only on success.
- Dropping the context clears the flag and then calls `SDL_Quit`.
- `init_subsystem`, `timer`, `audio` and `audio_with_driver` do the same for one kind.
- A subsystem handle's `Drop` clears its kind's flag and then calls `SDL_QuitSubSystem`.
- Small audio query methods turn native results (null pointers, `-1`) into `Option`/`Result`.

Layout:

- `errors.dfy` (`Errors`): `SdlError`, `Option`, `Result`.
- `native.dfy` (`Native`): the native library as an oracle. `CStr` is a returned pointer, null or text. `NativeCall` names the entry points. The `i32`/`u32` casts are written out.
- `subsystems.dfy` (`Subsystems`): the kind enum and its `SDL_INIT_*` bits (values of SDL2's `SDL.h`). Also the kind-to-flag tables `initialized_raw` and `initialized`, and the handle. `DebugName` is the `#[derive(Debug)]` rendering of a kind that this message uses.
- `lifecycle.dfy` (`Lifecycle`): the state machine as pure functions over a `State`. `ContainsNul` is the check `CString::new` makes before `SDL_AudioInit`, and `SubsystemAlreadyInitialized` is the message `init_subsystem` formats. A `State` holds the flags plus the handles callers own. Each operation is one `Step` function. It returns the new state, the result, and the ordered trace of flag stores and native calls. The file also holds the invariant and the lemmas over several calls.
- `statics.dfy` (`Statics`): class `Registry`, whose fields are the nine statics. It also has a ghost log and ghost ownership records. The handle's `Drop` is here.
- `context.dfy` (`Context`): the `SdlContext` methods, proved against the `Step` functions.
- `audio.dfy` (`AudioSubsystem`): the audio query facade.

Every native call is an oracle, so its answer is a parameter:

- `initRc` is the return code of `SDL_Init`, `SDL_InitSubSystem` or `SDL_AudioInit`.
- `lastError` is the text `SDL_GetError` reports.
- The audio queries take the native function itself as a parameter, so each contract shows which argument the binding passes.

"No native call was made" is stated as "the trace is empty". The trace also
shows that a drop stores `false` into the flag before it makes its quit call.

The model follows the code as written:

- The acquire is a separate load and store, not a compare-and-swap. The model is sequential, so this is "check, then set".
- On a native failure nothing is released, because the flag was never set.
- The subsystem `Drop` in src/subsystems/mod.rs always calls `SDL_QuitSubSystem`. It never uses the `quitter` that `audio_with_driver` records. A driver-path Audio handle is therefore torn down with `SDL_QuitSubSystem(SDL_INIT_AUDIO)`. `Lifecycle.DriverAudioDropIgnoresQuitter` states this.
- Dropping the context does not clear subsystem flags. `Lifecycle.RootDropKeepsSubsystemFlags` states this.

## Model

| member | source | states |
|---|---|---|
| `Native.AsU32` | src/subsystems/audio.rs:24 | `x as u32` for an `i32`: the result is a `u32`, equal to x when x >= 0 and to x + 2^32 when x < 0 |
| `Native.AsI32` | src/subsystems/audio.rs:35 | `index as c_int` for a `u32`: the result is an `i32`, equal to the index up to `i32::MAX`, and casting back with `as u32` gives the index again |
| `Subsystems.NativeFlag` | src/subsystems/mod.rs:19-28 | each kind's `#[repr(u32)]` discriminant is a non-zero `u32` (the `SDL_INIT_*` bit) |
| `Subsystems.NativeFlagInjective` | src/subsystems/mod.rs:19-28 | distinct kinds have distinct discriminants |
| `Subsystems.InitializedRaw` | src/subsystems/mod.rs:48-59 | every kind maps to one of the eight flag statics |
| `Subsystems.InitializedRawInjective` | src/subsystems/mod.rs:48-59 | no two kinds share a flag |
| `Subsystems.InitializedRawCovers` | src/subsystems/mod.rs:8-15 | every one of the eight statics belongs to some kind |
| `Subsystems.Initialized` | src/subsystems/mod.rs:32-45 | `initialized(k)`, which has its own match over the statics, reads exactly the flag `initialized_raw(k)` |
| `Lifecycle.Initial` | src/subsystems/mod.rs:8-15 | the start state (all flags false, nothing owned) satisfies the invariant and no kind is live |
| `Lifecycle.AudioMessagesAgree` | src/context.rs:100 | the literal message of `audio_with_driver` is the one `init_subsystem(Audio)` formats |
| `Lifecycle.NewStep` | src/context.rs:31-44 | if the root flag is set: `AlreadyInitialized`, empty trace, state unchanged. Otherwise exactly one `SDL_Init(0)`: on success the trace is that call then the store of true, on failure that call then `SDL_GetError`. `Ok` exactly when the flag was clear and SDL_Init returned 0, and then the flag is set. On non-zero: `SysError(last error)` and state unchanged. Subsystem flags are never touched |
| `Lifecycle.DropContextStep` | src/context.rs:12-21 | root flag false, subsystem flags unchanged, trace is "store false into INITIALIZED, then one SDL_Quit" |
| `Lifecycle.InitSubsystemStep` | src/context.rs:46-65 | if k's flag is set: `AlreadyInitialized` naming k, empty trace, state unchanged. Otherwise the trace is `SDL_InitSubSystem(bit of k)` followed by the store of true into k's flag on success, or by `SDL_GetError` on failure. `Ok` exactly when the flag was clear and the call returned 0, and then only k's flag changes, to true. The handle has kind k and no quitter. On failure: `SysError`, all flags unchanged. The root flag never changes |
| `Lifecycle.AudioWithDriverStep` | src/context.rs:98-117 | a set Audio flag gives `AlreadyInitialized`. A name with NUL gives `NulError` with an empty trace. Otherwise the trace is `SDL_AudioInit(name)` followed by the store of true into the Audio flag on success, or by `SDL_GetError` on failure. `Ok` exactly when all three checks pass, and then only the Audio flag is set and the quitter is SDL_AudioQuit. On failure: `SysError`, flags unchanged |
| `Lifecycle.DropSubsystemStep` | src/subsystems/mod.rs:64-74 | the handle's flag becomes false. Every other kind's flag and the root flag are unchanged. The trace is one store of false, then exactly one `SDL_QuitSubSystem` with the handle's own bit, whatever its quitter |
| `Lifecycle.NewKeepsInv` | src/context.rs:31-44 | `new` keeps the invariant: the root flag is set iff exactly one context is live, and at most one context is live |
| `Lifecycle.DropContextKeepsInv` | src/context.rs:12-21 | dropping the context keeps the invariant |
| `Lifecycle.InitSubsystemKeepsInv` | src/context.rs:46-65 | `init_subsystem` keeps the invariant: each kind's flag is set iff exactly one handle of that kind is live, and never more than one |
| `Lifecycle.AudioWithDriverKeepsInv` | src/context.rs:98-117 | `audio_with_driver` keeps the same invariant |
| `Lifecycle.DropSubsystemKeepsInv` | src/subsystems/mod.rs:64-74 | dropping a handle keeps the same invariant |
| `Lifecycle.SecondContextRejected` | src/context.rs:32-34 | while a context is live, `new` returns `AlreadyInitialized` with no native call and no state change |
| `Lifecycle.LiveHandleBlocksInit` | src/context.rs:49-51 | while a handle of kind k is live, `init_subsystem(k)` is rejected with no native call and no change. For Audio, `audio_with_driver` is rejected the same way |
| `Lifecycle.NewThenDropRestores` | src/context.rs:12-44 | a successful `new` followed by drop returns the state exactly to where it was |
| `Lifecycle.RootReinitAfterDrop` | src/context.rs:12-44 | after the context is dropped, `new` passes the check: it calls SDL_Init(0) and succeeds iff that returns 0 |
| `Lifecycle.InitThenDropRestores` | src/context.rs:46-65 | `init_subsystem(k)` on a free kind, then dropping the handle, returns the state exactly to where it was |
| `Lifecycle.AudioWithDriverThenDropRestores` | src/context.rs:98-117 | the same round trip through `audio_with_driver` |
| `Lifecycle.SubsystemReinitAfterDrop` | src/subsystems/mod.rs:64-74 | after a handle of kind k is dropped, `init_subsystem(k)` passes the check: it calls SDL_InitSubSystem(k) and succeeds iff that returns 0 |
| `Lifecycle.DriverAudioDropIgnoresQuitter` | src/subsystems/mod.rs:64-74 | a driver-path Audio handle records SDL_AudioQuit. Dropping it still calls `SDL_QuitSubSystem(0x10)` and never SDL_AudioQuit |
| `Lifecycle.RootDropKeepsSubsystemFlags` | src/context.rs:12-21 | a handle still live when the context is dropped keeps its flag set. After a new context, its kind's initialization is still rejected |
| `Statics.Registry.constructor` | src/subsystems/mod.rs:8-15 | all nine flags start false, the log is empty, and the invariant holds |
| `Statics.DropSubsystem` | src/subsystems/mod.rs:64-74 | the flag array, the ownership record and the log change exactly as `DropSubsystemStep` says, and the invariant is kept |
| `Context.New` | src/context.rs:31-44 | the registry, the result and the appended log are exactly those of `NewStep` |
| `Context.Drop` | src/context.rs:12-21 | the registry and the appended log are exactly those of `DropContextStep` |
| `Context.InitSubsystem` | src/context.rs:46-65 | requires a live context (the `&self` receiver); the registry, the result and the appended log are exactly those of `InitSubsystemStep` |
| `Context.Timer` | src/context.rs:74-76 | requires a live context; `InitSubsystemStep` for Timer |
| `Context.Audio` | src/context.rs:85-87 | requires a live context; `InitSubsystemStep` for Audio |
| `Context.AudioWithDriver` | src/context.rs:98-117 | requires a live context; the registry, the result and the appended log are exactly those of `AudioWithDriverStep` |
| `Context.TimerTest` | src/lib.rs:30-40 | context, then timer, then drops in reverse order: the flags end where they started. `Ok` iff both flags were free and both native inits returned 0, and then the log is the full eight-event sequence |
| `AudioSubsystem.Discriminant` | src/subsystems/audio.rs:5-13 | the value passed as `iscapture`: Input is 1 and Output is 0 |
| `AudioSubsystem.DriverCount` | src/subsystems/audio.rs:21-26 | the native count as a `u32`: equal to it when it is non-negative, and to it plus 2^32 when it is negative |
| `AudioSubsystem.GetDriverName` | src/subsystems/audio.rs:32-45 | `None` iff SDL_GetAudioDriver(index as c_int) is null, and otherwise `Some` of its text |
| `AudioSubsystem.DriverNames` | src/subsystems/audio.rs:56-65 | always `Ok`, with exactly `driver_count() - 1` names. The i-th is what `get_driver_name(i)` gives, so the last (dummy) driver is left out |
| `AudioSubsystem.CurrentDriverName` | src/subsystems/audio.rs:69-78 | the text of the non-null pointer SDL_GetCurrentAudioDriver returns |
| `AudioSubsystem.AudioDeviceCount` | src/subsystems/audio.rs:87-98 | `None` iff SDL_GetNumAudioDevices(discriminant) is -1. Otherwise `Some(result as u32)`, which is the result itself when it is non-negative |
| `AudioSubsystem.GetAudioDeviceName` | src/subsystems/audio.rs:107-117 | `Ok(text)` iff SDL_GetAudioDeviceName(index, discriminant) is non-null, and otherwise `Err(SysError(last error))` |

## Left out

- Concurrency and atomic orderings: the flags are plain fields and the model is sequential. Races between the separate load and store of an acquire are not modelled.
- The native library's own behaviour is not modelled. Every answer it gives is a parameter, and the trace records each call that reaches it.
- Teardown through the recorded `quitter` is not modelled, because the `Drop` in src/subsystems/mod.rs never performs it.
- `get_sys_error().unwrap()`: the message is an oracle string. The panic when SDL's error text is not valid UTF-8 is not modelled. The decoding in src/utils.rs is not part of this model.
- `CStr::from_ptr(..).to_str().unwrap()`: a returned C string is modelled as already-decoded text. Invalid UTF-8 panics are not modelled.
- Errors.SdlError.NulError: it does not carry the byte position or bytes that Rust's `NulError` holds. Only the rejection is modelled, which happens exactly when the name contains U+0000.
- AudioSubsystem.DriverNames: it requires `driver_count() >= 1` and a non-null name for every index it queries. The source panics on `unwrap` otherwise, and on the `u32` underflow in debug builds. Those panics are not modelled.
- AudioSubsystem.CurrentDriverName: it requires a non-null pointer. The source assumes a live Audio handle guarantees this, and it dereferences null otherwise. That assumption does not cover an Audio handle still live after the context was dropped and `SDL_Quit` called (the state `Lifecycle.RootDropKeepsSubsystemFlags` reaches).
- The timer facade in src/subsystems/timer.rs is not part of this model. `get_ticks`, `get_performance_counter`, `get_performance_freq` and `delay` pass native values through unchanged, and `delay` is a real wait.
- The unimplemented (`todo!()`) audio and timer operations.
- Logging (`#[cfg(feature = "log")]`), version reporting (src/version.rs) and module wiring (src/lib.rs).
- The marker types of src/subsystems/markers.rs are folded into the kind a handle carries. The kind of a handle the audio queries receive is a precondition, not a type parameter.
- Rust's ownership is modelled only in part, by the ghost ownership records. A context or handle can be dropped only while it is owned, so no kind is dropped more times than it was initialized: each is dropped at most once. Borrowing is modelled the same way: the subsystem initializers require a live context.
- Drop at scope exit (RAII) is not modelled: drops are explicit calls, and nothing obliges a caller to make them, so a context or handle may stay live for ever.
- Handle identity is not modelled: handles are values, so after a kind is dropped and initialized again, a stale copy of the old handle equals the new one and could drop it. Rust's move semantics rule this out.
