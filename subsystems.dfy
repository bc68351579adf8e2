/** The subsystem kinds, the table from a kind to its liveness flag, and the
    subsystem handle (src/subsystems/mod.rs). The marker types of
    src/subsystems/markers.rs are folded into the kind a handle carries. */
module Subsystems {
  import opened Errors
  import opened Native

  /** `SdlSubsystemFlag`: the eight independently initializable subsystems. */
  datatype SdlSubsystemFlag =
    Timer | Audio | Video | Joystick | Haptic | GameController | Events | Sensor

  /** The `#[repr(u32)]` discriminant of a kind, i.e. its SDL_INIT_* bit as
      defined by SDL2's SDL.h; this is what `subsystem as _` hands to
      SDL_InitSubSystem and SDL_QuitSubSystem. */
  function NativeFlag(k: SdlSubsystemFlag): (bits: nat)
    ensures 0 < bits < U32_MODULUS
  {
    match k
    case Timer => 0x0000_0001
    case Audio => 0x0000_0010
    case Video => 0x0000_0020
    case Joystick => 0x0000_0200
    case Haptic => 0x0000_1000
    case GameController => 0x0000_2000
    case Events => 0x0000_4000
    case Sensor => 0x0000_8000
  }

  /** Distinct kinds request distinct SDL_INIT_* bits. */
  lemma NativeFlagInjective(a: SdlSubsystemFlag, b: SdlSubsystemFlag)
    ensures NativeFlag(a) == NativeFlag(b) ==> a == b
  {
  }

  /** How `{:?}` renders a kind inside the "already initialized" message. */
  function DebugName(k: SdlSubsystemFlag): string
  {
    match k
    case Timer => "Timer"
    case Audio => "Audio"
    case Video => "Video"
    case Joystick => "Joystick"
    case Haptic => "Haptic"
    case GameController => "GameController"
    case Events => "Events"
    case Sensor => "Sensor"
  }

  /** Number of per-subsystem liveness flags (the eight `*_INITIALIZED` statics). */
  const SLOTS: nat := 8

  /** `initialized_raw`: which of the eight statics belongs to a kind, given as
      the static's position in declaration order (TIMER_INITIALIZED is 0,
      SENSOR_INITIALIZED is 7). */
  function InitializedRaw(k: SdlSubsystemFlag): (slot: nat)
    ensures slot < SLOTS
  {
    match k
    case Timer => 0
    case Audio => 1
    case Video => 2
    case Joystick => 3
    case Haptic => 4
    case GameController => 5
    case Events => 6
    case Sensor => 7
  }

  /** No two kinds share a liveness flag. */
  lemma InitializedRawInjective(a: SdlSubsystemFlag, b: SdlSubsystemFlag)
    ensures InitializedRaw(a) == InitializedRaw(b) ==> a == b
  {
  }

  /** Every one of the eight statics belongs to some kind. */
  lemma InitializedRawCovers(slot: nat)
    requires slot < SLOTS
    ensures exists k :: InitializedRaw(k) == slot
  {
    var kinds := [Timer, Audio, Video, Joystick, Haptic, GameController, Events, Sensor];
    assert InitializedRaw(kinds[slot]) == slot;
  }

  /** `initialized`: the current value of a kind's flag, read through its own
      match over the statics. Its contract says this second table agrees with
      `initialized_raw`. */
  function Initialized(flags: seq<bool>, k: SdlSubsystemFlag): (live: bool)
    requires |flags| == SLOTS
    ensures live == flags[InitializedRaw(k)]
  {
    match k
    case Timer => flags[0]
    case Audio => flags[1]
    case Video => flags[2]
    case Joystick => flags[3]
    case Haptic => flags[4]
    case GameController => flags[5]
    case Events => flags[6]
    case Sensor => flags[7]
  }

  /** The alternate teardown function a handle may record: SDL_AudioQuit. */
  datatype Quitter = SdlAudioQuit

  /** `SdlSubsystem<T>`: an owned proof that subsystem `kind` is live. The type
      marker T is the kind itself; `quitter` is what `audio_with_driver` records. */
  datatype SdlSubsystem = SdlSubsystem(kind: SdlSubsystemFlag, quitter: Option<Quitter>)
}
