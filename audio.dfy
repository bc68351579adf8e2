/** The audio query methods of `SdlSubsystem<Audio>` (src/subsystems/audio.rs):
    decision rules over what the native audio functions return. Each native
    function is an oracle parameter, applied to exactly the arguments the
    binding passes it. The handle argument stands for the receiver; its kind
    must be Audio, as the type `SdlSubsystem<Audio>` demands. */
module AudioSubsystem {
  import opened Errors
  import opened Native
  import opened Subsystems

  /** `AudioDeviceType`, `#[repr(i32)]`. */
  datatype AudioDeviceType = Input | Output

  /** The discriminant of a device type, handed to SDL as its `iscapture`
      argument: Input is 1 (recording devices), Output is 0. */
  function Discriminant(t: AudioDeviceType): (iscapture: int)
    ensures iscapture == 0 || iscapture == 1
    ensures iscapture == 1 <==> t == Input
  {
    match t
    case Input => 1
    case Output => 0
  }

  /** `driver_count`: SDL_GetNumAudioDrivers reinterpreted as `u32`. */
  function DriverCount(h: SdlSubsystem, sdlGetNumAudioDrivers: int): (count: nat)
    requires h.kind == Audio && IsI32(sdlGetNumAudioDrivers)
    ensures IsU32(count)
    ensures 0 <= sdlGetNumAudioDrivers ==> count == sdlGetNumAudioDrivers
    ensures sdlGetNumAudioDrivers < 0 ==> count == sdlGetNumAudioDrivers + U32_MODULUS
  {
    AsU32(sdlGetNumAudioDrivers)
  }

  /** `get_driver_name(index)`: SDL_GetAudioDriver at `index as c_int`; no name
      exactly when SDL returned null. */
  function GetDriverName(h: SdlSubsystem, index: nat, sdlGetAudioDriver: int -> CStr): (name: Option<string>)
    requires h.kind == Audio && IsU32(index)
    ensures name.None? <==> sdlGetAudioDriver(AsI32(index)).Null?
    ensures name.Some? ==> name.value == sdlGetAudioDriver(AsI32(index)).text
  {
    match sdlGetAudioDriver(AsI32(index))
    case Null => None
    case Ptr(text) => Some(text)
  }

  /** `driver_names`: the names of drivers 0 .. driver_count() - 2, in order;
      the last driver (SDL's "dummy") is left out. `driver_count() - 1` must
      not underflow and every queried name must be present (`unwrap`). It
      never returns `Err`. */
  method DriverNames(h: SdlSubsystem, sdlGetNumAudioDrivers: int, sdlGetAudioDriver: int -> CStr)
    returns (r: Result<seq<string>>)
    requires h.kind == Audio && IsI32(sdlGetNumAudioDrivers)
    requires DriverCount(h, sdlGetNumAudioDrivers) >= 1
    requires forall i: nat :: i < DriverCount(h, sdlGetNumAudioDrivers) - 1 ==> sdlGetAudioDriver(AsI32(i)).Ptr?
    ensures r.Ok?
    ensures |r.value| == DriverCount(h, sdlGetNumAudioDrivers) - 1
    ensures forall i :: 0 <= i < |r.value| ==> GetDriverName(h, i, sdlGetAudioDriver) == Some(r.value[i])
  {
    var driverCount := DriverCount(h, sdlGetNumAudioDrivers) - 1;
    var names: seq<string> := [];
    for i := 0 to driverCount
      invariant |names| == i
      invariant forall j :: 0 <= j < i ==> GetDriverName(h, j, sdlGetAudioDriver) == Some(names[j])
    {
      var name := GetDriverName(h, i, sdlGetAudioDriver);
      names := names + [name.value];
    }
    r := Ok(names);
  }

  /** `current_driver_name`: the text of SDL_GetCurrentAudioDriver, which the
      binding assumes is never null while an Audio handle is live. */
  function CurrentDriverName(h: SdlSubsystem, sdlGetCurrentAudioDriver: CStr): (name: string)
    requires h.kind == Audio && sdlGetCurrentAudioDriver.Ptr?
    ensures Ptr(name) == sdlGetCurrentAudioDriver
  {
    sdlGetCurrentAudioDriver.text
  }

  /** `audio_device_count(t)`: SDL_GetNumAudioDevices for the discriminant of
      t; -1 means the count is unknown, any other value is reinterpreted as
      `u32`. */
  function AudioDeviceCount(h: SdlSubsystem, t: AudioDeviceType, sdlGetNumAudioDevices: int -> int): (count: Option<nat>)
    requires h.kind == Audio && IsI32(sdlGetNumAudioDevices(Discriminant(t)))
    ensures count.None? <==> sdlGetNumAudioDevices(Discriminant(t)) == -1
    ensures count.Some? ==> count.value == AsU32(sdlGetNumAudioDevices(Discriminant(t)))
    ensures count.Some? && 0 <= sdlGetNumAudioDevices(Discriminant(t)) ==> count.value == sdlGetNumAudioDevices(Discriminant(t))
  {
    var result := sdlGetNumAudioDevices(Discriminant(t));
    if result == -1 then None else Some(AsU32(result))
  }

  /** `get_audio_device_name(index, t)`: SDL_GetAudioDeviceName for `index` and
      the discriminant of t; a null answer becomes `SysError` with the text of
      SDL_GetError. */
  function GetAudioDeviceName(h: SdlSubsystem, index: int, t: AudioDeviceType,
                              sdlGetAudioDeviceName: (int, int) -> CStr, lastError: string): (r: Result<string>)
    requires h.kind == Audio && IsI32(index)
    ensures r.Ok? <==> sdlGetAudioDeviceName(index, Discriminant(t)).Ptr?
    ensures r.Ok? ==> r.value == sdlGetAudioDeviceName(index, Discriminant(t)).text
    ensures r.Err? ==> r.error == SysError(lastError)
  {
    match sdlGetAudioDeviceName(index, Discriminant(t))
    case Ptr(text) => Ok(text)
    case Null => Err(SysError(lastError))
  }
}
