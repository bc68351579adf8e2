/** `SdlContext` and its methods (src/context.rs): creating and dropping the
    root handle, and initializing subsystems. Each native call is an oracle
    whose answer is a parameter: `initRc` is what SDL_Init, SDL_InitSubSystem
    or SDL_AudioInit returns, `lastError` the text SDL_GetError would report. */
module Context {
  import opened Errors
  import opened Native
  import Subsystems
  import opened Lifecycle
  import opened Statics

  /** `SdlContext::new`. */
  method New(reg: Registry, initRc: int, lastError: string) returns (r: Result<SdlContext>)
    requires reg.Valid()
    modifies reg
    ensures reg.Valid()
    ensures var o := NewStep(old(reg.Abstract()), initRc, lastError);
            reg.Abstract() == o.post && r == o.result && reg.log == old(reg.log) + o.trace
  {
    ghost var before := reg.Abstract();
    NewKeepsInv(before, initRc, lastError);
    if reg.initialized {
      return Err(AlreadyInitialized(ROOT_ALREADY_INITIALIZED));
    }
    reg.log := reg.log + [Native(Init(0))];
    if initRc == 0 {
      reg.initialized := true;
      reg.log := reg.log + [Store(RootFlag, true)];
      reg.contexts := reg.contexts + 1;
      r := Ok(SdlContext);
    } else {
      reg.log := reg.log + [Native(GetError)];
      r := Err(SysError(lastError));
    }
  }

  /** `Drop for SdlContext`: store `false` into `INITIALIZED`, then call SDL_Quit. */
  method Drop(reg: Registry, ctx: SdlContext)
    requires reg.Valid() && reg.contexts > 0
    modifies reg
    ensures reg.Valid()
    ensures var o := DropContextStep(old(reg.Abstract()));
            reg.Abstract() == o.post && reg.log == old(reg.log) + o.trace
  {
    DropContextKeepsInv(reg.Abstract());
    reg.initialized := false;
    reg.log := reg.log + [Store(RootFlag, false)];
    reg.log := reg.log + [Native(Quit)];
    reg.contexts := reg.contexts - 1;
  }

  /** `init_subsystem`: the shared path of `timer` and `audio`. */
  method InitSubsystem(reg: Registry, ctx: SdlContext, subsystem: Subsystems.SdlSubsystemFlag, initRc: int, lastError: string)
    returns (r: Result<Subsystems.SdlSubsystem>)
    requires reg.Valid() && reg.contexts > 0  // called on a live, borrowed SdlContext
    modifies reg, reg.flags
    ensures reg.Valid()
    ensures var o := InitSubsystemStep(old(reg.Abstract()), subsystem, initRc, lastError);
            reg.Abstract() == o.post && r == o.result && reg.log == old(reg.log) + o.trace
  {
    ghost var before := reg.Abstract();
    InitSubsystemKeepsInv(before, subsystem, initRc, lastError);
    var slot := Subsystems.InitializedRaw(subsystem);
    if reg.flags[slot] {
      return Err(AlreadyInitialized(SubsystemAlreadyInitialized(subsystem)));
    }
    reg.log := reg.log + [Native(InitSubSystem(Subsystems.NativeFlag(subsystem)))];
    if initRc == 0 {
      reg.flags[slot] := true;
      reg.log := reg.log + [Store(SubsystemSlot(slot), true)];
      var h := Subsystems.SdlSubsystem(subsystem, None);
      reg.owned := reg.owned + multiset{h};
      r := Ok(h);
    } else {
      reg.log := reg.log + [Native(GetError)];
      r := Err(SysError(lastError));
    }
  }

  /** `timer`: `init_subsystem(Timer)`. */
  method Timer(reg: Registry, ctx: SdlContext, initRc: int, lastError: string)
    returns (r: Result<Subsystems.SdlSubsystem>)
    requires reg.Valid() && reg.contexts > 0  // called on a live, borrowed SdlContext
    modifies reg, reg.flags
    ensures reg.Valid()
    ensures var o := InitSubsystemStep(old(reg.Abstract()), Subsystems.Timer, initRc, lastError);
            reg.Abstract() == o.post && r == o.result && reg.log == old(reg.log) + o.trace
  {
    r := InitSubsystem(reg, ctx, Subsystems.Timer, initRc, lastError);
  }

  /** `audio`: `init_subsystem(Audio)`. */
  method Audio(reg: Registry, ctx: SdlContext, initRc: int, lastError: string)
    returns (r: Result<Subsystems.SdlSubsystem>)
    requires reg.Valid() && reg.contexts > 0  // called on a live, borrowed SdlContext
    modifies reg, reg.flags
    ensures reg.Valid()
    ensures var o := InitSubsystemStep(old(reg.Abstract()), Subsystems.Audio, initRc, lastError);
            reg.Abstract() == o.post && r == o.result && reg.log == old(reg.log) + o.trace
  {
    r := InitSubsystem(reg, ctx, Subsystems.Audio, initRc, lastError);
  }

  /** `audio_with_driver`. */
  method AudioWithDriver(reg: Registry, ctx: SdlContext, driverName: string, initRc: int, lastError: string)
    returns (r: Result<Subsystems.SdlSubsystem>)
    requires reg.Valid() && reg.contexts > 0  // called on a live, borrowed SdlContext
    modifies reg, reg.flags
    ensures reg.Valid()
    ensures var o := AudioWithDriverStep(old(reg.Abstract()), driverName, initRc, lastError);
            reg.Abstract() == o.post && r == o.result && reg.log == old(reg.log) + o.trace
  {
    ghost var before := reg.Abstract();
    AudioWithDriverKeepsInv(before, driverName, initRc, lastError);
    var slot := Subsystems.InitializedRaw(Subsystems.Audio);
    if reg.flags[slot] {
      return Err(AlreadyInitialized("The Audio subsystem is already initialized."));
    }
    if ContainsNul(driverName) {
      return Err(NulError);
    }
    reg.log := reg.log + [Native(AudioInit(driverName))];
    if initRc == 0 {
      reg.flags[slot] := true;
      reg.log := reg.log + [Store(SubsystemSlot(slot), true)];
      var h := Subsystems.SdlSubsystem(Subsystems.Audio, Some(Subsystems.SdlAudioQuit));
      reg.owned := reg.owned + multiset{h};
      r := Ok(h);
    } else {
      reg.log := reg.log + [Native(GetError)];
      r := Err(SysError(lastError));
    }
  }

  /** The crate's `timer_test` without its delay and printing: create the
      context, initialize the timer, then let both handles go out of scope
      (the timer handle is dropped before the context). Whatever the native
      answers, the flags end where they started; on success the log shows the
      four native calls, each flag store in its place. */
  method TimerTest(reg: Registry, initRc: int, timerRc: int, lastError: string) returns (r: Result<()>)
    requires reg.Valid()
    modifies reg, reg.flags
    ensures reg.Valid() && reg.Abstract() == old(reg.Abstract())
    ensures r.Ok? <==> (&& !old(reg.initialized) && initRc == 0
                        && !Subsystems.Initialized(old(reg.flags[..]), Subsystems.Timer) && timerRc == 0)
    ensures r.Ok? ==> reg.log == old(reg.log) + [
      Native(Init(0)), Store(RootFlag, true),
      Native(InitSubSystem(0x1)), Store(SubsystemSlot(0), true),
      Store(SubsystemSlot(0), false), Native(QuitSubSystem(0x1)),
      Store(RootFlag, false), Native(Quit)]
  {
    ghost var s0 := reg.Abstract();
    var ctx := New(reg, initRc, lastError);
    if ctx.Err? {
      return Err(ctx.error);
    }
    ghost var s1 := reg.Abstract();
    var timer := Timer(reg, ctx.value, timerRc, lastError);
    if timer.Err? {
      Drop(reg, ctx.value);
      NewThenDropRestores(s0, lastError);
      return Err(timer.error);
    }
    InitThenDropRestores(s1, Subsystems.Timer, lastError);
    DropSubsystem(reg, timer.value);
    Drop(reg, ctx.value);
    NewThenDropRestores(s0, lastError);
    r := Ok(());
  }
}
