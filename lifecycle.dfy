/** The initialization/teardown state machine of src/context.rs and
    src/subsystems/mod.rs as pure functions over the process-wide flags.
    Each operation is one Step function: the flags afterwards, the value
    returned, and the trace of flag stores and native calls it performs, in
    order. The methods of Context and Statics are proved against these. */
module Lifecycle {
  import opened Errors
  import opened Native
  import opened Subsystems

  /** `SdlContext`: the root handle; it has no observable content. */
  datatype SdlContext = SdlContext

  /** A liveness flag: the root `INITIALIZED` or one of the eight per-kind statics. */
  datatype FlagRef = RootFlag | SubsystemSlot(slot: nat)

  /** One observable effect: a call into SDL, or a store into a liveness flag. */
  datatype Event = Native(call: NativeCall) | Store(flag: FlagRef, value: bool)

  /** The process-wide flags (`root`, `subs` indexed by `InitializedRaw`),
      together with the handles callers currently own: `contexts` root handles
      and the subsystem handles in `owned`. */
  datatype State = State(root: bool, subs: seq<bool>, contexts: nat, owned: multiset<SdlSubsystem>)

  /** The outcome of a fallible operation. */
  datatype Step<+T> = Step(post: State, result: Result<T>, trace: seq<Event>)

  /** The outcome of a teardown (a `Drop`), which cannot fail. */
  datatype Teardown = Teardown(post: State, trace: seq<Event>)

  predicate WellFormed(s: State) { |s.subs| == SLOTS }

  /** How many owned handles are of kind k (a handle's quitter is either absent
      or SDL_AudioQuit, so these two values cover every handle of kind k). */
  function OwnedOfKind(m: multiset<SdlSubsystem>, k: SdlSubsystemFlag): nat
  {
    m[SdlSubsystem(k, None)] + m[SdlSubsystem(k, Some(SdlAudioQuit))]
  }

  /** A handle is one of the two values OwnedOfKind counts for its kind. */
  lemma HandleShapes(h: SdlSubsystem)
    ensures h == SdlSubsystem(h.kind, None) || h == SdlSubsystem(h.kind, Some(SdlAudioQuit))
  {
    match h.quitter
    case None =>
    case Some(q) =>
      match q
      case SdlAudioQuit =>
  }

  lemma OwnedOfKindCounts(m: multiset<SdlSubsystem>, h: SdlSubsystem)
    ensures m[h] <= OwnedOfKind(m, h.kind)
  {
    HandleShapes(h);
  }

  /** Each flag is set exactly when one live handle stands behind it, and there
      is never more than one. */
  ghost predicate Inv(s: State)
  {
    && WellFormed(s)
    && s.contexts <= 1
    && (s.root <==> s.contexts == 1)
    && (forall k :: OwnedOfKind(s.owned, k) <= 1)
    && (forall k :: Initialized(s.subs, k) <==> OwnedOfKind(s.owned, k) == 1)
  }

  /** The state at process start: every AtomicBool is `false`, nothing is owned. */
  function Initial(): (s: State)
    ensures Inv(s)
    ensures forall k :: !Initialized(s.subs, k)
  {
    State(false, seq(SLOTS, _ => false), 0, multiset{})
  }

  const ROOT_ALREADY_INITIALIZED: string := "SDL2 is already initialized."

  function SubsystemAlreadyInitialized(k: SdlSubsystemFlag): string
  {
    "The " + DebugName(k) + " subsystem is already initialized."
  }

  /** `audio_with_driver` spells out its own message; it is the one
      `init_subsystem(Audio)` produces. */
  lemma AudioMessagesAgree()
    ensures SubsystemAlreadyInitialized(Audio) == "The Audio subsystem is already initialized."
  {
  }

  predicate ContainsNul(name: string) { '\0' in name }

  /** `SdlContext::new`: check the root flag, call SDL_Init(0), set the flag
      only when SDL_Init returned 0. */
  function NewStep(s: State, initRc: int, lastError: string): (o: Step<SdlContext>)
    requires WellFormed(s)
    ensures o.post.subs == s.subs && o.post.owned == s.owned
    ensures o.result.Ok? <==> !s.root && initRc == 0
    ensures o.result.Ok? ==> o.post.root && o.post.contexts == s.contexts + 1
    ensures o.result.Err? ==> o.post == s
    ensures s.root ==> o.result == Err(AlreadyInitialized(ROOT_ALREADY_INITIALIZED)) && o.trace == []
    ensures !s.root ==> |o.trace| > 0 && o.trace[0] == Native(Init(0)) && Native(Init(0)) !in o.trace[1..]
    ensures !s.root && initRc != 0 ==> o.result == Err(SysError(lastError))
    ensures o.result.Ok? ==> o.trace == [Native(Init(0)), Store(RootFlag, true)]
    ensures !s.root && initRc != 0 ==> o.trace == [Native(Init(0)), Native(GetError)]
  {
    if s.root then
      Step(s, Err(AlreadyInitialized(ROOT_ALREADY_INITIALIZED)), [])
    else if initRc == 0 then
      Step(s.(root := true, contexts := s.contexts + 1), Ok(SdlContext), [Native(Init(0)), Store(RootFlag, true)])
    else
      Step(s, Err(SysError(lastError)), [Native(Init(0)), Native(GetError)])
  }

  /** `Drop for SdlContext`: clear the root flag, then call SDL_Quit. The
      caller must own a live context. */
  function DropContextStep(s: State): (o: Teardown)
    requires WellFormed(s) && s.contexts > 0
    ensures !o.post.root && o.post.contexts == s.contexts - 1
    ensures o.post.subs == s.subs && o.post.owned == s.owned
    ensures o.trace == [Store(RootFlag, false), Native(Quit)]
  {
    Teardown(s.(root := false, contexts := s.contexts - 1), [Store(RootFlag, false), Native(Quit)])
  }

  /** `init_subsystem(k)`: check k's flag, call SDL_InitSubSystem with k's bit,
      set the flag only when that returned 0, and hand out a handle without a
      quitter. */
  function InitSubsystemStep(s: State, k: SdlSubsystemFlag, initRc: int, lastError: string): (o: Step<SdlSubsystem>)
    requires WellFormed(s)
    ensures WellFormed(o.post)
    ensures o.post.root == s.root && o.post.contexts == s.contexts
    ensures forall j :: j != k ==> Initialized(o.post.subs, j) == Initialized(s.subs, j)
    ensures o.result.Ok? <==> !Initialized(s.subs, k) && initRc == 0
    ensures o.result.Ok? ==> (&& o.result.value == SdlSubsystem(k, None)
                              && Initialized(o.post.subs, k)
                              && o.post.owned == s.owned + multiset{o.result.value})
    ensures o.result.Err? ==> o.post == s
    ensures Initialized(s.subs, k) ==> o.result == Err(AlreadyInitialized(SubsystemAlreadyInitialized(k))) && o.trace == []
    ensures !Initialized(s.subs, k) ==> |o.trace| > 0 && o.trace[0] == Native(InitSubSystem(NativeFlag(k)))
    ensures !Initialized(s.subs, k) && initRc != 0 ==> o.result == Err(SysError(lastError))
    ensures o.result.Ok? ==> o.trace == [Native(InitSubSystem(NativeFlag(k))), Store(SubsystemSlot(InitializedRaw(k)), true)]
    ensures !Initialized(s.subs, k) && initRc != 0 ==> o.trace == [Native(InitSubSystem(NativeFlag(k))), Native(GetError)]
  {
    var slot := InitializedRaw(k);
    if s.subs[slot] then
      Step(s, Err(AlreadyInitialized(SubsystemAlreadyInitialized(k))), [])
    else if initRc == 0 then
      var h := SdlSubsystem(k, None);
      Step(s.(subs := s.subs[slot := true], owned := s.owned + multiset{h}), Ok(h),
           [Native(InitSubSystem(NativeFlag(k))), Store(SubsystemSlot(slot), true)])
    else
      Step(s, Err(SysError(lastError)), [Native(InitSubSystem(NativeFlag(k))), Native(GetError)])
  }

  /** `audio_with_driver(name)`: check the Audio flag, reject a name holding
      NUL before any native call, call SDL_AudioInit, set the Audio flag only
      when that returned 0, and hand out a handle recording SDL_AudioQuit. */
  function AudioWithDriverStep(s: State, driverName: string, initRc: int, lastError: string): (o: Step<SdlSubsystem>)
    requires WellFormed(s)
    ensures WellFormed(o.post)
    ensures o.post.root == s.root && o.post.contexts == s.contexts
    ensures forall j :: j != Audio ==> Initialized(o.post.subs, j) == Initialized(s.subs, j)
    ensures o.result.Ok? <==> !Initialized(s.subs, Audio) && !ContainsNul(driverName) && initRc == 0
    ensures o.result.Ok? ==> (&& o.result.value == SdlSubsystem(Audio, Some(SdlAudioQuit))
                              && Initialized(o.post.subs, Audio)
                              && o.post.owned == s.owned + multiset{o.result.value})
    ensures o.result.Err? ==> o.post == s
    ensures Initialized(s.subs, Audio) ==> o.result == Err(AlreadyInitialized(SubsystemAlreadyInitialized(Audio))) && o.trace == []
    ensures !Initialized(s.subs, Audio) && ContainsNul(driverName) ==> o.result == Err(NulError) && o.trace == []
    ensures !Initialized(s.subs, Audio) && !ContainsNul(driverName) ==> |o.trace| > 0 && o.trace[0] == Native(AudioInit(driverName))
    ensures !Initialized(s.subs, Audio) && !ContainsNul(driverName) && initRc != 0 ==> o.result == Err(SysError(lastError))
    ensures o.result.Ok? ==> o.trace == [Native(AudioInit(driverName)), Store(SubsystemSlot(InitializedRaw(Audio)), true)]
    ensures (!Initialized(s.subs, Audio) && !ContainsNul(driverName) && initRc != 0) ==>
              o.trace == [Native(AudioInit(driverName)), Native(GetError)]
  {
    var slot := InitializedRaw(Audio);
    if s.subs[slot] then
      AudioMessagesAgree();
      Step(s, Err(AlreadyInitialized("The Audio subsystem is already initialized.")), [])
    else if ContainsNul(driverName) then
      Step(s, Err(NulError), [])
    else if initRc == 0 then
      var h := SdlSubsystem(Audio, Some(SdlAudioQuit));
      Step(s.(subs := s.subs[slot := true], owned := s.owned + multiset{h}), Ok(h),
           [Native(AudioInit(driverName)), Store(SubsystemSlot(slot), true)])
    else
      Step(s, Err(SysError(lastError)), [Native(AudioInit(driverName)), Native(GetError)])
  }

  /** `Drop for SdlSubsystem`: clear the handle's own flag, then call
      SDL_QuitSubSystem with its kind's bit. The recorded quitter is not
      consulted. The caller must own the handle. */
  function DropSubsystemStep(s: State, h: SdlSubsystem): (o: Teardown)
    requires WellFormed(s) && h in s.owned
    ensures WellFormed(o.post)
    ensures !Initialized(o.post.subs, h.kind)
    ensures forall j :: j != h.kind ==> Initialized(o.post.subs, j) == Initialized(s.subs, j)
    ensures o.post.root == s.root && o.post.contexts == s.contexts
    ensures o.post.owned == s.owned - multiset{h}
    ensures o.trace == [Store(SubsystemSlot(InitializedRaw(h.kind)), false), Native(QuitSubSystem(NativeFlag(h.kind)))]
  {
    var slot := InitializedRaw(h.kind);
    Teardown(s.(subs := s.subs[slot := false], owned := s.owned - multiset{h}),
             [Store(SubsystemSlot(slot), false), Native(QuitSubSystem(NativeFlag(h.kind)))])
  }

  // ---------------------------------------------------------------------
  // Every operation keeps the invariant: at most one live root and at most
  // one live handle per kind, each flag set exactly while its handle lives.

  lemma NewKeepsInv(s: State, initRc: int, lastError: string)
    requires Inv(s)
    ensures Inv(NewStep(s, initRc, lastError).post)
  {
  }

  lemma DropContextKeepsInv(s: State)
    requires Inv(s) && s.contexts > 0
    ensures Inv(DropContextStep(s).post)
  {
  }

  /** Helper: adding a handle of kind k whose flag was clear, and setting that
      flag, keeps the invariant. */
  lemma AcquireKeepsInv(s: State, h: SdlSubsystem, t: State)
    requires Inv(s) && !Initialized(s.subs, h.kind)
    requires t == s.(subs := s.subs[InitializedRaw(h.kind) := true], owned := s.owned + multiset{h})
    ensures Inv(t)
  {
    OwnedOfKindCounts(s.owned, h);
    forall j
      ensures OwnedOfKind(t.owned, j) <= 1
      ensures Initialized(t.subs, j) <==> OwnedOfKind(t.owned, j) == 1
    {
      if j == h.kind {
        OwnedOfKindCounts(t.owned, h);
      } else {
        InitializedRawInjective(j, h.kind);
        assert SdlSubsystem(j, None) != h && SdlSubsystem(j, Some(SdlAudioQuit)) != h;
        assert OwnedOfKind(t.owned, j) == OwnedOfKind(s.owned, j);
      }
    }
  }

  lemma InitSubsystemKeepsInv(s: State, k: SdlSubsystemFlag, initRc: int, lastError: string)
    requires Inv(s)
    ensures Inv(InitSubsystemStep(s, k, initRc, lastError).post)
  {
    var o := InitSubsystemStep(s, k, initRc, lastError);
    if o.result.Ok? {
      AcquireKeepsInv(s, SdlSubsystem(k, None), o.post);
    }
  }

  lemma AudioWithDriverKeepsInv(s: State, driverName: string, initRc: int, lastError: string)
    requires Inv(s)
    ensures Inv(AudioWithDriverStep(s, driverName, initRc, lastError).post)
  {
    var o := AudioWithDriverStep(s, driverName, initRc, lastError);
    if o.result.Ok? {
      AcquireKeepsInv(s, SdlSubsystem(Audio, Some(SdlAudioQuit)), o.post);
    }
  }

  lemma DropSubsystemKeepsInv(s: State, h: SdlSubsystem)
    requires Inv(s) && h in s.owned
    ensures Inv(DropSubsystemStep(s, h).post)
  {
    var t := DropSubsystemStep(s, h).post;
    OwnedOfKindCounts(s.owned, h);
    forall j
      ensures OwnedOfKind(t.owned, j) <= 1
      ensures Initialized(t.subs, j) <==> OwnedOfKind(t.owned, j) == 1
    {
      if j == h.kind {
        HandleShapes(h);
        assert s.owned[h] == 1 && t.owned[h] == 0;
        var other := if h.quitter.None? then SdlSubsystem(j, Some(SdlAudioQuit)) else SdlSubsystem(j, None);
        assert other != h && t.owned[other] == s.owned[other];
        assert OwnedOfKind(s.owned, j) == s.owned[h] + s.owned[other];
        assert OwnedOfKind(t.owned, j) == t.owned[h] + t.owned[other];
      } else {
        assert SdlSubsystem(j, None) != h && SdlSubsystem(j, Some(SdlAudioQuit)) != h;
        assert OwnedOfKind(t.owned, j) == OwnedOfKind(s.owned, j);
      }
    }
  }

  // ---------------------------------------------------------------------
  // Consequences over several calls.

  /** While a context is live, a second `new` is rejected without any native
      call or store. */
  lemma SecondContextRejected(s: State, initRc: int, lastError: string)
    requires Inv(s) && s.contexts > 0
    ensures NewStep(s, initRc, lastError) == Step(s, Err(AlreadyInitialized(ROOT_ALREADY_INITIALIZED)), [])
  {
  }

  /** While a handle of kind k is owned, every further initialization of k
      (by either path for Audio) is rejected without any native call or store. */
  lemma LiveHandleBlocksInit(s: State, h: SdlSubsystem, initRc: int, driverName: string, lastError: string)
    requires Inv(s) && h in s.owned
    ensures InitSubsystemStep(s, h.kind, initRc, lastError)
              == Step(s, Err(AlreadyInitialized(SubsystemAlreadyInitialized(h.kind))), [])
    ensures h.kind == Audio ==>
              AudioWithDriverStep(s, driverName, initRc, lastError)
              == Step(s, Err(AlreadyInitialized(SubsystemAlreadyInitialized(Audio))), [])
  {
    OwnedOfKindCounts(s.owned, h);
  }

  /** Creating a context and dropping it returns the flags (and the ownership
      record) exactly to where they were. */
  lemma NewThenDropRestores(s: State, lastError: string)
    requires WellFormed(s) && !s.root
    ensures NewStep(s, 0, lastError).result.Ok?
    ensures DropContextStep(NewStep(s, 0, lastError).post).post == s
  {
  }

  /** After the context is dropped, a new `new` passes the already-initialized
      check: it calls SDL_Init(0) and succeeds exactly when that returns 0. */
  lemma RootReinitAfterDrop(s: State, initRc: int, lastError: string)
    requires Inv(s) && s.contexts > 0
    ensures var o := NewStep(DropContextStep(s).post, initRc, lastError);
            o.trace[0] == Native(Init(0)) && (o.result.Ok? <==> initRc == 0)
  {
  }

  /** Initializing a free kind and dropping the handle returns the flags (and
      the ownership record) exactly to where they were. */
  lemma InitThenDropRestores(s: State, k: SdlSubsystemFlag, lastError: string)
    requires WellFormed(s) && !Initialized(s.subs, k)
    ensures InitSubsystemStep(s, k, 0, lastError).result.Ok?
    ensures var o := InitSubsystemStep(s, k, 0, lastError);
            DropSubsystemStep(o.post, o.result.value).post == s
  {
    var o := InitSubsystemStep(s, k, 0, lastError);
    var h := o.result.value;
    var t := DropSubsystemStep(o.post, h).post;
    assert t.subs == s.subs;
    assert t.owned == s.owned;
  }

  /** The same round trip through `audio_with_driver`. */
  lemma AudioWithDriverThenDropRestores(s: State, driverName: string, lastError: string)
    requires WellFormed(s) && !Initialized(s.subs, Audio) && !ContainsNul(driverName)
    ensures AudioWithDriverStep(s, driverName, 0, lastError).result.Ok?
    ensures var o := AudioWithDriverStep(s, driverName, 0, lastError);
            DropSubsystemStep(o.post, o.result.value).post == s
  {
    var o := AudioWithDriverStep(s, driverName, 0, lastError);
    var h := o.result.value;
    var t := DropSubsystemStep(o.post, h).post;
    assert t.subs == s.subs;
    assert t.owned == s.owned;
  }

  /** After a handle of kind k is dropped, a new `init_subsystem(k)` passes the
      already-initialized check: it calls SDL_InitSubSystem and succeeds
      exactly when that returns 0. */
  lemma SubsystemReinitAfterDrop(s: State, h: SdlSubsystem, initRc: int, lastError: string)
    requires Inv(s) && h in s.owned
    ensures var o := InitSubsystemStep(DropSubsystemStep(s, h).post, h.kind, initRc, lastError);
            o.trace[0] == Native(InitSubSystem(NativeFlag(h.kind))) && (o.result.Ok? <==> initRc == 0)
  {
  }

  /** A handle made by `audio_with_driver` records SDL_AudioQuit, yet dropping
      it calls SDL_QuitSubSystem with the Audio bit and never SDL_AudioQuit. */
  lemma DriverAudioDropIgnoresQuitter(s: State, driverName: string, lastError: string)
    requires Inv(s) && !Initialized(s.subs, Audio) && !ContainsNul(driverName)
    ensures var o := AudioWithDriverStep(s, driverName, 0, lastError);
            && o.result.value.quitter == Some(SdlAudioQuit)
            && DropSubsystemStep(o.post, o.result.value).trace[1] == Native(QuitSubSystem(0x10))
            && Native(AudioQuit) !in DropSubsystemStep(o.post, o.result.value).trace
  {
  }

  /** Dropping the context does not clear subsystem flags: a handle still owned
      at that point keeps its kind marked live, so once a new context exists
      that kind's initialization is still rejected. */
  lemma RootDropKeepsSubsystemFlags(s: State, h: SdlSubsystem, initRc: int, lastError: string)
    requires Inv(s) && s.contexts > 0 && h in s.owned
    ensures var again := NewStep(DropContextStep(s).post, 0, lastError);
            && again.result.Ok?
            && InitSubsystemStep(again.post, h.kind, initRc, lastError).result
               == Err(AlreadyInitialized(SubsystemAlreadyInitialized(h.kind)))
  {
    OwnedOfKindCounts(s.owned, h);
  }
}
