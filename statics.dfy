/** The process-wide liveness flags: `INITIALIZED` (src/context.rs) and the
    eight per-subsystem statics (src/subsystems/mod.rs), held by one Registry
    object, and the handle's `Drop`. The ghost fields record what the model
    needs to state its properties: the ordered log of stores and native calls,
    and the handles callers own (Rust's ownership makes each handle dropped
    exactly once). */
module Statics {
  import opened Native
  import opened Subsystems
  import opened Lifecycle

  class Registry {
    /** `INITIALIZED`. */
    var initialized: bool
    /** The eight `*_INITIALIZED` statics, indexed by `InitializedRaw`. */
    const flags: array<bool>
    ghost var log: seq<Event>
    ghost var contexts: nat
    ghost var owned: multiset<SdlSubsystem>

    ghost function Abstract(): State
      reads this, flags
    {
      State(initialized, flags[..], contexts, owned)
    }

    ghost predicate Valid()
      reads this, flags
    {
      flags.Length == SLOTS && Inv(Abstract())
    }

    /** The statics as the process starts: every flag `false`. */
    constructor ()
      ensures Valid() && fresh(flags)
      ensures Abstract() == Initial() && log == []
    {
      initialized := false;
      flags := new bool[SLOTS](_ => false);
      log := [];
      contexts := 0;
      owned := multiset{};
      new;
      assert flags[..] == Initial().subs;
    }
  }

  /** `Drop for SdlSubsystem`: store `false` into the handle's own flag, then
      call SDL_QuitSubSystem with its kind's bit. */
  method DropSubsystem(reg: Registry, h: SdlSubsystem)
    requires reg.Valid() && h in reg.owned
    modifies reg, reg.flags
    ensures reg.Valid()
    ensures var o := DropSubsystemStep(old(reg.Abstract()), h);
            reg.Abstract() == o.post && reg.log == old(reg.log) + o.trace
  {
    ghost var before := reg.Abstract();
    var slot := InitializedRaw(h.kind);
    reg.flags[slot] := false;
    reg.log := reg.log + [Store(SubsystemSlot(slot), false)];
    reg.log := reg.log + [Native(QuitSubSystem(NativeFlag(h.kind)))];
    reg.owned := reg.owned - multiset{h};
    assert reg.Abstract() == DropSubsystemStep(before, h).post;
    DropSubsystemKeepsInv(before, h);
  }
}
