/** What the Redfish endpoint promises, proved of the functions in module Redfish. */
module RedfishProperties {
  import opened Options
  import opened Redfish

  /** Without a state file the system is off, boots from the hard disk, and has no override. */
  lemma NoStateFileDefaults()
    ensures View(LoadState(None)) == SystemView(OFF, DISABLED, HDD)
  {
  }

  /** GET reports each stored key, and the default of a key the file lacks. */
  lemma ViewReportsState(state: BmcState)
    ensures var v := View(state);
            && (state.powerState.Some? ==> v.powerState == state.powerState.value)
            && (state.powerState.None? ==> v.powerState == OFF)
            && (state.bootOverride.Some? ==> v.overrideEnabled == state.bootOverride.value)
            && (state.bootOverride.None? ==> v.overrideEnabled == DISABLED)
            && (state.bootDevice.Some? ==> v.overrideTarget == state.bootDevice.value)
            && (state.bootDevice.None? ==> v.overrideTarget == HDD)
  {
  }

  /**
   * After a PATCH with `Boot`, GET reports each given member and the previous value of each
   * missing one; the power state is never touched.
   */
  lemma PatchThenGet(file: Option<BmcState>, boot: BootPatch)
    ensures var before := View(LoadState(file));
            var after := View(LoadState(Patch(file, PatchBody(Some(boot)))));
            && after.overrideTarget == boot.target.GetOr(before.overrideTarget)
            && after.overrideEnabled == boot.enabled.GetOr(before.overrideEnabled)
            && after.powerState == before.powerState
            && LoadState(Patch(file, PatchBody(Some(boot)))).powerState == LoadState(file).powerState
  {
  }

  /** A PATCH without `Boot` writes nothing. */
  lemma PatchWithoutBootWritesNothing(file: Option<BmcState>)
    ensures Patch(file, PatchBody(None)) == file
  {
  }

  /** A PATCH with `Boot` always leaves a state file, even where there was none. */
  lemma PatchWritesFile(file: Option<BmcState>, boot: BootPatch)
    ensures Patch(file, PatchBody(Some(boot))).Some?
  {
  }

  /** Sending the same PATCH twice has the effect of sending it once. */
  lemma PatchIdempotent(file: Option<BmcState>, body: PatchBody)
    ensures Patch(Patch(file, body), body) == Patch(file, body)
  {
  }

  /**
   * `On`, `GracefulRestart` and `ForceRestart` leave the system on; `ForceOff` and
   * `GracefulShutdown` leave it off; a missing type counts as `On`.
   */
  lemma ResetPowerStates(file: Option<BmcState>, requested: Option<string>)
    ensures var t := ResetTypeOf(requested);
            var after := View(LoadState(Reset(file, requested).0)).powerState;
            && (t == ON || t == GRACEFUL_RESTART || t == FORCE_RESTART ==> after == ON)
            && (t == FORCE_OFF || t == GRACEFUL_SHUTDOWN ==> after == OFF)
            && (requested.None? ==> after == ON && Reset(file, requested).1 == "Reset On executed")
  {
  }

  /** Every reset type known to the action sets a power state, and only those five do. */
  lemma ResetPowerKnownTypes(t: string)
    ensures ResetPower(t).Some? <==> t in {ON, FORCE_OFF, GRACEFUL_SHUTDOWN, GRACEFUL_RESTART, FORCE_RESTART}
    ensures ResetPower(t).Some? ==> ResetPower(t).value == ON || ResetPower(t).value == OFF
  {
  }

  /** An unknown reset type changes nothing that GET reports, and is still reported as executed. */
  lemma UnknownResetChangesNothing(file: Option<BmcState>, t: string)
    requires ResetPower(t).None?
    ensures View(LoadState(Reset(file, Some(t)).0)) == View(LoadState(file))
    ensures LoadState(Reset(file, Some(t)).0) == LoadState(file)
    ensures Reset(file, Some(t)).1 == "Reset " + t + " executed"
  {
  }

  /** Repeating a reset has the effect of doing it once. */
  lemma ResetIdempotent(file: Option<BmcState>, requested: Option<string>)
    ensures Reset(Reset(file, requested).0, requested).0 == Reset(file, requested).0
  {
  }

  /** The state file after a series of resets, applied one after the other. */
  function ResetAll(file: Option<BmcState>, requests: seq<Option<string>>): Option<BmcState>
    decreases |requests|
  {
    if requests == [] then file
    else Reset(ResetAll(file, requests[..|requests| - 1]), requests[|requests| - 1]).0
  }

  /**
   * No series of resets changes the boot device or the boot override, so an override set to
   * `Once` stays `Once` through every reset and restart.
   */
  lemma {:induction false} ResetsKeepBootSettings(file: Option<BmcState>, requests: seq<Option<string>>)
    ensures LoadState(ResetAll(file, requests)).bootDevice == LoadState(file).bootDevice
    ensures LoadState(ResetAll(file, requests)).bootOverride == LoadState(file).bootOverride
  {
    if requests != [] {
      ResetsKeepBootSettings(file, requests[..|requests| - 1]);
    }
  }

  /** After a series of resets, the power state is that of the last reset that set one, if any. */
  lemma ResetsLastPowerWins(file: Option<BmcState>, requests: seq<Option<string>>)
    requires requests != []
    requires ResetPower(ResetTypeOf(requests[|requests| - 1])).Some?
    ensures LoadState(ResetAll(file, requests)).powerState == ResetPower(ResetTypeOf(requests[|requests| - 1]))
  {
  }
}
