/**
 * The Redfish endpoint of the emulated BMC: the system resource (`/redfish/v1/Systems/1`), which
 * reports and updates the boot override, and the `ComputerSystem.Reset` action, which sets the
 * power state. Both work on a JSON state file that every request loads afresh.
 */
module Redfish {
  import opened Options

  const ON := "On"
  const OFF := "Off"
  const FORCE_OFF := "ForceOff"
  const GRACEFUL_SHUTDOWN := "GracefulShutdown"
  const GRACEFUL_RESTART := "GracefulRestart"
  const FORCE_RESTART := "ForceRestart"
  const HDD := "Hdd"
  const DISABLED := "Disabled"

  /** The three keys of the state file that the endpoint reads and writes; a key may be missing from the file. */
  datatype BmcState = BmcState(powerState: Option<string>, bootDevice: Option<string>, bootOverride: Option<string>)

  /** What `load_state` returns when the file is missing or unreadable. */
  const DEFAULT_STATE := BmcState(Some(OFF), Some(HDD), Some(DISABLED))

  /** `load_state`: the file's contents, or the default state when there is no readable file (None). */
  function LoadState(file: Option<BmcState>): BmcState {
    file.GetOr(DEFAULT_STATE)
  }

  /** The fields of the GET response that come from the state. */
  datatype SystemView = SystemView(powerState: string, overrideEnabled: string, overrideTarget: string)

  /** GET `/redfish/v1/Systems/1`: the state, with the same defaults for missing keys. */
  function View(state: BmcState): SystemView {
    SystemView(state.powerState.GetOr(OFF), state.bootOverride.GetOr(DISABLED), state.bootDevice.GetOr(HDD))
  }

  /** The `Boot` object of a PATCH body; each member may be absent. */
  datatype BootPatch = BootPatch(target: Option<string>, enabled: Option<string>)

  /** A PATCH body, with or without a `Boot` object. */
  datatype PatchBody = PatchBody(boot: Option<BootPatch>)

  /** The boot update of a PATCH: each member present replaces its key. */
  function ApplyBoot(state: BmcState, boot: BootPatch): BmcState {
    state.(bootDevice := if boot.target.Some? then boot.target else state.bootDevice,
           bootOverride := if boot.enabled.Some? then boot.enabled else state.bootOverride)
  }

  /** PATCH `/redfish/v1/Systems/1`: the state file afterwards; it is written only for a body with `Boot`. */
  function Patch(file: Option<BmcState>, body: PatchBody): Option<BmcState> {
    match body.boot
    case None => file
    case Some(boot) => Some(ApplyBoot(LoadState(file), boot))
  }

  /** The power state a reset type leads to; None for a type the action does not know. */
  function ResetPower(resetType: string): Option<string> {
    if resetType == ON then Some(ON)
    else if resetType == FORCE_OFF || resetType == GRACEFUL_SHUTDOWN then Some(OFF)
    else if resetType == GRACEFUL_RESTART || resetType == FORCE_RESTART then Some(ON)
    else None
  }

  /** The reset type of a request, `On` when the body has none. */
  function ResetTypeOf(requested: Option<string>): string {
    requested.GetOr(ON)
  }

  /**
   * POST `.../Actions/ComputerSystem.Reset`: the state file afterwards (always written) and the
   * message of the success response.
   */
  function Reset(file: Option<BmcState>, requested: Option<string>): (Option<BmcState>, string) {
    var resetType := ResetTypeOf(requested);
    var state := LoadState(file);
    var state' := match ResetPower(resetType)
                  case Some(p) => state.(powerState := Some(p))
                  case None => state;
    (Some(state'), "Reset " + resetType + " executed")
  }

  /** The endpoint with its state file (None while there is no readable file). */
  class RedfishService {
    var stateFile: Option<BmcState>

    constructor (file: Option<BmcState>)
      ensures stateFile == file
    {
      stateFile := file;
    }

    /** The GET branch of `system_1`. */
    method GetSystem() returns (view: SystemView)
      ensures view == View(LoadState(stateFile))
    {
      view := View(LoadState(stateFile));
    }

    /** The PATCH branch of `system_1`; the response is always a success. */
    method PatchSystem(body: PatchBody)
      modifies this
      ensures stateFile == Patch(old(stateFile), body)
    {
      var state := LoadState(stateFile);
      if body.boot.Some? {
        var boot := body.boot.value;
        if boot.target.Some? {
          state := state.(bootDevice := boot.target);
        }
        if boot.enabled.Some? {
          state := state.(bootOverride := boot.enabled);
        }
        stateFile := Some(state);
      }
    }

    /** `system_reset`; the response is always a success, with `message`. */
    method SystemReset(requested: Option<string>) returns (message: string)
      modifies this
      ensures (stateFile, message) == Reset(old(stateFile), requested)
    {
      var resetType := requested.GetOr(ON);
      var state := LoadState(stateFile);
      if resetType == ON {
        state := state.(powerState := Some(ON));
      } else if resetType == FORCE_OFF || resetType == GRACEFUL_SHUTDOWN {
        state := state.(powerState := Some(OFF));
      } else if resetType == GRACEFUL_RESTART || resetType == FORCE_RESTART {
        state := state.(powerState := Some(ON));
      }
      stateFile := Some(state);
      message := "Reset " + resetType + " executed";
    }
  }
}
