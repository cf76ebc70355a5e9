/** The two pure decisions the Rust core makes for the driver (elan_core.rs):
    when the watchdog recovers, and which phase follows one recovery operation. */
module Policy {

  const U32 := 0x1_0000_0000

  const REPORT_ERROR_THRESHOLD := 3
  const RETRY_COUNT := 3

  datatype Option<+T> = None | Some(value: T)

  /** data->mode: the ABS and the CALIBRATE bit. */
  datatype Mode = Mode(abs: bool, cal: bool)

  datatype Action = Disarmed | Observe | RecoverNow

  function WatchdogAction(openCount: nat, probeStatus: int, reportErrors: nat, threshold: nat): Action {
    if openCount == 0 then Disarmed
    else if probeStatus < 0 || (threshold != 0 && reportErrors >= threshold) then RecoverNow
    else Observe
  }

  /** The watchdog is a threshold: once it recovers, more open nodes, a worse probe or more errors
      leave it recovering, and it starts to at the threshold itself or at a failed probe. */
  lemma ActionIsThreshold(openCount: nat, openCount': nat, probe: int, probe': int, errors: nat, errors': nat, threshold: nat)
    requires openCount <= openCount' && probe' <= probe && errors <= errors'
    ensures WatchdogAction(openCount, probe, errors, threshold) == RecoverNow
        ==> WatchdogAction(openCount', probe', errors', threshold) == RecoverNow
    ensures openCount > 0 && probe >= 0 && threshold > 0 ==>
      && WatchdogAction(openCount, probe, threshold, threshold) == RecoverNow
      && WatchdogAction(openCount, probe, threshold - 1, threshold) == Observe
    ensures openCount > 0 && probe >= 0 ==> WatchdogAction(openCount, probe, errors, 0) == Observe
    ensures openCount > 0 ==> WatchdogAction(openCount, -1, 0, threshold) == RecoverNow
    ensures WatchdogAction(0, probe, errors, threshold) == Disarmed
  {
  }

  datatype Phase = Idle | ReleaseInput | Reinitialize | Verify | RestoreMode | Complete | Failed

  function RecoveryNext(phase: Phase, status: int): Phase {
    if status < 0 then Failed
    else match phase
      case Idle => ReleaseInput
      case ReleaseInput => Reinitialize
      case Reinitialize => Verify
      case Verify => RestoreMode
      case RestoreMode => Complete
      case Complete => Idle
      case Failed => Failed
  }
}
