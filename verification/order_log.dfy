/** The two scans of an order's log that decide whether a reject or a timeout may be appended
    (service/driver_service.go, background/dispatcher.go). */
module OrderLog {
  import opened Model

  /** The driver has not rejected the order in any round. */
  predicate RejectAllowed(log: seq<LogEntry>, driver: string) {
    forall i | 0 <= i < |log| :: !(log[i].action == DriverReject && log[i].driver == driver)
  }

  /** The driver has neither accepted, rejected nor timed out in this round. */
  predicate TimeoutAllowed(log: seq<LogEntry>, driver: string, rounds: int) {
    forall i | 0 <= i < |log| :: !(log[i].driver == driver && log[i].rounds == rounds && log[i].action != OtherAction)
  }

  /** A log without a reject of the driver lets a reject through, whatever else it holds. */
  lemma RejectNeedsNoReject(log: seq<LogEntry>, driver: string)
    ensures RejectAllowed(log, driver) <==> !exists e | e in log :: e.driver == driver && e.action == DriverReject
  {
  }

  /** Only entries of this driver and this very round stand in the way of a timeout; earlier rounds never do. */
  lemma TimeoutNeedsEmptyRound(log: seq<LogEntry>, driver: string, rounds: int)
    ensures TimeoutAllowed(log, driver, rounds)
            <==> !exists e | e in log ::
                   e.driver == driver && e.rounds == rounds
                   && (e.action == DriverAccept || e.action == DriverReject || e.action == DriverTimeout)
  {
    forall e | e in log && e.driver == driver && e.rounds == rounds && e.action != OtherAction
      ensures e.action == DriverAccept || e.action == DriverReject || e.action == DriverTimeout
    {
    }
  }

  method ScanForReject(log: seq<LogEntry>, driver: string) returns (allowed: bool)
    ensures allowed == RejectAllowed(log, driver)
    ensures allowed <==> !exists e | e in log :: e.driver == driver && e.action == DriverReject
  {
    RejectNeedsNoReject(log, driver);
    for i := 0 to |log|
      invariant RejectAllowed(log[..i], driver)
    {
      if log[i].action == DriverReject && log[i].driver == driver {
        return false;
      }
    }
    assert log[..|log|] == log;
    return true;
  }

  method ScanForTimeout(log: seq<LogEntry>, driver: string, rounds: int) returns (allowed: bool)
    ensures allowed == TimeoutAllowed(log, driver, rounds)
    ensures allowed <==> !exists e | e in log ::
                           e.driver == driver && e.rounds == rounds
                           && (e.action == DriverAccept || e.action == DriverReject || e.action == DriverTimeout)
  {
    TimeoutNeedsEmptyRound(log, driver, rounds);
    for i := 0 to |log|
      invariant TimeoutAllowed(log[..i], driver, rounds)
    {
      if log[i].driver == driver && log[i].rounds == rounds {
        if log[i].action == DriverAccept {
          return false;
        }
        if log[i].action == DriverReject {
          return false;
        }
        if log[i].action == DriverTimeout {
          return false;
        }
      }
    }
    assert log[..|log|] == log;
    return true;
  }
}
