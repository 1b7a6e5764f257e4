/** The values the services pass around (model/enum.go, model/order.go, model/driver.go). Identifiers are the
    hexadecimal strings of the database. */
module Model {

  /** How long one driver has to answer (background/dispatcher.go). */
  const SEQUENTIAL_CALL_TIMEOUT_SECS := 19
  const SEQUENTIAL_CALL_TIMEOUT_MS := 19000

  datatype Option<+T> = None | Some(value: T)

  /** A call that can fail; what it failed with is only ever logged. */
  datatype Result<+T> = Ok(value: T) | Err

  datatype OrderStatus =
    | Waiting | ScheduleAccepted | Enroute | DriverArrived | Executing
    | Completed | Cancelled | Failed | SystemFailed

  datatype DriverStatus = Idle | OnTheWay | AtPickup | OnTrip | Inactive

  datatype OrderType = Instant | Scheduled

  datatype Fleet = RSK | KD | WEI | OtherFleet(name: string)

  datatype LogAction = DriverAccept | DriverReject | DriverTimeout | OtherAction

  datatype LogEntry = LogEntry(action: LogAction, driver: string, rounds: int)

  /** WEI orders go to WEI drivers only; RSK and KD orders never go to WEI drivers. */
  predicate FleetMatches(orderFleet: Fleet, driverFleet: Fleet) {
    && (orderFleet == WEI ==> driverFleet == WEI)
    && (orderFleet == RSK || orderFleet == KD ==> driverFleet != WEI)
  }
}
