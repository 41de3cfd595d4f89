/**
  The relational store as an immutable value: the `devices` and
  `alert_config` tables keyed by the external device identifier, and the
  append-only `water_readings` and `alerts` tables in insertion order.
*/
module Store {
  import opened Common

  /** A row of `devices`. */
  datatype Device = Device(name: string, location: string)

  /** A row of `alert_config`; every column except the key may be NULL. */
  datatype ConfigRow = ConfigRow(
    minLevel: Option<real>,
    maxLevel: Option<real>,
    alertEnabled: Option<bool>,
    chatId: Option<string>)

  /** A row of `water_readings`; never updated once inserted. */
  datatype Reading = Reading(
    id: nat,
    deviceId: string,
    levelCm: Option<real>,
    levelPercent: Option<real>,
    status: string,
    createdAt: int)

  /** The `alert_type` column. */
  datatype AlertKind = LowLevel | HighLevel

  /** A row of `alerts`; only `sent` (the `sent_to_telegram` column) is ever updated. */
  datatype Alert = Alert(
    id: nat,
    deviceId: string,
    readingId: nat,
    kind: AlertKind,
    message: string,
    sent: bool,
    createdAt: int)

  datatype Store = Store(
    devices: map<string, Device>,
    configs: map<string, ConfigRow>,
    readings: seq<Reading>,
    alerts: seq<Alert>)

  /** The SQL statements a handler issues; a storage fault names the one that fails. */
  datatype Step =
    | Connect | Begin
    | SelectDevice | InsertDevice
    | SelectConfig | InsertConfig | UpdateConfigRow
    | InsertReading | InsertAlert
    | Commit

  /** The storage layer throws `message` when it executes `step`. */
  datatype Fault = Fault(step: Step, message: string)

  /** The fault strikes a run that executes exactly the statements in `executed`. */
  predicate Strikes(fault: Option<Fault>, executed: set<Step>)
  {
    fault.Some? && fault.value.step in executed
  }

  /** Display name given to a device created on first contact. */
  function DefaultName(deviceId: string): string
  {
    "Device " + deviceId
  }

  /**
    Look the device up and insert it with the default name and an empty
    location when it is missing; an existing device is left as it is.
  */
  function EnsureDevice(devices: map<string, Device>, deviceId: string): (ensured: map<string, Device>)
    ensures ensured.Keys == devices.Keys + {deviceId}
    ensures forall k :: k in devices ==> ensured[k] == devices[k]
    ensures deviceId !in devices ==> ensured[deviceId] == Device(DefaultName(deviceId), "")
    ensures |ensured| == if deviceId in devices then |devices| else |devices| + 1
  {
    if deviceId in devices then devices
    else devices[deviceId := Device(DefaultName(deviceId), "")]
  }

  /** The next value of a serial id column over `count` rows that were never deleted. */
  function NextId(count: nat): nat
  {
    count + 1
  }
}
