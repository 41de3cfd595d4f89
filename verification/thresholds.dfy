/**
  The threshold classifier, the system defaults of the alert configuration,
  default substitution for NULL columns, and the choice of the
  notification target.
*/
module Thresholds {
  import opened Common
  import opened Store

  const DefaultMin: real := 20.0
  const DefaultMax: real := 90.0

  const Low: string := "LOW"
  const High: string := "HIGH"
  const Normal: string := "NORMAL"
  const Unknown: string := "UNKNOWN"

  /** A crossing status: the level left the configured band. */
  predicate IsCrossing(status: string)
  {
    status == Low || status == High
  }

  /**
    Classify a measurement against [minLevel, maxLevel]. Without a
    percentage the device's own status is kept, or UNKNOWN if it sent none.
  */
  function Classify(percent: Option<real>, reported: Option<string>, minLevel: real, maxLevel: real): (status: string)
    ensures percent.Some? ==> (status == Low <==> percent.value < minLevel)
    ensures percent.Some? ==> (status == High <==> minLevel <= percent.value && percent.value > maxLevel)
    ensures percent.Some? ==> (status == Normal <==> minLevel <= percent.value <= maxLevel)
    ensures percent.None? && reported.Some? ==> status == reported.value
    ensures percent.None? && reported.None? ==> status == Unknown
  {
    match percent
    case Some(p) =>
      if p < minLevel then Low
      else if p > maxLevel then High
      else Normal
    case None => reported.GetOr(Unknown)
  }

  /** With an ordered band, every measured level lands in exactly one of the three bands. */
  lemma ClassifyPartitions(p: real, reported: Option<string>, minLevel: real, maxLevel: real)
    requires minLevel <= maxLevel
    ensures var status := Classify(Some(p), reported, minLevel, maxLevel);
      && (status == Low <==> p < minLevel)
      && (status == High <==> p > maxLevel)
      && (status == Normal <==> minLevel <= p <= maxLevel)
      && (status == Low || status == High || status == Normal)
  {
  }

  /** The alert kind recorded for a crossing status. */
  function KindOf(status: string): AlertKind
  {
    if status == Low then LowLevel else HighLevel
  }

  /** A configuration as the handlers use it: NULL thresholds and flag replaced by defaults. */
  datatype Resolved = Resolved(minLevel: real, maxLevel: real, alertEnabled: bool, chatId: Option<string>)

  /** The configuration in force for a device that has no row. */
  const Defaults: Resolved := Resolved(DefaultMin, DefaultMax, true, None)

  /** The row inserted for a device seen for the first time. */
  const DefaultRow: ConfigRow := ConfigRow(Some(DefaultMin), Some(DefaultMax), Some(true), None)

  /** The stored row of a device, if any. */
  function RowOf(configs: map<string, ConfigRow>, deviceId: string): Option<ConfigRow>
  {
    if deviceId in configs then Some(configs[deviceId]) else None
  }

  /**
    Default substitution: each of min, max and enabled is the stored value
    when the column is not NULL and the system default otherwise; the
    notification target has no default.
  */
  function Resolve(row: Option<ConfigRow>): (c: Resolved)
    ensures row.None? ==> c == Defaults
    ensures row.Some? && row.value.minLevel.Some? ==> c.minLevel == row.value.minLevel.value
    ensures row.Some? && row.value.maxLevel.Some? ==> c.maxLevel == row.value.maxLevel.value
    ensures row.Some? && row.value.alertEnabled.Some? ==> c.alertEnabled == row.value.alertEnabled.value
    ensures row.Some? && row.value.minLevel.None? ==> c.minLevel == DefaultMin
    ensures row.Some? && row.value.maxLevel.None? ==> c.maxLevel == DefaultMax
    ensures row.Some? && row.value.alertEnabled.None? ==> c.alertEnabled
    ensures row.Some? ==> c.chatId == row.value.chatId
  {
    match row
    case None => Defaults
    case Some(r) =>
      Resolved(r.minLevel.GetOr(DefaultMin), r.maxLevel.GetOr(DefaultMax), r.alertEnabled.GetOr(true), r.chatId)
  }

  /** Creating the default row does not change the configuration in force: resolve-or-create is idempotent. */
  lemma DefaultRowResolvesToDefaults()
    ensures Resolve(Some(DefaultRow)) == Resolve(None)
  {
  }

  /** Insert the default row when the device has none; an existing row is left as it is. */
  function EnsureConfig(configs: map<string, ConfigRow>, deviceId: string): (ensured: map<string, ConfigRow>)
    ensures ensured.Keys == configs.Keys + {deviceId}
    ensures forall k :: k in configs ==> ensured[k] == configs[k]
    ensures deviceId !in configs ==> ensured[deviceId] == DefaultRow
    ensures Resolve(RowOf(ensured, deviceId)) == Resolve(RowOf(configs, deviceId))
  {
    if deviceId in configs then configs else configs[deviceId := DefaultRow]
  }

  /**
    `deviceChatId || defaultChatId`: the device's own target unless it is
    NULL or empty, then the system default unless that is empty too.
  */
  function Target(deviceChatId: Option<string>, defaultChatId: string): (target: Option<string>)
    ensures target.Some? ==> target.value != ""
    ensures target.None? <==> (deviceChatId.None? || deviceChatId.value == "") && defaultChatId == ""
    ensures deviceChatId.Some? && deviceChatId.value != "" ==> target == deviceChatId
    ensures (deviceChatId.None? || deviceChatId.value == "") && defaultChatId != "" ==> target == Some(defaultChatId)
  {
    if deviceChatId.Some? && deviceChatId.value != "" then deviceChatId
    else if defaultChatId != "" then Some(defaultChatId)
    else None
  }
}
