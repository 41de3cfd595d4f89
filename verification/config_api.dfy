/**
  The configuration endpoints of the dashboard:
  `GET /api/devices/:deviceId/config` reads the configuration in force with
  default substitution, and `PUT /api/devices/:deviceId/config` merges the
  request into it field by field and upserts the row.
*/
module ConfigApi {
  import opened Common
  import opened Store
  import opened Thresholds
  import opened Integrity


  /** The configuration as the dashboard sees it; `isDefault` says no row is stored yet. */
  datatype ConfigView = ConfigView(
    deviceId: string,
    minLevel: real,
    maxLevel: real,
    alertEnabled: bool,
    chatId: Option<string>,
    isDefault: bool)

  /** `telegram_chat_id || null`: a stored empty chat id reads as null. */
  function ChatIdView(chatId: Option<string>): (view: Option<string>)
    ensures view.Some? ==> view.value != "" && view == chatId
    ensures chatId.Some? && chatId.value != "" ==> view == chatId
  {
    if chatId.Some? && chatId.value != "" then chatId else None
  }

  /**
    Read the configuration in force. Without a stored row the defaults are
    reported with `isDefault`; otherwise NULL thresholds and flag are
    replaced by the defaults. Nothing is written.
  */
  function GetConfig(s: Store, deviceId: string, fault: Option<string>): (r: Reply<ConfigView>)
    ensures fault.Some? ==> r == Fail(InternalStatus, ErrorCode(fault.value, InternalError))
    ensures fault.None? ==> r.Ok? && r.data.deviceId == deviceId
    ensures fault.None? ==> (r.data.isDefault <==> deviceId !in s.configs)
    ensures fault.None? && deviceId !in s.configs ==> r.data == ConfigView(deviceId, DefaultMin, DefaultMax, true, None, true)
    ensures fault.None? && deviceId in s.configs ==>
      var row := s.configs[deviceId];
      && r.data.minLevel == row.minLevel.GetOr(DefaultMin)
      && r.data.maxLevel == row.maxLevel.GetOr(DefaultMax)
      && r.data.alertEnabled == row.alertEnabled.GetOr(true)
      && (r.data.chatId.None? <==> row.chatId.None? || row.chatId.value == "")
      && (r.data.chatId.Some? ==> r.data.chatId == row.chatId)
  {
    if fault.Some? then Fail(InternalStatus, ErrorCode(fault.value, InternalError))
    else if deviceId !in s.configs then Ok(ConfigView(deviceId, DefaultMin, DefaultMax, true, None, true))
    else
      var c := Resolve(Some(s.configs[deviceId]));
      Ok(ConfigView(deviceId, c.minLevel, c.maxLevel, c.alertEnabled, ChatIdView(c.chatId), false))
  }

  /** The chat id of the request body: the key left out, or given (possibly as null). */
  datatype ChatIdField = Omitted | Given(value: Option<string>)

  /** The request body; a threshold that is not a number, or a flag that is not a boolean, is None. */
  datatype ConfigRequest = ConfigRequest(
    minLevel: Option<real>,
    maxLevel: Option<real>,
    alertEnabled: Option<bool>,
    chatId: ChatIdField)

  /** The values written and echoed back. */
  datatype ConfigValues = ConfigValues(
    deviceId: string,
    minLevel: real,
    maxLevel: real,
    alertEnabled: bool,
    chatId: Option<string>)

  datatype Update = Update(reply: Reply<ConfigValues>, store: Store)

  /**
    The row to write: for each threshold and the flag, a well-typed request
    value wins, else the stored non-NULL value, else the default; the chat
    id is kept from the stored row only when the request leaves it out.
  */
  function Merge(req: ConfigRequest, stored: Option<ConfigRow>): (row: ConfigRow)
    ensures row.minLevel.Some? && row.maxLevel.Some? && row.alertEnabled.Some?
    ensures req.minLevel.Some? ==> row.minLevel == req.minLevel
    ensures req.maxLevel.Some? ==> row.maxLevel == req.maxLevel
    ensures req.alertEnabled.Some? ==> row.alertEnabled == req.alertEnabled
    ensures req.minLevel.None? && stored.Some? && stored.value.minLevel.Some? ==> row.minLevel == stored.value.minLevel
    ensures req.maxLevel.None? && stored.Some? && stored.value.maxLevel.Some? ==> row.maxLevel == stored.value.maxLevel
    ensures req.alertEnabled.None? && stored.Some? && stored.value.alertEnabled.Some? ==> row.alertEnabled == stored.value.alertEnabled
    ensures req.minLevel.None? && (stored.None? || stored.value.minLevel.None?) ==> row.minLevel == Some(DefaultMin)
    ensures req.maxLevel.None? && (stored.None? || stored.value.maxLevel.None?) ==> row.maxLevel == Some(DefaultMax)
    ensures req.alertEnabled.None? && (stored.None? || stored.value.alertEnabled.None?) ==> row.alertEnabled == Some(true)
    ensures req.chatId.Given? ==> row.chatId == req.chatId.value
    ensures req.chatId.Omitted? && stored.Some? ==> row.chatId == stored.value.chatId
    ensures req.chatId.Omitted? && stored.None? ==> row.chatId.None?
  {
    var base := Resolve(stored);
    ConfigRow(
      if req.minLevel.Some? then req.minLevel else Some(base.minLevel),
      if req.maxLevel.Some? then req.maxLevel else Some(base.maxLevel),
      if req.alertEnabled.Some? then req.alertEnabled else Some(base.alertEnabled),
      match req.chatId
      case Given(c) => c
      case Omitted => base.chatId)
  }

  /** The statements the upsert runs: a device insert only for an unseen device, then an UPDATE of the stored row or an INSERT of a new one. */
  function UpdateExecuted(s: Store, deviceId: string): (executed: set<Step>)
    ensures {Connect, Begin, SelectDevice, SelectConfig, Commit} <= executed
    ensures InsertDevice in executed <==> deviceId !in s.devices
    ensures UpdateConfigRow in executed <==> deviceId in s.configs
    ensures InsertConfig in executed <==> deviceId !in s.configs
    ensures InsertReading !in executed && InsertAlert !in executed
  {
    {Connect, Begin, SelectDevice, SelectConfig, Commit}
    + (if deviceId in s.devices then {} else {InsertDevice})
    + (if deviceId in s.configs then {UpdateConfigRow} else {InsertConfig})
  }

  /**
    The upsert: ensure the device, merge with the stored row, then UPDATE it
    when it exists or INSERT it otherwise, all in one transaction.
  */
  function UpdateConfig(s: Store, deviceId: string, req: ConfigRequest, fault: Option<Fault>): (u: Update)
    ensures u.reply.Fail? ==> u.store == s && u.reply.status == InternalStatus
    ensures u.reply.Fail? <==> Strikes(fault, UpdateExecuted(s, deviceId))
    ensures u.reply.Fail? ==> u.reply.code == ErrorCode(fault.value.message, InternalError)
    ensures fault.None? ==> u.reply.Ok?
    ensures u.reply.Ok? ==> u.reply.data.deviceId == deviceId
    ensures u.store.readings == s.readings && u.store.alerts == s.alerts
    ensures u.reply.Ok? ==>
      var merged := Merge(req, RowOf(s.configs, deviceId));
      && u.store == s.(devices := EnsureDevice(s.devices, deviceId), configs := s.configs[deviceId := merged])
      && u.reply.data == ConfigValues(deviceId, merged.minLevel.value, merged.maxLevel.value, merged.alertEnabled.value, merged.chatId)
  {
    var row := RowOf(s.configs, deviceId);
    if Strikes(fault, UpdateExecuted(s, deviceId)) then
      Update(Fail(InternalStatus, ErrorCode(fault.value.message, InternalError)), s)
    else
      var merged := Merge(req, row);
      Update(
        Ok(ConfigValues(deviceId, merged.minLevel.value, merged.maxLevel.value, merged.alertEnabled.value, merged.chatId)),
        s.(devices := EnsureDevice(s.devices, deviceId), configs := s.configs[deviceId := merged]))
  }

  /** A successful update leaves exactly one row for the device, ensures the device, and touches no other device or row. */
  lemma UpdateWritesOneRow(s: Store, deviceId: string, req: ConfigRequest, fault: Option<Fault>)
    requires UpdateConfig(s, deviceId, req, fault).reply.Ok?
    ensures var u := UpdateConfig(s, deviceId, req, fault);
      && u.store.configs.Keys == s.configs.Keys + {deviceId}
      && (forall k :: k in s.configs && k != deviceId ==> u.store.configs[k] == s.configs[k])
      && u.store.devices.Keys == s.devices.Keys + {deviceId}
      && (forall k :: k in s.devices ==> u.store.devices[k] == s.devices[k])
      && (deviceId !in s.devices ==> u.store.devices[deviceId] == Device(DefaultName(deviceId), ""))
  {
  }

  /** Reading the configuration back after an update returns what the update reported, apart from a blank chat id reading as null. */
  lemma UpdateThenGet(s: Store, deviceId: string, req: ConfigRequest, fault: Option<Fault>)
    requires UpdateConfig(s, deviceId, req, fault).reply.Ok?
    ensures var v := UpdateConfig(s, deviceId, req, fault).reply.data;
      GetConfig(UpdateConfig(s, deviceId, req, fault).store, deviceId, None)
      == Ok(ConfigView(deviceId, v.minLevel, v.maxLevel, v.alertEnabled, ChatIdView(v.chatId), false))
  {
  }

  /** Repeating an update changes nothing more: the upsert is idempotent. */
  lemma UpdateIdempotent(s: Store, deviceId: string, req: ConfigRequest)
    ensures var once := UpdateConfig(s, deviceId, req, None);
      UpdateConfig(once.store, deviceId, req, None) == once
  {
    var merged := Merge(req, RowOf(s.configs, deviceId));
    var once := UpdateConfig(s, deviceId, req, None);
    assert once.store == s.(devices := EnsureDevice(s.devices, deviceId), configs := s.configs[deviceId := merged]);
    assert RowOf(once.store.configs, deviceId) == Some(merged);
    MergeAgain(req, RowOf(s.configs, deviceId));
    assert EnsureDevice(once.store.devices, deviceId) == once.store.devices;
    assert once.store.configs[deviceId := merged] == once.store.configs;
  }

  /** Merging the same request into the row it produced gives that row back. */
  lemma MergeAgain(req: ConfigRequest, stored: Option<ConfigRow>)
    ensures Merge(req, Some(Merge(req, stored))) == Merge(req, stored)
  {
  }

  /** An update that sends no field changes none of the values the dashboard reads; only `isDefault` becomes false. */
  lemma EmptyUpdateKeepsView(s: Store, deviceId: string)
    ensures var u := UpdateConfig(s, deviceId, ConfigRequest(None, None, None, Omitted), None);
      GetConfig(u.store, deviceId, None) == Ok(GetConfig(s, deviceId, None).data.(isDefault := false))
  {
  }

  /** Ingestion and the dashboard agree on the thresholds in force for a device. */
  lemma GetConfigAgreesWithResolve(s: Store, deviceId: string)
    ensures var c := Resolve(RowOf(s.configs, deviceId));
      var view := GetConfig(s, deviceId, None).data;
      && view.minLevel == c.minLevel && view.maxLevel == c.maxLevel && view.alertEnabled == c.alertEnabled
      && view.chatId == ChatIdView(c.chatId)
  {
  }

  /** An update keeps a valid store valid. */
  lemma UpdateKeepsValid(s: Store, deviceId: string, req: ConfigRequest, fault: Option<Fault>)
    requires Valid(s)
    ensures Valid(UpdateConfig(s, deviceId, req, fault).store)
  {
  }
}
