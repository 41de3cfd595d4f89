/**
  The ingestion coordinator (`POST /api/iot/water-level`): validation,
  one transaction that ensures the device and its configuration, classifies
  the level and appends the reading and any alert, then a best-effort
  notification after the commit.
*/
module Ingest {
  import opened Common
  import opened Text
  import opened Store
  import opened Thresholds
  import opened AlertText
  import opened Integrity

  /** The request body; a field that is absent, or not of its declared JSON type, is None. */
  datatype Payload = Payload(
    deviceId: Option<string>,
    levelCm: Option<real>,
    levelPercent: Option<real>,
    status: Option<string>,
    timestamp: Option<int>,
    secretKey: Option<string>)

  /**
    What the handler reads from its surroundings: the shared secret and
    the default chat id ("" when not configured), the clock, and the
    number formatting used in the alert text (`toFixed(1)` and the plain
    number-to-string conversion).
  */
  datatype Env = Env(
    secret: string,
    defaultChatId: string,
    now: int,
    fixed1: real -> string,
    numberText: real -> string)

  /** Outcome of the post-commit notification: the message was sent and the flag update went through, or either failed. */
  datatype SendResult = Delivered | SendFailed

  /** One call of the messaging collaborator. */
  datatype Notice = Notice(chatId: string, text: string)

  datatype DeviceView = DeviceView(deviceId: string, name: string)

  /** The success payload: the inserted reading, the device and the configuration in force. */
  datatype IngestData = IngestData(reading: Reading, device: DeviceView, config: Resolved)

  /** The reply, the store after the request, and the notification attempted, if any. */
  datatype Outcome = Outcome(reply: Reply<IngestData>, store: Store, notice: Option<Notice>)

  /** The alert to notify once the transaction has committed. */
  datatype Pending = Pending(alertId: nat, notice: Notice)

  /** What the transaction would commit, the statements it executes, and the alert left to notify. */
  datatype Plan = Plan(store: Store, data: IngestData, executed: set<Step>, pending: Option<Pending>)

  const DeviceIdRequired: string := "DEVICE_ID_REQUIRED"
  const InvalidSecretKey: string := "INVALID_SECRET_KEY"
  const IotError: string := "IOT_ERROR"

  /** `device_id` is truthy: present and not the empty string. */
  predicate HasDeviceId(p: Payload)
  {
    p.deviceId.Some? && p.deviceId.value != ""
  }

  /** No secret is configured, or the submitted one matches it exactly. */
  predicate SecretAccepted(p: Payload, env: Env)
  {
    env.secret == "" || p.secretKey == Some(env.secret)
  }

  /** The status the request's reading is stored with. */
  function StatusFor(s: Store, deviceId: string, p: Payload): string
  {
    var cfg := Resolve(RowOf(s.configs, deviceId));
    Classify(p.levelPercent, p.status, cfg.minLevel, cfg.maxLevel)
  }

  /** The text of the alert raised for the request. */
  function AlertTextFor(s: Store, deviceId: string, p: Payload, env: Env): string
  {
    var name := EnsureDevice(s.devices, deviceId)[deviceId].name;
    var cfg := Resolve(RowOf(s.configs, deviceId));
    Message(StatusFor(s, deviceId, p), name, deviceId, LevelText(p.levelPercent, env.fixed1),
            env.numberText(cfg.minLevel), env.numberText(cfg.maxLevel))
  }

  /** The statements the transaction runs: the inserts for an unseen device, a missing configuration and a crossing level come on top of the fixed ones. */
  function Executed(s: Store, deviceId: string, p: Payload): (executed: set<Step>)
    ensures {Connect, Begin, SelectDevice, SelectConfig, InsertReading, Commit} <= executed
    ensures InsertDevice in executed <==> deviceId !in s.devices
    ensures InsertConfig in executed <==> deviceId !in s.configs
    ensures InsertAlert in executed <==> IsCrossing(StatusFor(s, deviceId, p))
    ensures UpdateConfigRow !in executed
  {
    {Connect, Begin, SelectDevice, SelectConfig, InsertReading, Commit}
    + (if deviceId in s.devices then {} else {InsertDevice})
    + (if deviceId in s.configs then {} else {InsertConfig})
    + (if IsCrossing(StatusFor(s, deviceId, p)) then {InsertAlert} else {})
  }

  /** The request passes validation and no statement the transaction runs fails, so it commits. */
  predicate Commits(s: Store, p: Payload, env: Env, fault: Option<Fault>)
  {
    HasDeviceId(p) && SecretAccepted(p, env) && !Strikes(fault, Executed(s, p.deviceId.value, p))
  }

  /** The transaction body, as it commits when no statement fails. */
  function Transaction(s: Store, deviceId: string, p: Payload, env: Env): Plan
  {
    var devices := EnsureDevice(s.devices, deviceId);
    var name := devices[deviceId].name;
    var row := RowOf(s.configs, deviceId);
    var cfg := Resolve(row);
    var status := StatusFor(s, deviceId, p);
    var createdAt := p.timestamp.GetOr(env.now);
    var reading := Reading(NextId(|s.readings|), deviceId, p.levelCm, p.levelPercent, status, createdAt);
    var alertId := NextId(|s.alerts|);
    var text := AlertTextFor(s, deviceId, p, env);
    var alerts :=
      if IsCrossing(status) then s.alerts + [Alert(alertId, deviceId, reading.id, KindOf(status), text, false, createdAt)]
      else s.alerts;
    var target := Target(cfg.chatId, env.defaultChatId);
    Plan(
      Store(devices, EnsureConfig(s.configs, deviceId), s.readings + [reading], alerts),
      IngestData(reading, DeviceView(deviceId, name), cfg),
      Executed(s, deviceId, p),
      if IsCrossing(status) && target.Some? then Some(Pending(alertId, Notice(target.value, text))) else None)
  }

  /** `UPDATE alerts SET sent_to_telegram = true WHERE id = alertId`. */
  function MarkSent(alerts: seq<Alert>, alertId: nat): (marked: seq<Alert>)
    ensures |marked| == |alerts|
    ensures forall i :: 0 <= i < |alerts| && alerts[i].id != alertId ==> marked[i] == alerts[i]
    ensures forall i :: 0 <= i < |alerts| && alerts[i].id == alertId ==> marked[i] == alerts[i].(sent := true)
  {
    seq(|alerts|, i requires 0 <= i < |alerts| => if alerts[i].id == alertId then alerts[i].(sent := true) else alerts[i])
  }

  /** Marking the alert just appended, whose id no earlier alert carries, touches only that alert. */
  lemma MarkSentLast(alerts: seq<Alert>, added: Alert)
    requires forall i :: 0 <= i < |alerts| ==> alerts[i].id != added.id
    ensures MarkSent(alerts + [added], added.id) == alerts + [added.(sent := true)]
  {
    var marked := MarkSent(alerts + [added], added.id);
    assert forall i :: 0 <= i < |alerts| ==> marked[i] == (alerts + [added])[i] == alerts[i];
  }

  /** The handler: reject, roll back, or commit and then try to notify. */
  function HandleWaterLevel(s: Store, p: Payload, env: Env, fault: Option<Fault>, send: SendResult): (o: Outcome)
    ensures o.reply.Fail? ==> o.store == s && o.notice.None?
    ensures o.reply.Fail? ==> o.reply.status == 400 || o.reply.status == 403 || o.reply.status == InternalStatus
    ensures o.reply.Ok? <==> Commits(s, p, env, fault)
    ensures fault.None? && HasDeviceId(p) && SecretAccepted(p, env) ==> o.reply.Ok?
    ensures o.reply.Ok? ==> |o.store.readings| == |s.readings| + 1 && o.store.readings[|s.readings|] == o.reply.data.reading
  {
    if !HasDeviceId(p) then
      Outcome(Fail(400, DeviceIdRequired), s, None)
    else if !SecretAccepted(p, env) then
      Outcome(Fail(403, InvalidSecretKey), s, None)
    else
      var plan := Transaction(s, p.deviceId.value, p, env);
      if Strikes(fault, plan.executed) then
        Outcome(Fail(InternalStatus, ErrorCode(fault.value.message, IotError)), s, None)
      else
        match plan.pending
        case None => Outcome(Ok(plan.data), plan.store, None)
        case Some(pending) =>
          var committed := plan.store;
          var store := if send == Delivered then committed.(alerts := MarkSent(committed.alerts, pending.alertId)) else committed;
          Outcome(Ok(plan.data), store, Some(pending.notice))
  }

  /** The committed outcome, spelled out from the plan: what the handler's later lemmas reason from. */
  lemma CommittedShape(s: Store, p: Payload, env: Env, fault: Option<Fault>, send: SendResult)
    requires Commits(s, p, env, fault)
    ensures var o := HandleWaterLevel(s, p, env, fault, send);
      var plan := Transaction(s, p.deviceId.value, p, env);
      && HasDeviceId(p)
      && o.reply.data == plan.data
      && o.notice == (if plan.pending.Some? then Some(plan.pending.value.notice) else None)
      && o.store.readings == plan.store.readings
      && o.store.alerts == (if plan.pending.Some? && send == Delivered
                            then MarkSent(plan.store.alerts, plan.pending.value.alertId)
                            else plan.store.alerts)
  {
  }

  /** The alert list the transaction commits: the old alerts, then the new one for a crossing. */
  lemma PlannedAlerts(s: Store, deviceId: string, p: Payload, env: Env)
    ensures var plan := Transaction(s, deviceId, p, env);
      var status := StatusFor(s, deviceId, p);
      && plan.data.reading.status == status
      && plan.store.alerts
         == s.alerts + (if IsCrossing(status)
                        then [Alert(|s.alerts| + 1, deviceId, plan.data.reading.id, KindOf(status), AlertTextFor(s, deviceId, p, env), false, plan.data.reading.createdAt)]
                        else [])
      && (plan.pending.Some? ==> IsCrossing(status) && plan.pending.value.alertId == |s.alerts| + 1)
  {
  }

  // ---------------------------------------------------------------------
  // Validation and atomicity
  // ---------------------------------------------------------------------

  /** A missing or empty device id is refused with 400 before anything is read or written. */
  lemma MissingDeviceIdRejected(s: Store, p: Payload, env: Env, fault: Option<Fault>, send: SendResult)
    requires !HasDeviceId(p)
    ensures HandleWaterLevel(s, p, env, fault, send) == Outcome(Fail(400, DeviceIdRequired), s, None)
  {
  }

  /** With a secret configured, any other submitted key is refused with 403 and nothing is written. */
  lemma WrongSecretRejected(s: Store, p: Payload, env: Env, fault: Option<Fault>, send: SendResult)
    requires HasDeviceId(p)
    requires env.secret != "" && p.secretKey != Some(env.secret)
    ensures HandleWaterLevel(s, p, env, fault, send) == Outcome(Fail(403, InvalidSecretKey), s, None)
  {
  }

  /** Without a configured secret the submitted key, present or not, makes no difference. */
  lemma NoSecretIgnoresKey(s: Store, p: Payload, key: Option<string>, env: Env, fault: Option<Fault>, send: SendResult)
    requires env.secret == ""
    ensures HandleWaterLevel(s, p, env, fault, send) == HandleWaterLevel(s, p.(secretKey := key), env, fault, send)
    ensures HandleWaterLevel(s, p, env, fault, send).reply != Fail(403, InvalidSecretKey)
  {
  }

  /**
    A storage error in any statement the transaction executes rolls the
    whole request back: 500 with the error's message, the store as it was
    and no notification.
  */
  lemma StorageFaultRollsBack(s: Store, p: Payload, env: Env, fault: Option<Fault>, send: SendResult)
    requires HasDeviceId(p) && SecretAccepted(p, env)
    requires Strikes(fault, Executed(s, p.deviceId.value, p))
    ensures HandleWaterLevel(s, p, env, fault, send)
         == Outcome(Fail(InternalStatus, ErrorCode(fault.value.message, IotError)), s, None)
  {
  }

  // ---------------------------------------------------------------------
  // What a successful request writes
  // ---------------------------------------------------------------------

  /** The device exists afterwards; an unseen one is created as "Device <id>", a known one is untouched and named as stored. */
  lemma DeviceEnsured(s: Store, p: Payload, env: Env, fault: Option<Fault>, send: SendResult)
    requires Commits(s, p, env, fault)
    ensures var o := HandleWaterLevel(s, p, env, fault, send);
      var id := p.deviceId.value;
      && o.store.devices.Keys == s.devices.Keys + {id}
      && (forall k :: k in s.devices ==> o.store.devices[k] == s.devices[k])
      && (id !in s.devices ==> o.store.devices[id] == Device(DefaultName(id), ""))
      && o.reply.data.device == DeviceView(id, o.store.devices[id].name)
  {
  }

  /** A missing configuration row is created with the defaults; an existing one is untouched; the reply carries the configuration in force. */
  lemma ConfigEnsured(s: Store, p: Payload, env: Env, fault: Option<Fault>, send: SendResult)
    requires Commits(s, p, env, fault)
    ensures var o := HandleWaterLevel(s, p, env, fault, send);
      var id := p.deviceId.value;
      && o.store.configs.Keys == s.configs.Keys + {id}
      && (forall k :: k in s.configs ==> o.store.configs[k] == s.configs[k])
      && (id !in s.configs ==> o.store.configs[id] == DefaultRow)
      && o.reply.data.config == Resolve(RowOf(s.configs, id))
  {
  }

  /** Exactly one reading is appended: the submitted levels, the classified status, and the submitted time or now. */
  lemma ReadingAppended(s: Store, p: Payload, env: Env, fault: Option<Fault>, send: SendResult)
    requires Commits(s, p, env, fault)
    ensures var o := HandleWaterLevel(s, p, env, fault, send);
      var id := p.deviceId.value;
      var cfg := o.reply.data.config;
      && o.store.readings == s.readings + [o.reply.data.reading]
      && o.reply.data.reading == Reading(|s.readings| + 1, id, p.levelCm, p.levelPercent,
                                         Classify(p.levelPercent, p.status, cfg.minLevel, cfg.maxLevel),
                                         p.timestamp.GetOr(env.now))
  {
  }

  /**
    An alert is appended exactly when the status is LOW or HIGH, whatever
    the alert-enabled flag says. It references the new reading, has the
    kind of the status and the rendered text, and is marked sent only when
    a notification was delivered; earlier alerts are untouched.
  */
  lemma AlertRecorded(s: Store, p: Payload, env: Env, fault: Option<Fault>, send: SendResult)
    requires forall i :: 0 <= i < |s.alerts| ==> s.alerts[i].id == i + 1
    requires Commits(s, p, env, fault)
    ensures var o := HandleWaterLevel(s, p, env, fault, send);
      var id := p.deviceId.value;
      var reading := o.reply.data.reading;
      && |o.store.alerts| == |s.alerts| + (if IsCrossing(reading.status) then 1 else 0)
      && o.store.alerts[..|s.alerts|] == s.alerts
      && (IsCrossing(reading.status) ==>
            o.store.alerts[|s.alerts|]
            == Alert(|s.alerts| + 1, id, reading.id, KindOf(reading.status), AlertTextFor(s, id, p, env),
                     o.notice.Some? && send == Delivered, reading.createdAt))
  {
    var o := HandleWaterLevel(s, p, env, fault, send);
    var plan := Transaction(s, p.deviceId.value, p, env);
    CommittedShape(s, p, env, fault, send);
    PlannedAlerts(s, p.deviceId.value, p, env);
    var committed := plan.store.alerts;
    if plan.pending.Some? && send == Delivered {
      var added := committed[|s.alerts|];
      assert committed == s.alerts + [added];
      MarkSentLast(s.alerts, added);
    }
  }

  /** The text of a raised alert names the device by display name and by identifier. */
  lemma AlertTextNamesDevice(s: Store, p: Payload, env: Env)
    requires HasDeviceId(p)
    requires IsCrossing(StatusFor(s, p.deviceId.value, p))
    ensures var id := p.deviceId.value;
      && Contains(AlertTextFor(s, id, p, env), EnsureDevice(s.devices, id)[id].name)
      && Contains(AlertTextFor(s, id, p, env), id)
      && Contains(AlertTextFor(s, id, p, env), LevelText(p.levelPercent, env.fixed1))
  {
    var id := p.deviceId.value;
    var cfg := Resolve(RowOf(s.configs, id));
    MessageNamesDevice(StatusFor(s, id, p), EnsureDevice(s.devices, id)[id].name, id,
                       LevelText(p.levelPercent, env.fixed1), env.numberText(cfg.minLevel), env.numberText(cfg.maxLevel));
    MessageShowsLevel(StatusFor(s, id, p), EnsureDevice(s.devices, id)[id].name, id,
                      LevelText(p.levelPercent, env.fixed1), env.numberText(cfg.minLevel), env.numberText(cfg.maxLevel));
  }

  /** The alert-enabled flag is stored and reported but never decides whether an alert is recorded or sent. */
  lemma AlertIgnoresEnabledFlag(s: Store, p: Payload, env: Env, fault: Option<Fault>, send: SendResult, enabled: Option<bool>)
    requires HasDeviceId(p) && p.deviceId.value in s.configs
    ensures var id := p.deviceId.value;
      var s' := s.(configs := s.configs[id := s.configs[id].(alertEnabled := enabled)]);
      && HandleWaterLevel(s', p, env, fault, send).store.alerts == HandleWaterLevel(s, p, env, fault, send).store.alerts
      && HandleWaterLevel(s', p, env, fault, send).notice == HandleWaterLevel(s, p, env, fault, send).notice
  {
    var id := p.deviceId.value;
    var s' := s.(configs := s.configs[id := s.configs[id].(alertEnabled := enabled)]);
    EnabledFlagPlan(s, id, p, env, enabled);
    if HandleWaterLevel(s, p, env, fault, send).reply.Ok? {
      CommittedShape(s, p, env, fault, send);
      CommittedShape(s', p, env, fault, send);
    }
  }

  /** The transaction's statements, alerts and pending notification do not read the enabled flag. */
  lemma EnabledFlagPlan(s: Store, id: string, p: Payload, env: Env, enabled: Option<bool>)
    requires id in s.configs
    ensures var s' := s.(configs := s.configs[id := s.configs[id].(alertEnabled := enabled)]);
      var a := Transaction(s', id, p, env);
      var b := Transaction(s, id, p, env);
      a.executed == b.executed && a.store.alerts == b.store.alerts && a.pending == b.pending
  {
    var s' := s.(configs := s.configs[id := s.configs[id].(alertEnabled := enabled)]);
    var before := Resolve(RowOf(s.configs, id));
    var after := Resolve(RowOf(s'.configs, id));
    assert after.minLevel == before.minLevel && after.maxLevel == before.maxLevel && after.chatId == before.chatId;
    assert StatusFor(s', id, p) == StatusFor(s, id, p);
    assert AlertTextFor(s', id, p, env) == AlertTextFor(s, id, p, env);
  }

  // ---------------------------------------------------------------------
  // Post-commit notification
  // ---------------------------------------------------------------------

  /**
    A notification is attempted exactly when the request succeeded with a
    crossing status and `deviceChatId || defaultChatId` is non-empty; it
    goes to that target with the alert's text.
  */
  lemma DispatchRules(s: Store, p: Payload, env: Env, fault: Option<Fault>, send: SendResult)
    ensures var o := HandleWaterLevel(s, p, env, fault, send);
      && (o.notice.Some? <==>
            o.reply.Ok? && IsCrossing(o.reply.data.reading.status)
            && Target(o.reply.data.config.chatId, env.defaultChatId).Some?)
      && (o.notice.Some? ==>
            o.notice.value == Notice(Target(o.reply.data.config.chatId, env.defaultChatId).value,
                                     AlertTextFor(s, p.deviceId.value, p, env)))
  {
  }

  /**
    The notification cannot change the reply, and a failed one leaves the
    committed store exactly as a request with no notification target does;
    a delivered one only flips the new alert's sent flag.
  */
  lemma DispatchIsolated(s: Store, p: Payload, env: Env, fault: Option<Fault>)
    requires HasDeviceId(p) && SecretAccepted(p, env)
    ensures HandleWaterLevel(s, p, env, fault, SendFailed).reply == HandleWaterLevel(s, p, env, fault, Delivered).reply
    ensures HandleWaterLevel(s, p, env, fault, SendFailed).reply.Ok? ==>
      HandleWaterLevel(s, p, env, fault, SendFailed).store == Transaction(s, p.deviceId.value, p, env).store
    ensures HandleWaterLevel(s, p, env, fault, Delivered).notice.None? ==>
      HandleWaterLevel(s, p, env, fault, Delivered).store == HandleWaterLevel(s, p, env, fault, SendFailed).store
    ensures var committed := Transaction(s, p.deviceId.value, p, env).store;
      HandleWaterLevel(s, p, env, fault, Delivered).notice.Some? ==>
      HandleWaterLevel(s, p, env, fault, Delivered).store == committed.(alerts := MarkSent(committed.alerts, |s.alerts| + 1))
  {
  }

  /** Once an alert is marked sent it stays sent, and nothing else about an existing alert ever changes. */
  lemma SentNeverReverts(s: Store, p: Payload, env: Env, fault: Option<Fault>, send: SendResult, i: nat)
    requires i < |s.alerts|
    ensures var after := HandleWaterLevel(s, p, env, fault, send).store.alerts;
      && i < |after|
      && after[i] == s.alerts[i].(sent := after[i].sent)
      && (s.alerts[i].sent ==> after[i].sent)
  {
    var o := HandleWaterLevel(s, p, env, fault, send);
    if o.reply.Ok? {
      var plan := Transaction(s, p.deviceId.value, p, env);
      CommittedShape(s, p, env, fault, send);
      PlannedAlerts(s, p.deviceId.value, p, env);
      assert plan.store.alerts[i] == s.alerts[i];
    }
  }

  /** First contact: an unseen device gains exactly one device row and one default configuration row. */
  lemma FirstContact(s: Store, p: Payload, env: Env, fault: Option<Fault>, send: SendResult)
    requires Commits(s, p, env, fault)
    requires p.deviceId.value !in s.devices && p.deviceId.value !in s.configs
    ensures var o := HandleWaterLevel(s, p, env, fault, send);
      && |o.store.devices| == |s.devices| + 1
      && |o.store.configs| == |s.configs| + 1
      && o.store.configs[p.deviceId.value] == DefaultRow
      && o.reply.data.config == Defaults
  {
  }

  // ---------------------------------------------------------------------
  // Worked scenarios
  // ---------------------------------------------------------------------

  /** A level of 15% on a device without configuration is LOW under the default band and raises a LOW_LEVEL alert. */
  lemma ScenarioLowOnDefaults(s: Store, env: Env, send: SendResult)
    requires Valid(s) && env.secret == "" && "D1" !in s.configs
    ensures var o := HandleWaterLevel(s, Payload(Some("D1"), None, Some(15.0), None, None, None), env, None, send);
      && o.reply.Ok? && o.reply.data.reading.status == Low
      && |o.store.alerts| == |s.alerts| + 1 && o.store.alerts[|s.alerts|].kind == LowLevel
  {
    AlertRecorded(s, Payload(Some("D1"), None, Some(15.0), None, None, None), env, None, send);
  }

  /** A level of 55% under the default band is NORMAL and raises no alert. */
  lemma ScenarioNormalOnDefaults(s: Store, env: Env, send: SendResult)
    requires Valid(s) && env.secret == "" && "D1" !in s.configs
    ensures var o := HandleWaterLevel(s, Payload(Some("D1"), None, Some(55.0), None, None, None), env, None, send);
      && o.reply.Ok? && o.reply.data.reading.status == Normal
      && o.store.alerts == s.alerts && o.notice.None?
  {
    AlertRecorded(s, Payload(Some("D1"), None, Some(55.0), None, None, None), env, None, send);
  }

  /** A level of 95% against a configured maximum of 90% is HIGH, raises a HIGH_LEVEL alert and notifies the resolved target. */
  lemma ScenarioHighWithTarget(s: Store, env: Env, send: SendResult)
    requires Valid(s) && env.secret == "" && "D1" in s.configs
    requires s.configs["D1"].maxLevel == Some(90.0) && s.configs["D1"].minLevel.GetOr(DefaultMin) <= 95.0
    requires Target(s.configs["D1"].chatId, env.defaultChatId).Some?
    ensures var o := HandleWaterLevel(s, Payload(Some("D1"), None, Some(95.0), None, None, None), env, None, send);
      && o.reply.Ok? && o.reply.data.reading.status == High
      && |o.store.alerts| == |s.alerts| + 1 && o.store.alerts[|s.alerts|].kind == HighLevel
      && o.notice.Some? && o.notice.value.chatId == Target(s.configs["D1"].chatId, env.defaultChatId).value
  {
    AlertRecorded(s, Payload(Some("D1"), None, Some(95.0), None, None, None), env, None, send);
  }

  /** With the shared secret "abc", the key "wrong" is refused and nothing is written. */
  lemma ScenarioWrongSecret(s: Store, env: Env, fault: Option<Fault>, send: SendResult)
    requires env.secret == "abc"
    ensures HandleWaterLevel(s, Payload(Some("D1"), None, Some(50.0), None, None, Some("wrong")), env, fault, send)
         == Outcome(Fail(403, InvalidSecretKey), s, None)
  {
  }

  // ---------------------------------------------------------------------
  // Integrity
  // ---------------------------------------------------------------------

  /** Marking an alert sent keeps the store valid. */
  lemma MarkSentKeepsValid(s: Store, alertId: nat)
    requires Valid(s)
    ensures Valid(s.(alerts := MarkSent(s.alerts, alertId)))
  {
    var s' := s.(alerts := MarkSent(s.alerts, alertId));
    assert AlertedIds(s'.alerts) == AlertedIds(s.alerts);
    assert forall i :: 0 <= i < |s.alerts| ==> AlertMatchesReading(s.readings, s.alerts[i]);
    assert forall i :: 0 <= i < |s.alerts| ==> AlertMatchesReading(s'.readings, s'.alerts[i]);
  }

  /** The committed transaction keeps the store valid. */
  lemma TransactionKeepsValid(s: Store, p: Payload, env: Env)
    requires Valid(s)
    requires HasDeviceId(p)
    ensures Valid(Transaction(s, p.deviceId.value, p, env).store)
  {
    var id := p.deviceId.value;
    var plan := Transaction(s, id, p, env);
    var r := plan.data.reading;
    if IsCrossing(r.status) {
      assert plan.store.alerts[..|s.alerts|] == s.alerts;
      assert AlertFor(plan.store.alerts[|s.alerts|], |s.alerts| + 1, r);
    }
    AppendKeepsValid(s, plan.store, r);
  }

  /** Every request, successful or not, notified or not, leaves a valid store valid. */
  lemma HandleKeepsValid(s: Store, p: Payload, env: Env, fault: Option<Fault>, send: SendResult)
    requires Valid(s)
    ensures Valid(HandleWaterLevel(s, p, env, fault, send).store)
  {
    var o := HandleWaterLevel(s, p, env, fault, send);
    if o.reply.Ok? {
      var plan := Transaction(s, p.deviceId.value, p, env);
      TransactionKeepsValid(s, p, env);
      if plan.pending.Some? && send == Delivered {
        MarkSentKeepsValid(plan.store, plan.pending.value.alertId);
      }
    }
  }
}
