/**
  The Telegram message of an alert: a header chosen by severity, the
  device, the current level, the configured band and an action hint,
  with empty lines dropped and the rest joined by newlines.
*/
module AlertText {
  import opened Common
  import opened Text
  import opened Thresholds

  const HighHeader: string := "🚨 CẢNH BÁO MỰC NƯỚC CAO 🚨"
  const LowHeader: string := "⚠️ Cảnh báo mực nước thấp"
  const HighHint: string := "\n➡️ Vui lòng kiểm tra ngay khu vực xung quanh, có nguy cơ tràn/ngập."
  const LowHint: string := "\n➡️ Vui lòng kiểm tra nguồn nước, xem có cần bơm thêm hoặc xử lý sự cố thiếu nước."

  /** Shown in place of the level when the device sent no percentage. */
  const UnknownLevel: string := "không rõ"

  /** Header line by severity; empty for a status that raises no alert. */
  function Header(status: string): string
  {
    if status == High then HighHeader
    else if status == Low then LowHeader
    else ""
  }

  /** Action hint by severity; it starts with a newline of its own. */
  function ActionHint(status: string): string
  {
    if status == High then HighHint
    else if status == Low then LowHint
    else ""
  }

  function DeviceLine(deviceName: string, deviceId: string): string
  {
    "📍 Thiết bị: " + deviceName + " (" + deviceId + ")"
  }

  function LevelLine(levelText: string): string
  {
    "💧 Mực nước hiện tại: " + levelText
  }

  function ThresholdLine(minText: string, maxText: string): string
  {
    "📊 Ngưỡng cài đặt: min = " + minText + "% · max = " + maxText + "%"
  }

  /**
    The current level as shown: the percentage formatted by `fixed1`
    (one decimal, then a percent sign) or the "unknown" placeholder.
  */
  function LevelText(percent: Option<real>, fixed1: real -> string): (text: string)
    ensures percent.None? ==> text == UnknownLevel
    ensures percent.Some? ==> text == fixed1(percent.value) + "%"
  {
    match percent
    case Some(p) => fixed1(p) + "%"
    case None => UnknownLevel
  }

  /** The candidate lines, in order, before empty ones are dropped. */
  function Lines(status: string, deviceName: string, deviceId: string, levelText: string, minText: string, maxText: string): seq<string>
  {
    [Header(status), "", DeviceLine(deviceName, deviceId), LevelLine(levelText), ThresholdLine(minText, maxText), ActionHint(status)]
  }

  function Message(status: string, deviceName: string, deviceId: string, levelText: string, minText: string, maxText: string): string
  {
    Join(DropEmpty(Lines(status, deviceName, deviceId, levelText, minText, maxText)), '\n')
  }

  /** The lines of an alert message once the empty placeholder is gone. */
  function AlertLines(status: string, deviceName: string, deviceId: string, levelText: string, minText: string, maxText: string): seq<string>
  {
    [Header(status), DeviceLine(deviceName, deviceId), LevelLine(levelText), ThresholdLine(minText, maxText), ActionHint(status)]
  }

  /**
    For a crossing status every computed line is non-empty and the blank
    placeholder is dropped like any other empty line, so the message is
    exactly the five computed lines joined by newlines.
  */
  lemma MessageLayout(status: string, deviceName: string, deviceId: string, levelText: string, minText: string, maxText: string)
    requires IsCrossing(status)
    ensures Message(status, deviceName, deviceId, levelText, minText, maxText)
         == Join(AlertLines(status, deviceName, deviceId, levelText, minText, maxText), '\n')
  {
    var lines := Lines(status, deviceName, deviceId, levelText, minText, maxText);
    var kept := AlertLines(status, deviceName, deviceId, levelText, minText, maxText);
    assert |Header(status)| > 0 && |ActionHint(status)| > 0;
    assert |DeviceLine(deviceName, deviceId)| > 0 && |LevelLine(levelText)| > 0 && |ThresholdLine(minText, maxText)| > 0;
    assert lines[1..][1..] == kept[1..];
    assert DropEmpty(lines) == kept;
  }

  /** An alert message names the device by display name and by identifier. */
  lemma MessageNamesDevice(status: string, deviceName: string, deviceId: string, levelText: string, minText: string, maxText: string)
    requires IsCrossing(status)
    ensures Contains(Message(status, deviceName, deviceId, levelText, minText, maxText), deviceName)
    ensures Contains(Message(status, deviceName, deviceId, levelText, minText, maxText), deviceId)
  {
    MessageLayout(status, deviceName, deviceId, levelText, minText, maxText);
    var m := Message(status, deviceName, deviceId, levelText, minText, maxText);
    var kept := AlertLines(status, deviceName, deviceId, levelText, minText, maxText);
    var line := DeviceLine(deviceName, deviceId);
    JoinContainsEach(kept, '\n', 1);
    assert Contains(m, line);
    DeviceLineNames(deviceName, deviceId);
    ContainsTransitive(m, line, deviceName);
    ContainsTransitive(m, line, deviceId);
  }

  /** An alert message shows the current level, formatted or as the "unknown" placeholder. */
  lemma MessageShowsLevel(status: string, deviceName: string, deviceId: string, levelText: string, minText: string, maxText: string)
    requires IsCrossing(status)
    ensures Contains(Message(status, deviceName, deviceId, levelText, minText, maxText), levelText)
  {
    MessageLayout(status, deviceName, deviceId, levelText, minText, maxText);
    var m := Message(status, deviceName, deviceId, levelText, minText, maxText);
    var kept := AlertLines(status, deviceName, deviceId, levelText, minText, maxText);
    JoinContainsEach(kept, '\n', 2);
    var line := LevelLine(levelText);
    ContainsMiddle("💧 Mực nước hiện tại: ", levelText, "");
    assert "💧 Mực nước hiện tại: " + levelText + "" == line;
    ContainsTransitive(m, line, levelText);
  }

  /** The device line shows both the name and the id. */
  lemma DeviceLineNames(deviceName: string, deviceId: string)
    ensures Contains(DeviceLine(deviceName, deviceId), deviceName)
    ensures Contains(DeviceLine(deviceName, deviceId), deviceId)
  {
    var line := DeviceLine(deviceName, deviceId);
    var prefix := line[..|line| - |deviceName| - |deviceId| - 3];
    assert line == prefix + deviceName + (" (" + deviceId + ")");
    ContainsMiddle(prefix, deviceName, " (" + deviceId + ")");
    assert line == (prefix + deviceName + " (") + deviceId + ")";
    ContainsMiddle(prefix + deviceName + " (", deviceId, ")");
  }

}
