/**
 * How `AutodryManager` writes its machines to disk and reads them back.
 *
 * A file is a tree of values: objects, lists, numbers, texts and nothing. The
 * machines are stored in a list, each with the number of its ACE, its settings
 * and its snapshot. On reading, a machine without an entry is a blank one, and
 * entries beyond the device count are left out.
 *
 * Writing and reading is the identity for the machines of every manager,
 * whatever they hold, and machine `i` always belongs to ACE `i`.
 */
module AutodryStore {
  import opened Wrappers
  import opened AutodryFsm

  /** The per-ACE settings. */
  datatype Settings = Settings(enabled: bool, targetPct: int, hysteresis: int,
                               defaultType: Option<string>, keepReady: bool)

  const DEFAULT_SETTINGS := Settings(false, 15, 5, None, false)

  /** What is stored of one machine. */
  datatype Machine = Machine(ace: int, config: Settings, snapshot: Snapshot)

  function DefaultMachine(ace: int): Machine {
    Machine(ace, DEFAULT_SETTINGS, BLANK)
  }

  datatype Key =
    | KSchema | KFsms | KAce | KConfig | KSnapshot
    | KEnabled | KTargetPct | KHysteresis | KDefaultType | KKeepReady
    | KState | KSince | KFault | KLastRun | KAnnouncement | KDuty | KCooldownUntil
    | KCode | KMsg | KKind | KOutcome | KStarted | KEnded | KTriggerRh | KEndRh | KTemp | KDuration | KRan

  datatype Json =
    | JNull
    | JBool(b: bool)
    | JInt(n: int)
    | JReal(x: real)
    | JStr(s: string)
    | JList(items: seq<Json>)
    | JObject(fields: map<Key, Json>)

  // ---- writing ---------------------------------------------------------------------------

  function StateName(s: State): string {
    match s
    case Idle => "IDLE"
    case Watching => "WATCHING"
    case Drying => "DRYING"
    case ObservedDrying => "OBSERVED_DRYING"
    case Cooldown => "COOLDOWN"
    case Faulted => "FAULTED"
  }

  function OrNull(s: Option<string>): Json {
    if s.Some? then JStr(s.value) else JNull
  }

  function EncodeFault(f: Option<Fault>): Json {
    if f.None? then JNull
    else JObject(map[KCode := JStr(if f.value.code == FailedLimit then "FAILED_LIMIT" else "FAILED_DELTA"),
                     KSince := JReal(f.value.since), KMsg := JStr(f.value.msg)])
  }

  function EncodeRun(r: Option<LastRun>): Json {
    match r
    case None => JNull
    case Some(r) =>
      JObject(map[KKind := JStr(if r.kind == Auto then "auto" else "manual"),
                  KOutcome := JStr(if r.success then "success" else "failed"),
                  KStarted := JReal(r.started), KEnded := JReal(r.ended),
                  KTriggerRh := JReal(r.triggerRh), KEndRh := JReal(r.endRh),
                  KTemp := JInt(r.temp), KDuration := JInt(r.duration), KRan := JInt(r.ran)])
  }

  function EncodeDuty(duty: seq<Duty>): seq<Json>
    decreases duty
  {
    if duty == [] then []
    else [JObject(map[KStarted := JReal(duty[0].started), KRan := JInt(duty[0].ran)])] + EncodeDuty(duty[1..])
  }

  function EncodeSnapshot(s: Snapshot): Json {
    JObject(map[KState := JStr(StateName(s.state)), KSince := JReal(s.since), KFault := EncodeFault(s.fault),
                KLastRun := EncodeRun(s.lastRun), KAnnouncement := OrNull(s.announcement),
                KDuty := JList(EncodeDuty(s.duty)), KCooldownUntil := JReal(s.cooldownUntil)])
  }

  function EncodeSettings(c: Settings): Json {
    JObject(map[KEnabled := JBool(c.enabled), KTargetPct := JInt(c.targetPct), KHysteresis := JInt(c.hysteresis),
                KDefaultType := OrNull(c.defaultType), KKeepReady := JBool(c.keepReady)])
  }

  function EncodeMachine(m: Machine): Json {
    JObject(map[KAce := JInt(m.ace), KConfig := EncodeSettings(m.config), KSnapshot := EncodeSnapshot(m.snapshot)])
  }

  function EncodeAll(ms: seq<Machine>): seq<Json>
    decreases ms
  {
    if ms == [] then [] else [EncodeMachine(ms[0])] + EncodeAll(ms[1..])
  }

  /** `serialize`. */
  function Serialize(ms: seq<Machine>): Json {
    JObject(map[KSchema := JInt(2), KFsms := JList(EncodeAll(ms))])
  }

  // ---- reading ------------------------------------------------------------------------------

  function Get(d: Json, key: Key): Json {
    if d.JObject? && key in d.fields then d.fields[key] else JNull
  }

  /** `float(d.get(key, default))`; nothing when Python would raise. */
  function GetReal(d: Json, key: Key, missing: real): Option<real> {
    if !d.JObject? || key !in d.fields then Some(missing)
    else
      match d.fields[key]
      case JReal(x) => Some(x)
      case JInt(n) => Some(n as real)
      case _ => None
  }

  function GetInt(d: Json, key: Key, missing: Option<int>): Option<int> {
    if !d.JObject? || key !in d.fields then missing
    else if d.fields[key].JInt? then Some(d.fields[key].n) else None
  }

  function GetBool(d: Json, key: Key, missing: bool): Option<bool> {
    if !d.JObject? || key !in d.fields then Some(missing)
    else if d.fields[key].JBool? then Some(d.fields[key].b) else None
  }

  function GetString(d: Json, key: Key): Option<Option<string>> {
    match Get(d, key)
    case JStr(s) => Some(Some(s))
    case JNull => Some(None)
    case _ => None
  }

  function StateOf(name: string): Option<State> {
    if name == "IDLE" then Some(Idle)
    else if name == "WATCHING" then Some(Watching)
    else if name == "DRYING" then Some(Drying)
    else if name == "OBSERVED_DRYING" then Some(ObservedDrying)
    else if name == "COOLDOWN" then Some(Cooldown)
    else if name == "FAULTED" then Some(Faulted)
    else None
  }

  function GetState(d: Json): Option<State> {
    if !d.JObject? || KState !in d.fields then Some(Idle)
    else if d.fields[KState].JStr? then StateOf(d.fields[KState].s) else None
  }

  function DecodeFault(d: Json): Option<Option<Fault>> {
    if d == JNull then Some(None)
    else
      var code, since, msg := Get(d, KCode), Get(d, KSince), Get(d, KMsg);
      if !code.JStr? || !since.JReal? || !msg.JStr? then None
      else if code.s == "FAILED_LIMIT" then Some(Some(Fault(FailedLimit, since.x, msg.s)))
      else if code.s == "FAILED_DELTA" then Some(Some(Fault(FailedDelta, since.x, msg.s)))
      else None
  }

  function DecodeRun(d: Json): Option<Option<LastRun>> {
    if d == JNull then Some(None)
    else
      var kind, outcome, started, ended := Get(d, KKind), Get(d, KOutcome), Get(d, KStarted), Get(d, KEnded);
      var triggerRh, endRh, temp, duration, ran :=
        Get(d, KTriggerRh), Get(d, KEndRh), Get(d, KTemp), Get(d, KDuration), Get(d, KRan);
      if kind.JStr? && outcome.JStr? && started.JReal? && ended.JReal? && triggerRh.JReal? && endRh.JReal?
         && temp.JInt? && duration.JInt? && ran.JInt? then
        Some(Some(LastRun(if kind.s == "auto" then Auto else Manual, outcome.s == "success", started.x, ended.x,
                          triggerRh.x, endRh.x, temp.n, duration.n, ran.n)))
      else None
  }

  function DecodeDuty(items: seq<Json>): Option<seq<Duty>>
    decreases items
  {
    if items == [] then Some([])
    else
      var started, ran := GetReal(items[0], KStarted, 0.0), GetInt(items[0], KRan, Some(0));
      var rest := DecodeDuty(items[1..]);
      if started.Some? && ran.Some? && rest.Some? then Some([Duty(started.value, ran.value)] + rest.value) else None
  }

  function GetDuty(d: Json): Option<seq<Duty>> {
    match Get(d, KDuty)
    case JNull => Some([])
    case JList(items) => DecodeDuty(items)
    case _ => None
  }

  /** `_snapshot_from_dict`. */
  function DecodeSnapshot(d: Json): Option<Snapshot> {
    var state, since := GetState(d), GetReal(d, KSince, 0.0);
    var fault, run := DecodeFault(Get(d, KFault)), DecodeRun(Get(d, KLastRun));
    var announcement, duty, until := GetString(d, KAnnouncement), GetDuty(d), GetReal(d, KCooldownUntil, 0.0);
    if state.Some? && since.Some? && fault.Some? && run.Some? && announcement.Some? && duty.Some? && until.Some? then
      Some(Snapshot(state.value, since.value, fault.value, run.value, announcement.value, duty.value, until.value))
    else None
  }

  function DecodeSettings(d: Json): Option<Settings> {
    var enabled := GetBool(d, KEnabled, false);
    var pct, pp := GetInt(d, KTargetPct, Some(15)), GetInt(d, KHysteresis, Some(5));
    var filament, keep := GetString(d, KDefaultType), GetBool(d, KKeepReady, false);
    if enabled.Some? && pct.Some? && pp.Some? && filament.Some? && keep.Some? then
      Some(Settings(enabled.value, pct.value, pp.value, filament.value, keep.value))
    else None
  }

  /** The entries by ACE number; a later entry replaces an earlier one. */
  function ByAce(items: seq<Json>): Option<map<int, Json>>
    decreases items
  {
    if items == [] then Some(map[])
    else
      var last := items[|items| - 1];
      var before := ByAce(items[..|items| - 1]);
      if before.None? then None
      else if !last.JObject? || KAce !in last.fields then before
      else if last.fields[KAce].JInt? then Some(before.value[last.fields[KAce].n := last]) else None
  }

  function DecodeMachine(ace: int, raws: map<int, Json>): Option<Machine> {
    if ace !in raws then Some(DefaultMachine(ace))
    else
      var config, snapshot := DecodeSettings(Get(raws[ace], KConfig)), DecodeSnapshot(Get(raws[ace], KSnapshot));
      if config.Some? && snapshot.Some? then Some(Machine(ace, config.value, snapshot.value)) else None
  }

  function DecodeMachines(count: nat, raws: map<int, Json>): (r: Option<seq<Machine>>)
    ensures r.Some? ==> |r.value| == count
    decreases count
  {
    if count == 0 then Some([])
    else
      var before, last := DecodeMachines(count - 1, raws), DecodeMachine(count - 1, raws);
      if before.Some? && last.Some? then Some(before.value + [last.value]) else None
  }

  /** `deserialize`, for the current file format. */
  function Deserialize(d: Json, deviceCount: nat): Option<seq<Machine>> {
    var raws := match Get(d, KFsms)
      case JNull => Some(map[])
      case JList(items) => ByAce(items)
      case _ => None;
    if raws.Some? then DecodeMachines(deviceCount, raws.value) else None
  }

  // ---- the round trip -----------------------------------------------------------------------------

  lemma {:induction false} DutyRoundTrip(duty: seq<Duty>)
    ensures DecodeDuty(EncodeDuty(duty)) == Some(duty)
    decreases duty
  {
    if duty != [] {
      DutyRoundTrip(duty[1..]);
      assert EncodeDuty(duty)[1..] == EncodeDuty(duty[1..]);
      assert [duty[0]] + duty[1..] == duty;
    }
  }

  lemma FaultRoundTrip(f: Option<Fault>)
    ensures DecodeFault(EncodeFault(f)) == Some(f)
  {
    if f.Some? {
      assert "FAILED_LIMIT"[7] != "FAILED_DELTA"[7];
    }
  }

  lemma RunRoundTrip(r: Option<LastRun>)
    ensures DecodeRun(EncodeRun(r)) == Some(r)
  {
    assert |"auto"| != |"manual"| && |"success"| != |"failed"|;
  }

  lemma StateRoundTrip(s: State)
    ensures StateOf(StateName(s)) == Some(s)
  {
    assert |"IDLE"| == 4 && |"WATCHING"| == 8 && |"DRYING"| == 6 && |"OBSERVED_DRYING"| == 15
        && |"COOLDOWN"| == 8 && |"FAULTED"| == 7;
    assert "WATCHING"[0] != "COOLDOWN"[0];
  }

  lemma SnapshotRoundTrip(s: Snapshot)
    ensures DecodeSnapshot(EncodeSnapshot(s)) == Some(s)
  {
    hide EncodeFault, EncodeRun, EncodeDuty, StateName, DecodeFault, DecodeRun, DecodeDuty, StateOf;
    FaultRoundTrip(s.fault);
    RunRoundTrip(s.lastRun);
    DutyRoundTrip(s.duty);
    StateRoundTrip(s.state);
  }

  lemma SettingsRoundTrip(c: Settings)
    ensures DecodeSettings(EncodeSettings(c)) == Some(c)
  {
  }

  predicate InOrder(ms: seq<Machine>) {
    forall i | 0 <= i < |ms| :: ms[i].ace == i
  }

  /** Whatever the file says, machine `i` is that of ACE `i`. */
  lemma {:induction false} MachinesInOrder(count: nat, raws: map<int, Json>)
    ensures DecodeMachines(count, raws).Some? ==> InOrder(DecodeMachines(count, raws).value)
    decreases count
  {
    hide DecodeSettings, DecodeSnapshot;
    if count > 0 {
      MachinesInOrder(count - 1, raws);
    }
  }

  lemma {:induction false} EncodedAt(ms: seq<Machine>, i: nat)
    requires i < |ms|
    ensures |EncodeAll(ms)| == |ms| && EncodeAll(ms)[i] == EncodeMachine(ms[i])
    decreases ms
  {
    hide EncodeMachine;
    if |ms| > 1 {
      EncodedAt(ms[1..], if i == 0 then 0 else i - 1);
    }
  }

  lemma {:induction false} EncodedPrefix(ms: seq<Machine>, k: nat)
    requires k <= |ms|
    ensures |EncodeAll(ms)| == |ms| && EncodeAll(ms)[..k] == EncodeAll(ms[..k])
    decreases ms
  {
    hide EncodeMachine;
    if k > 0 {
      EncodedPrefix(ms[1..], k - 1);
      assert ms[..k][1..] == ms[1..][..k - 1];
    } else if ms != [] {
      EncodedPrefix(ms[1..], 0);
    }
  }

  predicate Indexes(raws: map<int, Json>, ms: seq<Machine>) {
    && (forall i | 0 <= i < |ms| :: i in raws && raws[i] == EncodeMachine(ms[i]))
    && (forall i <- raws :: 0 <= i < |ms|)
  }

  lemma {:induction false} ByAceOfEncoded(ms: seq<Machine>)
    requires InOrder(ms)
    ensures ByAce(EncodeAll(ms)).Some? && Indexes(ByAce(EncodeAll(ms)).value, ms)
    decreases ms
  {
    hide EncodeSettings, EncodeSnapshot;
    if ms != [] {
      var k := |ms| - 1;
      ByAceOfEncoded(ms[..k]);
      EncodedPrefix(ms, k);
      EncodedAt(ms, k);
    }
  }

  lemma {:induction false} DecodeIndexed(count: nat, raws: map<int, Json>, ms: seq<Machine>)
    requires Indexes(raws, ms) && InOrder(ms)
    ensures DecodeMachines(count, raws).Some?
    ensures forall i | 0 <= i < count ::
              DecodeMachines(count, raws).value[i] == if i < |ms| then ms[i] else DefaultMachine(i)
    decreases count
  {
    hide EncodeSettings, EncodeSnapshot, DecodeSettings, DecodeSnapshot;
    if count > 0 {
      DecodeIndexed(count - 1, raws, ms);
      if count - 1 < |ms| {
        SettingsRoundTrip(ms[count - 1].config);
        SnapshotRoundTrip(ms[count - 1].snapshot);
      }
    }
  }

  /** Reading back what was written restores every machine, and gives new devices a default one. */
  lemma StoreRoundTrip(ms: seq<Machine>, deviceCount: nat)
    requires InOrder(ms)
    ensures Deserialize(Serialize(ms), deviceCount)
         == Some(seq(deviceCount, i requires 0 <= i < deviceCount => if i < |ms| then ms[i] else DefaultMachine(i)))
  {
    hide EncodeAll, ByAce, DecodeMachines, Indexes;
    ByAceOfEncoded(ms);
    DecodeIndexed(deviceCount, ByAce(EncodeAll(ms)).value, ms);
    assert DecodeMachines(deviceCount, ByAce(EncodeAll(ms)).value).value
        == seq(deviceCount, i requires 0 <= i < deviceCount => if i < |ms| then ms[i] else DefaultMachine(i));
  }

  /** An ACE that the file does not know is switched off, with a target of 15 percent, a hysteresis of 5,
      no filament of its own, not kept ready, idle, without fault, run, announcement or cooldown. */
  lemma NewMachine(ms: seq<Machine>, deviceCount: nat, ace: nat)
    requires InOrder(ms) && |ms| <= ace < deviceCount
    ensures Deserialize(Serialize(ms), deviceCount).Some?
    ensures var m := Deserialize(Serialize(ms), deviceCount).value;
            |m| == deviceCount
            && m[ace].ace == ace && m[ace].config == Settings(false, 15, 5, None, false)
            && m[ace].snapshot == Snapshot(Idle, 0.0, None, None, None, [], 0.0)
  {
    hide Serialize, Deserialize;
    StoreRoundTrip(ms, deviceCount);
  }
}
