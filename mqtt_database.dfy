/** The server plugin that buffers MQTT sensor readings in memory and saves a
    snapshot per hospital on a fixed schedule (src/server/plugins/mqtt-database.ts). */
module MqttDatabase {
  import opened Common
  import opened Payload
  import opened SeqUtil
  import Grouping

  // ---------------------------------------------------------------------------
  // Time helpers and the save interval
  // ---------------------------------------------------------------------------

  function Minutes(m: int): int { m * 60 * 1000 }
  function Hours(h: int): int { h * 60 * 60 * 1000 }
  function Days(d: int): int { d * 24 * 60 * 60 * 1000 }

  /** The helpers are consistent with one another. */
  lemma TimeHelpersAgree(n: int)
    ensures Hours(n) == Minutes(60 * n)
    ensures Days(n) == Hours(24 * n)
  {
  }

  const SAVE_INTERVAL_MS: int := Minutes(5)

  /** `SAVE_INTERVAL_MS / (60 * 1000)`, as the status readout reports it; the
      division is exact, so the readout is the configured five minutes. */
  function SaveIntervalMinutes(): (m: int)
    ensures m == 5 && Minutes(m) == SAVE_INTERVAL_MS
  {
    SAVE_INTERVAL_MS / (60 * 1000)
  }

  // ---------------------------------------------------------------------------
  // Buffer bounds, topics and hospital codes
  // ---------------------------------------------------------------------------

  const MAX_HOSPITAL_ENTRIES: nat := 1000
  const HOSPITAL_EVICTION: nat := 100
  const MAX_PH_ENTRIES: nat := 500
  const PH_EVICTION: nat := 50
  const PH_KEPT_AFTER_SAVE: nat := 10

  const PH_TOPIC: string := "/ph"
  const MAWAR_TOPIC: string := "/ruangMawar"
  const MELATI_TOPIC: string := "/ruangMelati"

  predicate IsKnownCode(code: string)
  {
    code == "rs-a" || code == "rs-b"
  }

  /** The hospital code a topic stands for (`hospitalCode` stays `''` otherwise). */
  function TopicCode(topic: string): (code: Option<string>)
    ensures code.Some? <==> topic == MAWAR_TOPIC || topic == MELATI_TOPIC
    ensures code.Some? ==> IsKnownCode(code.value)
  {
    if topic == MAWAR_TOPIC then Some("rs-a")
    else if topic == MELATI_TOPIC then Some("rs-b")
    else None
  }

  // ---------------------------------------------------------------------------
  // Server-side normalisation: `Number(x || 0)`
  // ---------------------------------------------------------------------------

  /** A JavaScript number as `Number()` may produce it: a finite value or NaN. */
  datatype Num = Finite(x: real) | NaN

  predicate IsDigits(s: string)
  {
    forall i :: 0 <= i < |s| ==> '0' <= s[i] <= '9'
  }

  function DecimalValue(s: string): nat
    requires IsDigits(s)
  {
    if s == [] then 0
    else 10 * DecimalValue(s[..|s| - 1]) + ((s[|s| - 1] as int) - ('0' as int))
  }

  /** `Number(s)` for a non-empty string: a plain decimal numeral gives its value,
      anything else is NaN (see README for the numeral forms left out). */
  function StringToNumber(s: string): Num
  {
    if s != "" && IsDigits(s) then Finite(DecimalValue(s) as real) else NaN
  }

  /** `Number(v || 0)`: every falsy value becomes 0; `true` becomes 1; only a
      non-numeric, non-empty string yields NaN. It never rejects. */
  function NumberOrZero(v: Value): (r: Num)
    ensures !Truthy(v) ==> r == Finite(0.0)
    ensures v.JNum? ==> r == Finite(v.n)
    ensures v == JBool(true) ==> r == Finite(1.0)
    ensures r.NaN? <==> v.JStr? && v.s != "" && !IsDigits(v.s)
  {
    if !Truthy(v) then Finite(0.0)
    else match v
      case JNum(n) => Finite(n)
      case JStr(s) => StringToNumber(s)
      case JBool(_) => Finite(1.0)
      case JNull => Finite(0.0)
      case JUndef => Finite(0.0)
  }

  /** A numeral rendered by `NatToString` reads back as the same number. */
  lemma {:induction false} DecimalRoundTrip(n: nat)
    ensures IsDigits(NatToString(n)) && DecimalValue(NatToString(n)) == n
    ensures NumberOrZero(JStr(NatToString(n))) == Finite(n as real)
    decreases n
  {
    var s := NatToString(n);
    if n >= 10 {
      DecimalRoundTrip(n / 10);
      var init := NatToString(n / 10);
      assert s[..|s| - 1] == init;
      assert s[|s| - 1] == DigitChar(n % 10);
    }
    assert DecimalValue(s) == n by {
      if n < 10 {
        assert s[..|s| - 1] == [];
      }
    }
    if n == 0 {
      assert !Truthy(JStr(s)) || NumberOrZero(JStr(s)) == Finite(0.0);
    }
  }

  // ---------------------------------------------------------------------------
  // Buffered records
  // ---------------------------------------------------------------------------

  /** One entry of `mqttDataBuffer`; `ph` is `None` where the source stores `null`. */
  datatype Entry = Entry(hospitalCode: string, electricity: Num, water: Num, pasien: Num,
                         ph: Option<real>, timestamp: int)

  /** One entry of `phDataBuffer`. */
  datatype PhReading = PhReading(ph: real, timestamp: int)

  /** The two module-level arrays. */
  datatype Buffers = Buffers(hospital: seq<Entry>, ph: seq<PhReading>)

  /** What every handler keeps: both bounds, and only codes a topic maps to. */
  ghost predicate BuffersValid(b: Buffers)
  {
    && |b.hospital| <= MAX_HOSPITAL_ENTRIES
    && |b.ph| <= MAX_PH_ENTRIES
    && forall i :: 0 <= i < |b.hospital| ==> IsKnownCode(b.hospital[i].hospitalCode)
  }

  /** The newest buffered pH, or `None` (the source's `null`) when there is none. */
  function LatestPh(ph: seq<PhReading>): (r: Option<real>)
    ensures r.None? <==> ph == []
    ensures r.Some? ==> r.value == ph[|ph| - 1].ph
  {
    if |ph| > 0 then Some(ph[|ph| - 1].ph) else None
  }

  predicate HasAllFields(f: Fields)
  {
    f.electricity != JUndef && f.water != JUndef && f.pasien != JUndef
  }

  /** `normalizedData`: numbers through `Number(x || 0)`, stamped with the newest pH. */
  function Normalize(code: string, f: Fields, ph: seq<PhReading>, now: int): Entry
  {
    Entry(code, NumberOrZero(f.electricity), NumberOrZero(f.water), NumberOrZero(f.pasien),
          LatestPh(ph), now)
  }

  // ---------------------------------------------------------------------------
  // The 'message' handler, as a function of the buffers
  // ---------------------------------------------------------------------------

  function Ingest(b: Buffers, topic: string, msg: Inbound, now: int): Buffers
  {
    match msg
    case Unparsable(_) => b
    case Parsed(f) =>
      if topic == PH_TOPIC then
        if f.ph.JNum?
        then b.(ph := AppendBounded(b.ph, PhReading(f.ph.n, now), MAX_PH_ENTRIES, PH_EVICTION))
        else b
      else
        var code := TopicCode(topic);
        if code.Some? && HasAllFields(f)
        then b.(hospital := AppendBounded(b.hospital, Normalize(code.value, f, b.ph, now),
                                          MAX_HOSPITAL_ENTRIES, HOSPITAL_EVICTION))
        else b
  }

  /** A `/ph` message touches only the pH buffer, and only when `ph` is a number;
      the buffer then stays within 500 entries, ends with the new reading, and on
      overflow loses exactly its 50 oldest entries. */
  lemma IngestPh(b: Buffers, msg: Inbound, now: int)
    requires BuffersValid(b)
    ensures var b' := Ingest(b, PH_TOPIC, msg, now);
      && BuffersValid(b')
      && b'.hospital == b.hospital
      && (b' != b <==> msg.Parsed? && msg.fields.ph.JNum?)
      && (msg.Parsed? && msg.fields.ph.JNum? ==>
            var r := PhReading(msg.fields.ph.n, now);
            b'.ph == (if |b.ph| < MAX_PH_ENTRIES then b.ph + [r] else b.ph[PH_EVICTION..] + [r]))
  {
    if msg.Parsed? && msg.fields.ph.JNum? {
      var b' := Ingest(b, PH_TOPIC, msg, now);
      assert |b'.ph| > 0 && b'.ph[|b'.ph| - 1] == PhReading(msg.fields.ph.n, now);
      assert b'.ph != b.ph by {
        if |b.ph| < MAX_PH_ENTRIES { assert |b'.ph| == |b.ph| + 1; }
        else { assert |b'.ph| == |b.ph| + 1 - PH_EVICTION; }
      }
    }
  }

  /** A message on any other topic touches only the hospital buffer, and only when
      the topic maps to a code and all three fields are present; the new entry is
      then last, normalised, and carries the newest pH buffered before it. */
  lemma IngestHospital(b: Buffers, topic: string, msg: Inbound, now: int)
    requires BuffersValid(b) && topic != PH_TOPIC
    ensures var b' := Ingest(b, topic, msg, now);
      && BuffersValid(b')
      && b'.ph == b.ph
      && (b' != b <==> msg.Parsed? && TopicCode(topic).Some? && HasAllFields(msg.fields))
      && (b' != b ==>
            var e := b'.hospital[|b'.hospital| - 1];
            && e == Entry(TopicCode(topic).value, NumberOrZero(msg.fields.electricity),
                          NumberOrZero(msg.fields.water), NumberOrZero(msg.fields.pasien),
                          LatestPh(b.ph), now)
            && b'.hospital == (if |b.hospital| < MAX_HOSPITAL_ENTRIES then b.hospital + [e]
                               else b.hospital[HOSPITAL_EVICTION..] + [e]))
  {
    var b' := Ingest(b, topic, msg, now);
    if msg.Parsed? && TopicCode(topic).Some? && HasAllFields(msg.fields) {
      var e := Normalize(TopicCode(topic).value, msg.fields, b.ph, now);
      assert b'.hospital != b.hospital by {
        if |b.hospital| < MAX_HOSPITAL_ENTRIES { assert |b'.hospital| == |b.hospital| + 1; }
        else { assert |b'.hospital| == |b.hospital| + 1 - HOSPITAL_EVICTION; }
      }
      forall i | 0 <= i < |b'.hospital| ensures IsKnownCode(b'.hospital[i].hospitalCode) {
        if i < |b'.hospital| - 1 {
          if |b.hospital| < MAX_HOSPITAL_ENTRIES { assert b'.hospital[i] == b.hospital[i]; }
          else { assert b'.hospital[i] == b.hospital[i + HOSPITAL_EVICTION]; }
        }
      }
    }
  }

  /** The normalisation of `{electricity: null, water: "", pasien: 5}`, and of a
      non-numeric string. */
  lemma NormalizeExamples(ph: seq<PhReading>, now: int)
    ensures var f := Fields(JNull, JStr(""), JNum(5.0), JUndef);
      Normalize("rs-a", f, ph, now)
        == Entry("rs-a", Finite(0.0), Finite(0.0), Finite(5.0), LatestPh(ph), now)
    ensures NumberOrZero(JStr("abc")).NaN? && NumberOrZero(JBool(false)) == Finite(0.0)
  {
    assert !IsDigits("abc") by { assert !('0' <= "abc"[0] <= '9'); }
  }

  // ---------------------------------------------------------------------------
  // The scheduled save, as functions of the buffers
  // ---------------------------------------------------------------------------

  /** One call of `saveSensorDataToDatabase(code, electricity, water, pasien, ph)`. */
  datatype SaveCall = SaveCall(hospitalCode: string, electricity: Num, water: Num, pasien: Num,
                               ph: Option<real>)

  function CodeOf(e: Entry): string { e.hospitalCode }

  /** The call for one group: its latest entry, with the pH given. */
  function CallFor(g: Grouping.Group<Entry>, ph: Option<real>): SaveCall
    requires g.items != []
  {
    var latest := g.items[|g.items| - 1];
    SaveCall(g.key, latest.electricity, latest.water, latest.pasien, ph)
  }

  /** The saves one flush makes, in order. */
  function FlushPlan(hospital: seq<Entry>, ph: seq<PhReading>): seq<SaveCall>
  {
    var groups := Grouping.GroupBy(hospital, CodeOf);
    seq(|groups|, i requires 0 <= i < |groups| => CallFor(groups[i], LatestPh(ph)))
  }

  /** The code a save is for; the saves that throw are those whose code is in `failing`. */
  function CallCode(c: SaveCall): string { c.hospitalCode }

  /** The buffers after a flush in which `saved` calls succeeded. */
  function AfterFlush(b: Buffers, saved: nat): Buffers
  {
    if saved > 0 then Buffers([], KeepNewest(b.ph, PH_KEPT_AFTER_SAVE)) else b
  }

  /** What a flush does: nothing on an empty buffer; otherwise exactly one save per
      distinct hospital code, carrying that code's last-appended entry and the newest
      pH at flush time (not the pH stored in the entry). */
  lemma {:induction false} FlushPlanMeaning(hospital: seq<Entry>, ph: seq<PhReading>)
    ensures var calls := FlushPlan(hospital, ph);
      && (hospital == [] <==> calls == [])
      && (forall i, j :: 0 <= i < j < |calls| ==> calls[i].hospitalCode != calls[j].hospitalCode)
      && (forall k :: 0 <= k < |hospital| ==>
            exists i :: 0 <= i < |calls| && calls[i].hospitalCode == hospital[k].hospitalCode)
      && (forall i :: 0 <= i < |calls| ==>
            var j := Grouping.LastIndexOfKey(hospital, CodeOf, calls[i].hospitalCode);
            && 0 <= j
            && hospital[j].hospitalCode == calls[i].hospitalCode
            && calls[i] == SaveCall(hospital[j].hospitalCode, hospital[j].electricity,
                                    hospital[j].water, hospital[j].pasien, LatestPh(ph)))
  {
    Grouping.GroupByLatest(hospital, CodeOf);
    var calls := FlushPlan(hospital, ph);
    var groups := Grouping.GroupBy(hospital, CodeOf);
    forall i | 0 <= i < |calls|
      ensures var j := Grouping.LastIndexOfKey(hospital, CodeOf, calls[i].hospitalCode);
        && 0 <= j
        && hospital[j].hospitalCode == calls[i].hospitalCode
        && calls[i] == SaveCall(hospital[j].hospitalCode, hospital[j].electricity,
                                hospital[j].water, hospital[j].pasien, LatestPh(ph))
    {
      assert Grouping.EndsWithLatest(hospital, CodeOf, groups[i]);
    }
    forall k | 0 <= k < |hospital|
      ensures exists i :: 0 <= i < |calls| && calls[i].hospitalCode == hospital[k].hospitalCode
    {
      assert hospital[k] in hospital;
      var i :| 0 <= i < |groups| && Grouping.Keys(groups)[i] == CodeOf(hospital[k]);
      assert calls[i].hospitalCode == groups[i].key;
    }
  }

  /** At most one save per known code, so at most two saves per flush. */
  lemma FlushPlanBound(b: Buffers)
    requires BuffersValid(b)
    ensures |FlushPlan(b.hospital, b.ph)| <= 2
  {
    var calls := FlushPlan(b.hospital, b.ph);
    FlushPlanMeaning(b.hospital, b.ph);
    var codes := seq(|calls|, i requires 0 <= i < |calls| => calls[i].hospitalCode);
    forall i | 0 <= i < |codes| ensures codes[i] in {"rs-a", "rs-b"} {
      var j := Grouping.LastIndexOfKey(b.hospital, CodeOf, codes[i]);
      assert b.hospital[j].hospitalCode == codes[i];
    }
    DistinctWithin(codes, {"rs-a", "rs-b"});
  }

  /** With at least one success the hospital buffer empties and the pH buffer keeps
      its newest min(length, 10) entries (so it never empties); with none, nothing changes. */
  lemma AfterFlushMeaning(b: Buffers, saved: nat)
    requires BuffersValid(b)
    ensures var b' := AfterFlush(b, saved);
      && BuffersValid(b')
      && (saved == 0 ==> b' == b)
      && (saved > 0 ==>
            && b'.hospital == []
            && |b'.ph| == (if |b.ph| < PH_KEPT_AFTER_SAVE then |b.ph| else PH_KEPT_AFTER_SAVE)
            && b'.ph == b.ph[|b.ph| - |b'.ph|..]
            && (b.ph != [] ==> b'.ph != [] && LatestPh(b'.ph) == LatestPh(b.ph)))
  {
  }

  /** There is one shared hospital buffer: when one hospital's save succeeds, the
      entries of a hospital whose save failed in the same flush are dropped too. */
  lemma FailedHospitalEntriesDropped(b: Buffers, failing: set<string>, k: nat)
    requires k < |b.hospital| && b.hospital[k].hospitalCode in failing
    requires SeqUtil.Succeeded(FlushPlan(b.hospital, b.ph), CallCode, failing) > 0
    ensures b.hospital[k] !in AfterFlush(b, SeqUtil.Succeeded(FlushPlan(b.hospital, b.ph), CallCode, failing)).hospital
  {
  }

  /** Last write wins within a flush window: three readings 10, 20, 30 for `rs-a`
      produce one save, of 30. */
  lemma LastWriteWins(ph: seq<PhReading>)
    ensures var s := [Entry("rs-a", Finite(10.0), Finite(0.0), Finite(0.0), None, 0),
                      Entry("rs-a", Finite(20.0), Finite(0.0), Finite(0.0), None, 0),
                      Entry("rs-a", Finite(30.0), Finite(0.0), Finite(0.0), None, 0)];
      FlushPlan(s, ph) == [SaveCall("rs-a", Finite(30.0), Finite(0.0), Finite(0.0), LatestPh(ph))]
  {
    var s := [Entry("rs-a", Finite(10.0), Finite(0.0), Finite(0.0), None, 0),
              Entry("rs-a", Finite(20.0), Finite(0.0), Finite(0.0), None, 0),
              Entry("rs-a", Finite(30.0), Finite(0.0), Finite(0.0), None, 0)];
    var calls := FlushPlan(s, ph);
    FlushPlanMeaning(s, ph);
    assert Grouping.LastIndexOfKey(s, CodeOf, "rs-a") == 2;
    var codes := seq(|calls|, i requires 0 <= i < |calls| => calls[i].hospitalCode);
    forall i | 0 <= i < |codes| ensures codes[i] in {"rs-a"} {
      var j := Grouping.LastIndexOfKey(s, CodeOf, codes[i]);
      assert s[j].hospitalCode == codes[i];
    }
    DistinctWithin(codes, {"rs-a"});
    assert s[0] in s;
  }

  /** The end-to-end scenario: a reading for `/ruangMawar`, then pH 7.2, then one
      flush with no failures saves `('rs-a', 250, 40, 12, 7.2)`, empties the
      hospital buffer and keeps the 7.2 reading. */
  lemma EndToEnd()
    ensures
      var b1 := Ingest(Buffers([], []), MAWAR_TOPIC,
                       Parsed(Fields(JNum(250.0), JNum(40.0), JNum(12.0), JUndef)), 1000);
      var b2 := Ingest(b1, PH_TOPIC, Parsed(Fields(JUndef, JUndef, JUndef, JNum(7.2))), 2000);
      var calls := FlushPlan(b2.hospital, b2.ph);
      && calls == [SaveCall("rs-a", Finite(250.0), Finite(40.0), Finite(12.0), Some(7.2))]
      && AfterFlush(b2, SeqUtil.Succeeded(calls, CallCode, {})) == Buffers([], [PhReading(7.2, 2000)])
  {
    var b1 := Ingest(Buffers([], []), MAWAR_TOPIC,
                     Parsed(Fields(JNum(250.0), JNum(40.0), JNum(12.0), JUndef)), 1000);
    assert b1.hospital == [Entry("rs-a", Finite(250.0), Finite(40.0), Finite(12.0), None, 1000)];
    assert b1.hospital[..0] == [];
  }

  /** The `for` loop of the scheduled save over the grouped buffer: one save per
      group, each caught on its own, counted as saved or as an error. */
  method SaveGroups(groups: seq<Grouping.Group<Entry>>, ph: seq<PhReading>, failing: set<string>)
    returns (calls: seq<SaveCall>, savedCount: nat, errorCount: nat)
    requires forall i :: 0 <= i < |groups| ==> groups[i].items != []
    ensures |calls| == |groups|
    ensures forall i :: 0 <= i < |groups| ==> calls[i] == CallFor(groups[i], LatestPh(ph))
    ensures savedCount == SeqUtil.Succeeded(calls, CallCode, failing)
    ensures errorCount == |calls| - savedCount
  {
    calls, savedCount, errorCount := [], 0, 0;
    var i := 0;
    while i < |groups|
      invariant 0 <= i <= |groups| && |calls| == i
      invariant forall k :: 0 <= k < i ==> calls[k] == CallFor(groups[k], LatestPh(ph))
      invariant savedCount == SeqUtil.Succeeded(calls, CallCode, failing)
      invariant savedCount + errorCount == i
    {
      var hospitalData := groups[i].items;
      var latestData := hospitalData[|hospitalData| - 1];
      var latestPh := LatestPh(ph);
      var call := SaveCall(groups[i].key, latestData.electricity, latestData.water,
                           latestData.pasien, latestPh);
      SeqUtil.SucceededSnoc(calls, call, CallCode, failing);
      calls := calls + [call];
      if groups[i].key in failing {
        errorCount := errorCount + 1;
      } else {
        savedCount := savedCount + 1;
      }
      i := i + 1;
    }
  }

  // ---------------------------------------------------------------------------
  // The buffers as the plugin's mutable state
  // ---------------------------------------------------------------------------

  /** What `getMqttBufferStatus` returns. */
  datatype BufferStatus = BufferStatus(hospitalDataBuffer: nat, phDataBuffer: nat,
                                       lastHospitalData: Option<Entry>, lastPhData: Option<PhReading>,
                                       isConnected: bool, saveIntervalMinutes: int, status: string)

  const STATUS_TEXT: string := "Active - Buffering MQTT data and auto-saving to database"

  class IngestionBuffer {
    /** `mqttDataBuffer`: one array shared by every hospital. */
    var hospital: seq<Entry>
    /** `phDataBuffer`: the global pH sensor. */
    var ph: seq<PhReading>

    ghost predicate Valid()
      reads this
    {
      BuffersValid(Buffers(hospital, ph))
    }

    function State(): Buffers
      reads this
    {
      Buffers(hospital, ph)
    }

    constructor ()
      ensures Valid() && hospital == [] && ph == []
    {
      hospital := [];
      ph := [];
    }

    /** The MQTT 'message' handler; `now` is `new Date()`. A parse failure is
        caught and logged, so it changes nothing. */
    method OnMessage(topic: string, msg: Inbound, now: int)
      requires Valid()
      modifies this
      ensures Valid()
      ensures State() == Ingest(old(State()), topic, msg, now)
    {
      IngestPreservesValid(State(), topic, msg, now);
      match msg {
        case Unparsable(_) =>
        case Parsed(f) =>
          if topic == PH_TOPIC {
            if f.ph.JNum? {
              ph := ph + [PhReading(f.ph.n, now)];
              if |ph| > MAX_PH_ENTRIES {
                ph := ph[PH_EVICTION..];
              }
            }
          } else {
            var code := TopicCode(topic);
            if code.Some? && HasAllFields(f) {
              var entry := Normalize(code.value, f, ph, now);
              hospital := hospital + [entry];
              if |hospital| > MAX_HOSPITAL_ENTRIES {
                hospital := hospital[HOSPITAL_EVICTION..];
              }
            }
          }
      }
    }

    /** The body of the `setInterval` callback. `failing` is the set of codes for
        which `saveSensorDataToDatabase` throws in this cycle (an unknown or inactive
        code always does); `calls` lists the saves made, in order. */
    method Flush(failing: set<string>) returns (calls: seq<SaveCall>, savedCount: nat, errorCount: nat)
      requires Valid()
      modifies this
      ensures Valid()
      ensures calls == FlushPlan(old(hospital), old(ph))
      ensures savedCount == SeqUtil.Succeeded(calls, CallCode, failing)
      ensures errorCount == |calls| - savedCount
      ensures State() == AfterFlush(old(State()), savedCount)
    {
      calls, savedCount, errorCount := [], 0, 0;
      if |hospital| == 0 {
        return;
      }
      calls, savedCount, errorCount := SaveGroups(Grouping.GroupBy(hospital, CodeOf), ph, failing);
      if savedCount > 0 {
        hospital := [];
        if |ph| > PH_KEPT_AFTER_SAVE {
          ph := ph[|ph| - PH_KEPT_AFTER_SAVE..];
        }
      }
    }

    /** `saveBufferToDatabase`: saves the newest entry with its own stored pH and,
        when that save does not throw, pops it. */
    method SaveLatest(failing: set<string>) returns (call: Option<SaveCall>)
      requires Valid()
      modifies this
      ensures Valid()
      ensures ph == old(ph)
      ensures old(hospital) == [] ==> call == None && hospital == old(hospital)
      ensures old(hospital) != [] ==>
        var e := old(hospital)[|old(hospital)| - 1];
        && call == Some(SaveCall(e.hospitalCode, e.electricity, e.water, e.pasien, e.ph))
        && hospital == (if e.hospitalCode in failing then old(hospital)
                        else old(hospital)[..|old(hospital)| - 1])
    {
      call := None;
      if |hospital| > 0 {
        var latestData := hospital[|hospital| - 1];
        call := Some(SaveCall(latestData.hospitalCode, latestData.electricity, latestData.water,
                              latestData.pasien, latestData.ph));
        if latestData.hospitalCode !in failing {
          hospital := hospital[..|hospital| - 1];
        }
      }
    }

    /** `getMqttBufferStatus`; `connected` is `mqttClient.connected`. */
    function Status(connected: bool): (st: BufferStatus)
      reads this
      ensures st.hospitalDataBuffer == |hospital| && st.phDataBuffer == |ph|
      ensures st.lastHospitalData.None? <==> hospital == []
      ensures st.lastHospitalData.Some? ==> st.lastHospitalData.value == hospital[|hospital| - 1]
      ensures st.lastPhData.None? <==> ph == []
      ensures st.lastPhData.Some? ==> st.lastPhData.value == ph[|ph| - 1]
      ensures st.lastPhData.Some? ==> Some(st.lastPhData.value.ph) == LatestPh(ph)
      ensures st.isConnected == connected && st.saveIntervalMinutes == 5
      ensures st.status == STATUS_TEXT
    {
      BufferStatus(|hospital|, |ph|,
                   if |hospital| > 0 then Some(hospital[|hospital| - 1]) else None,
                   if |ph| > 0 then Some(ph[|ph| - 1]) else None,
                   connected, SaveIntervalMinutes(), STATUS_TEXT)
    }
  }

  lemma IngestPreservesValid(b: Buffers, topic: string, msg: Inbound, now: int)
    requires BuffersValid(b)
    ensures BuffersValid(Ingest(b, topic, msg, now))
  {
    if topic == PH_TOPIC {
      IngestPh(b, msg, now);
    } else {
      IngestHospital(b, topic, msg, now);
    }
  }
}
