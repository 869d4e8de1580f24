/** The dashboard's view of the realtime patient counts: lookups, the grand
    total, freshness, and the guarded, periodically refreshed fetch
    (src/composables/useRealTimePatients.ts). */
module RealTimePatients {
  import opened Common
  import opened PatientRecords

  /** Ten minutes, the freshness window. */
  const FRESH_MS: int := 10 * 60 * 1000
  /** Five minutes, the refresh period. */
  const REFRESH_MS: int := 5 * 60 * 1000

  const INVALID_FORMAT: string := "Invalid response format"
  const DEFAULT_ERROR: string := "Failed to fetch patient data"
  const REALTIME_PATH: string := "/api/patients/realtime?date="

  /** `find(h => h.hospitalCode === code)`, as a position. */
  function FindHospital(data: seq<HospitalPatientData>, code: string): (i: Option<nat>)
    ensures i.Some? ==> i.value < |data| && data[i.value].hospitalCode == code
                        && forall j :: 0 <= j < i.value ==> data[j].hospitalCode != code
    ensures i.None? ==> forall j :: 0 <= j < |data| ==> data[j].hospitalCode != code
  {
    if data == [] then None
    else if data[0].hospitalCode == code then Some(0)
    else match FindHospital(data[1..], code) {
      case None => None
      case Some(k) => Some(k + 1)
    }
  }

  /** `getPatientCount`: the first matching entry's total (`|| 0` changes nothing
      for a number that is never NaN), or 0 when no entry matches. */
  function GetPatientCount(data: seq<HospitalPatientData>, code: string): (n: int)
    ensures (forall j :: 0 <= j < |data| ==> data[j].hospitalCode != code) ==> n == 0
    ensures forall i :: 0 <= i < |data| && data[i].hospitalCode == code
                        && (forall j :: 0 <= j < i ==> data[j].hospitalCode != code)
                        ==> n == data[i].totalPatients
  {
    match FindHospital(data, code)
    case None => 0
    case Some(i) => data[i].totalPatients
  }

  /** `getPatientBreakdown`: the first matching entry's breakdown, or `[]`. */
  function GetPatientBreakdown(data: seq<HospitalPatientData>, code: string): (b: seq<PatientRecord>)
    ensures (forall j :: 0 <= j < |data| ==> data[j].hospitalCode != code) ==> b == []
    ensures forall i :: 0 <= i < |data| && data[i].hospitalCode == code
                        && (forall j :: 0 <= j < i ==> data[j].hospitalCode != code)
                        ==> b == data[i].breakdown
  {
    match FindHospital(data, code)
    case None => []
    case Some(i) => data[i].breakdown
  }

  /** The computed `totalPatients`: the sum over all entries. */
  function TotalPatients(data: seq<HospitalPatientData>): int
  {
    if data == [] then 0 else TotalPatients(data[..|data| - 1]) + data[|data| - 1].totalPatients
  }

  lemma {:induction false} TotalPatientsAppend(a: seq<HospitalPatientData>, b: seq<HospitalPatientData>)
    ensures TotalPatients(a + b) == TotalPatients(a) + TotalPatients(b)
  {
    if b != [] {
      var init := b[..|b| - 1];
      TotalPatientsAppend(a, init);
      assert (a + b)[..|a + b| - 1] == a + init;
    } else {
      assert a + b == a;
    }
  }

  /** With counts that are never negative, the grand total bounds every entry and
      so every hospital's count. */
  lemma {:induction false} CountBoundedByTotal(data: seq<HospitalPatientData>, code: string)
    requires forall i :: 0 <= i < |data| ==> data[i].totalPatients >= 0
    ensures 0 <= GetPatientCount(data, code) <= TotalPatients(data)
  {
    match FindHospital(data, code) {
      case None =>
        EntryBoundedByTotal(data, 0);
      case Some(i) =>
        EntryBoundedByTotal(data, i);
    }
  }

  lemma {:induction false} EntryBoundedByTotal(data: seq<HospitalPatientData>, i: nat)
    requires forall k :: 0 <= k < |data| ==> data[k].totalPatients >= 0
    ensures TotalPatients(data) >= 0
    ensures i < |data| ==> data[i].totalPatients <= TotalPatients(data)
  {
    if data != [] {
      var init := data[..|data| - 1];
      EntryBoundedByTotal(init, i);
    }
  }

  /** The computed `isDataFresh`: the minutes since the last update, computed as
      the source does with a division, are fewer than ten; it is the same as the
      elapsed milliseconds being under 600000. Never fresh before a first update. */
  function IsDataFresh(lastUpdated: Option<int>, now: int): (isFresh: bool)
    ensures lastUpdated.None? ==> !isFresh
    ensures lastUpdated.Some? ==> (isFresh <==> now - lastUpdated.value < FRESH_MS)
  {
    if lastUpdated.None? then false
    else
      var diffMinutes := (now - lastUpdated.value) as real / (1000.0 * 60.0);
      diffMinutes < 10.0
  }

  /** What awaiting the realtime endpoint gave: `success` and `data` (`None` for a
      missing list), or a throw with its message. */
  datatype FetchReply = Got(success: bool, data: Option<seq<HospitalPatientData>>) | FetchFailed(message: string)

  class PatientMonitor {
    var patientData: seq<HospitalPatientData>
    var isLoading: bool
    var error: Option<string>
    /** `lastUpdated`, as milliseconds. */
    var lastUpdated: Option<int>
    /** `autoRefreshInterval`: the handle of the running interval, if any. */
    var autoRefreshInterval: Option<nat>
    /** The intervals set and not yet cleared. */
    var runningTimers: set<nat>
    /** The handle the next `setInterval` returns; handles are truthy. */
    var nextTimer: nat
    /** The URLs fetched, oldest first. */
    var requests: seq<string>

    /** At most one refresh interval runs, and it is the one the handle names. */
    ghost predicate Valid()
      reads this
    {
      && nextTimer > 0
      && runningTimers <= (if autoRefreshInterval.Some? then {autoRefreshInterval.value} else {})
      && (autoRefreshInterval.Some? ==> 0 < autoRefreshInterval.value < nextTimer)
    }

    constructor ()
      ensures Valid()
      ensures patientData == [] && !isLoading && error.None? && lastUpdated.None?
      ensures autoRefreshInterval.None? && requests == []
    {
      patientData := [];
      isLoading := false;
      error := None;
      lastUpdated := None;
      autoRefreshInterval := None;
      runningTimers := {};
      nextTimer := 1;
      requests := [];
    }

    /** The synchronous start of `fetchPatientData(date)`: `false` means a fetch is
        in flight and nothing happens; otherwise the guard is raised, the error
        cleared and the day's URL requested. `today` is the client's current day. */
    method BeginFetch(date: Option<string>, today: string) returns (started: bool)
      requires Valid()
      modifies this
      ensures Valid()
      ensures started == !old(isLoading) && isLoading
      ensures started ==>
        && error.None?
        && requests == old(requests)
             + [REALTIME_PATH + (if date.Some? && date.value != "" then date.value else today)]
      ensures !started ==> error == old(error) && requests == old(requests)
      ensures patientData == old(patientData) && lastUpdated == old(lastUpdated)
      ensures autoRefreshInterval == old(autoRefreshInterval) && runningTimers == old(runningTimers)
      ensures nextTimer == old(nextTimer)
    {
      if isLoading {
        return false;
      }
      isLoading := true;
      error := None;
      var targetDate := if date.Some? && date.value != "" then date.value else today;
      requests := requests + [REALTIME_PATH + targetDate];
      started := true;
    }

    /** The rest of `fetchPatientData` once the request settles; `now` is
        `new Date()`. A good reply replaces the data and stamps the time; anything
        else empties the data and records why. The guard is lowered in every case. */
    method CompleteFetch(reply: FetchReply, now: int)
      requires Valid()
      modifies this
      ensures Valid()
      ensures !isLoading
      ensures reply.Got? && reply.success && reply.data.Some? ==>
        && patientData == reply.data.value && lastUpdated == Some(now) && error == old(error)
      ensures reply.Got? && !(reply.success && reply.data.Some?) ==>
        && patientData == [] && lastUpdated == old(lastUpdated) && error == Some(INVALID_FORMAT)
      ensures reply.FetchFailed? ==>
        && patientData == [] && lastUpdated == old(lastUpdated)
        && error == Some(MessageOr(reply.message, DEFAULT_ERROR))
      ensures requests == old(requests) && autoRefreshInterval == old(autoRefreshInterval)
      ensures runningTimers == old(runningTimers) && nextTimer == old(nextTimer)
    {
      match reply {
        case Got(success, data) =>
          if success && data.Some? {
            patientData := data.value;
            lastUpdated := Some(now);
          } else {
            error := Some(INVALID_FORMAT);
            patientData := [];
          }
        case FetchFailed(message) =>
          error := Some(MessageOr(message, DEFAULT_ERROR));
          patientData := [];
      }
      isLoading := false;
    }

    /** `startAutoRefresh`: clear any running interval, fetch at once, and set a
        new five-minute interval. Returns whether the immediate fetch started. */
    method StartAutoRefresh(today: string) returns (started: bool)
      requires Valid()
      modifies this
      ensures Valid()
      ensures autoRefreshInterval == Some(old(nextTimer)) && runningTimers == {old(nextTimer)}
      ensures started == !old(isLoading) && isLoading
      ensures started ==> error.None? && requests == old(requests) + [REALTIME_PATH + today]
      ensures !started ==> error == old(error) && requests == old(requests)
      ensures patientData == old(patientData) && lastUpdated == old(lastUpdated)
    {
      if autoRefreshInterval.Some? {
        runningTimers := runningTimers - {autoRefreshInterval.value};
      }
      started := BeginFetch(None, today);
      autoRefreshInterval := Some(nextTimer);
      runningTimers := runningTimers + {nextTimer};
      nextTimer := nextTimer + 1;
    }

    /** `stopAutoRefresh`: clear and forget the interval, if one is set. */
    method StopAutoRefresh()
      requires Valid()
      modifies this
      ensures Valid()
      ensures autoRefreshInterval.None? && runningTimers == {}
      ensures patientData == old(patientData) && isLoading == old(isLoading) && error == old(error)
      ensures lastUpdated == old(lastUpdated) && requests == old(requests) && nextTimer == old(nextTimer)
    {
      if autoRefreshInterval.Some? {
        runningTimers := runningTimers - {autoRefreshInterval.value};
        autoRefreshInterval := None;
      }
    }
  }
}
