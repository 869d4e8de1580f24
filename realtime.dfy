/** `GET /api/patients/realtime`: today's (or a given day's) patient counts per
    hospital, from the external API (src/server/api/patients/realtime.get.ts). */
module RealtimeEndpoint {
  import opened Common
  import opened PatientRecords

  const INVALID_RESPONSE: string := "Invalid response from patient API"
  const DEFAULT_ERROR: string := "Failed to fetch patient data"

  /** `(query.date as string) || today`: an absent or empty date means today. */
  function TargetDate(queryDate: Option<string>, today: string): (d: string)
    ensures queryDate.Some? && queryDate.value != "" ==> d == queryDate.value
    ensures queryDate.None? || queryDate.value == "" ==> d == today
  {
    if queryDate.Some? && queryDate.value != "" then queryDate.value else today
  }

  /** The entry for one hospital. */
  function PatientDataFor(h: HospitalRow, records: seq<PatientRecord>, date: string): HospitalPatientData
  {
    var breakdown := Breakdown(records, h, date);
    HospitalPatientData(h.id, h.name, KdbagianOrEmpty(h), SumJumlah(breakdown), date, breakdown)
  }

  /** Each entry names its hospital, reports the day asked for, and lists exactly
      the matching records, whose `jumlah` add up to its total; a hospital with
      neither a mapping nor a `kdbagian` gets nothing and a total of 0. */
  lemma PatientDataForMeaning(h: HospitalRow, records: seq<PatientRecord>, date: string)
    ensures var e := PatientDataFor(h, records, date);
      && e.hospitalCode == h.id && e.hospitalName == h.name && e.date == date
      && e.kdbagian == (if HasKdbagian(h) then h.kdbagian.value else "")
      && (forall r :: r in e.breakdown <==> r in records && Matches(h, date, r))
      && e.totalPatients == SumJumlah(e.breakdown)
      && (!HasMapping(h) && h.kdbagian.None? ==> e.breakdown == [] && e.totalPatients == 0)
  {
    BreakdownMembers(records, h, date);
    if !HasMapping(h) && h.kdbagian.None? {
      BreakdownUnmatched(records, h, date);
    }
  }

  /** The `for` loop: one entry per hospital, in hospital order. */
  method BuildHospitalData(hospitals: seq<HospitalRow>, records: seq<PatientRecord>, date: string)
    returns (hospitalData: seq<HospitalPatientData>)
    ensures |hospitalData| == |hospitals|
    ensures forall i :: 0 <= i < |hospitals| ==> hospitalData[i] == PatientDataFor(hospitals[i], records, date)
  {
    hospitalData := [];
    for i := 0 to |hospitals|
      invariant |hospitalData| == i
      invariant forall k :: 0 <= k < i ==> hospitalData[k] == PatientDataFor(hospitals[k], records, date)
    {
      var hospital := hospitals[i];
      if !HasMapping(hospital) {
        var exactMatch := Breakdown(records, hospital, date);
        var totalPatients := SumJumlah(exactMatch);
        hospitalData := hospitalData + [HospitalPatientData(hospital.id, hospital.name,
          KdbagianOrEmpty(hospital), totalPatients, date, exactMatch)];
      } else {
        var mappedData := Breakdown(records, hospital, date);
        var totalPatients := SumJumlah(mappedData);
        hospitalData := hospitalData + [HospitalPatientData(hospital.id, hospital.name,
          KdbagianOrEmpty(hospital), totalPatients, date, mappedData)];
      }
    }
  }

  /** The success body: `data`, and `meta` with the day, the record count and the
      URL queried. */
  datatype Response = Response(data: seq<HospitalPatientData>, date: string, totalRecords: nat,
                               apiUrl: string)

  /** The handler. `today` is the server's current day; `hospitals` is what
      `getAllHospitals` returned or threw. An `Err` is the 500 error it raises. */
  method Handle(queryDate: Option<string>, today: string, fetched: Fetched,
                hospitals: Result<seq<HospitalRow>>)
    returns (r: Result<Response>)
    ensures var target := TargetDate(queryDate, today);
      && (fetched.NotOk? ==>
            r == Err("Failed to fetch from patient API: " + NatToString(fetched.status) + " "
                     + fetched.statusText))
      && (fetched.FetchThrew? ==> r == Err(MessageOr(fetched.message, DEFAULT_ERROR)))
      && (fetched.Body? && !fetched.body.Records? ==> r == Err(INVALID_RESPONSE))
      && (fetched.Body? && fetched.body.Records? && hospitals.Err? ==>
            r == Err(MessageOr(hospitals.message, DEFAULT_ERROR)))
      && (r.Ok? <==> fetched.Body? && fetched.body.Records? && hospitals.Ok?)
      && (r.Ok? ==>
            && r.value.date == target
            && r.value.apiUrl == ApiUrl(target, target)
            && r.value.totalRecords == |fetched.body.records|
            && |r.value.data| == |hospitals.value|
            && forall i :: 0 <= i < |hospitals.value| ==>
                 r.value.data[i] == PatientDataFor(hospitals.value[i], fetched.body.records, target))
  {
    var targetDate := TargetDate(queryDate, today);
    var startDate := targetDate;
    var endDate := targetDate;
    var apiUrl := ApiUrl(startDate, endDate);
    match fetched {
      case NotOk(status, statusText) =>
        return Err("Failed to fetch from patient API: " + NatToString(status) + " " + statusText);
      case FetchThrew(message) =>
        return Err(MessageOr(message, DEFAULT_ERROR));
      case Body(body) =>
        if !body.Records? {
          return Err(INVALID_RESPONSE);
        }
        var data := body.records;
        match hospitals {
          case Err(message) =>
            return Err(MessageOr(message, DEFAULT_ERROR));
          case Ok(rows) =>
            var hospitalData := BuildHospitalData(rows, data, targetDate);
            return Ok(Response(hospitalData, targetDate, |data|, apiUrl));
        }
    }
  }
}
