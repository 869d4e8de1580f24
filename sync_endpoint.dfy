/** `POST /api/patients/sync`: today's total per hospital, saved when it is
    positive or the sync is forced (src/server/api/patients/sync.post.ts). */
module SyncEndpoint {
  import opened Common
  import opened PatientRecords
  import RealtimeEndpoint
  import SeqUtil

  const DEFAULT_ERROR: string := "Failed to sync patient data"
  /** What Node's engine throws for `data.length` on a `null` body. */
  const NULL_LENGTH_ERROR: string := "Cannot read properties of null (reading 'length')"

  /** `query.force === 'true'`. */
  predicate ForceSync(force: Option<string>)
  {
    force == Some("true")
  }

  /** The per-hospital total: the mapped departments' sum, else the exact
      department's sum when `kdbagian` is set, else 0. `None` when computing it
      throws, which `filter` on a non-array body does. */
  function TotalFor(h: HospitalRow, body: Body, today: string): (t: Option<int>)
    requires !body.NullBody?
    ensures body.Records? ==> t.Some?
    ensures body.Records? && (HasMapping(h) || HasKdbagian(h)) ==>
      t == Some(SumJumlah(Breakdown(body.records, h, today)))
    ensures !HasMapping(h) && !HasKdbagian(h) ==> t == Some(0)
    ensures body.OtherBody? && (HasMapping(h) || HasKdbagian(h)) ==> t.None?
  {
    if HasMapping(h) then
      (if body.Records? then Some(SumJumlah(Breakdown(body.records, h, today))) else None)
    else if HasKdbagian(h) then
      (if body.Records? then Some(SumJumlah(Breakdown(body.records, h, today))) else None)
    else Some(0)
  }

  /** Both endpoints compute the same total for a hospital, except that the
      realtime one also matches records of an empty department code when the
      hospital's `kdbagian` is `''`. */
  lemma TotalAgreesWithRealtime(h: HospitalRow, records: seq<PatientRecord>, today: string)
    requires HasMapping(h) || h.kdbagian != Some("")
    ensures TotalFor(h, Records(records), today)
            == Some(RealtimeEndpoint.PatientDataFor(h, records, today).totalPatients)
  {
    if !HasMapping(h) && !HasKdbagian(h) {
      RealtimeEndpoint.PatientDataForMeaning(h, records, today);
    }
  }

  /** The exception: a record of department `''` counts for the realtime view of
      a hospital whose `kdbagian` is `''`, but not for its sync. */
  lemma EmptyKdbagianDiffers(today: string)
    ensures var h := HospitalRow("rs-a", "A", Some(""), None);
      var records := [PatientRecord("", "", today, 3)];
      && TotalFor(h, Records(records), today) == Some(0)
      && RealtimeEndpoint.PatientDataFor(h, records, today).totalPatients == 3
  {
    var h := HospitalRow("rs-a", "A", Some(""), None);
    var r := PatientRecord("", "", today, 3);
    var records := [r];
    assert Matches(h, today, r);
    assert records[..0] == [];
    assert Breakdown(records, h, today) == Breakdown([], h, today) + [r];
    assert SumJumlah([r]) == SumJumlah([]) + 3;
  }

  /** One call of `saveRealTimePatientData(id, total, today)`. */
  datatype PatientSave = PatientSave(hospitalCode: string, totalPatients: int, date: string)

  /** The save the loop attempts for `h`, if any: only when its total could be
      computed and is positive, or the sync is forced. */
  function AttemptFor(h: HospitalRow, body: Body, today: string, forceSync: bool): (a: Option<PatientSave>)
    requires !body.NullBody?
    ensures a.Some? <==> TotalFor(h, body, today).Some?
                         && (TotalFor(h, body, today).value > 0 || forceSync)
    ensures a.Some? ==> a.value == PatientSave(h.id, TotalFor(h, body, today).value, today)
  {
    match TotalFor(h, body, today)
    case None => None
    case Some(t) => if t > 0 || forceSync then Some(PatientSave(h.id, t, today)) else None
  }

  /** The saves attempted for `hospitals`, in order. */
  function Attempts(hospitals: seq<HospitalRow>, body: Body, today: string, forceSync: bool): seq<PatientSave>
    requires !body.NullBody?
  {
    if hospitals == [] then []
    else
      var prev := Attempts(hospitals[..|hospitals| - 1], body, today, forceSync);
      match AttemptFor(hospitals[|hospitals| - 1], body, today, forceSync)
      case None => prev
      case Some(a) => prev + [a]
  }

  /** A save is attempted exactly for the hospitals whose total is positive or,
      under force, for every hospital whose total could be computed. */
  lemma {:induction false} AttemptsMeaning(hospitals: seq<HospitalRow>, body: Body, today: string,
                                           forceSync: bool)
    requires !body.NullBody?
    ensures |Attempts(hospitals, body, today, forceSync)| <= |hospitals|
    ensures forall a :: a in Attempts(hospitals, body, today, forceSync) <==>
      exists i :: 0 <= i < |hospitals| && AttemptFor(hospitals[i], body, today, forceSync) == Some(a)
  {
    if hospitals != [] {
      var init := hospitals[..|hospitals| - 1];
      AttemptsMeaning(init, body, today, forceSync);
      forall a ensures a in Attempts(hospitals, body, today, forceSync) <==>
        exists i :: 0 <= i < |hospitals| && AttemptFor(hospitals[i], body, today, forceSync) == Some(a)
      {
        if a in Attempts(hospitals, body, today, forceSync) && a !in Attempts(init, body, today, forceSync) {
          assert AttemptFor(hospitals[|hospitals| - 1], body, today, forceSync) == Some(a);
        }
        if exists i :: 0 <= i < |hospitals| && AttemptFor(hospitals[i], body, today, forceSync) == Some(a) {
          var i :| 0 <= i < |hospitals| && AttemptFor(hospitals[i], body, today, forceSync) == Some(a);
          if i < |init| {
            assert init[i] == hospitals[i];
          }
        }
      }
    }
  }

  /** The hospital a save is for; the saves that throw are those whose code is in `failing`. */
  function SaveCode(s: PatientSave): string { s.hospitalCode }

  /** The `for` loop over the hospitals: each total computed and, when it is worth
      saving, saved inside its own `try`. `failing` holds the hospital codes whose
      save throws. */
  method SaveHospitals(hospitals: seq<HospitalRow>, body: Body, today: string, forceSync: bool,
                       failing: set<string>)
    returns (attempted: seq<PatientSave>, savedCount: nat)
    requires !body.NullBody?
    ensures attempted == Attempts(hospitals, body, today, forceSync)
    ensures savedCount == SeqUtil.Succeeded(attempted, SaveCode, failing)
  {
    attempted, savedCount := [], 0;
    var i := 0;
    while i < |hospitals|
      invariant 0 <= i <= |hospitals|
      invariant attempted == Attempts(hospitals[..i], body, today, forceSync)
      invariant savedCount == SeqUtil.Succeeded(attempted, SaveCode, failing)
    {
      assert hospitals[..i + 1][..i] == hospitals[..i];
      var hospital := hospitals[i];
      var totalPatients := 0;
      var threw := false;
      if HasMapping(hospital) {
        if body.Records? {
          var mappedData := Breakdown(body.records, hospital, today);
          totalPatients := SumJumlah(mappedData);
        } else {
          threw := true;
        }
      } else if HasKdbagian(hospital) {
        if body.Records? {
          var exactMatch := Breakdown(body.records, hospital, today);
          totalPatients := SumJumlah(exactMatch);
        } else {
          threw := true;
        }
      }
      if !threw && (totalPatients > 0 || forceSync) {
        var save := PatientSave(hospital.id, totalPatients, today);
        SeqUtil.SucceededSnoc(attempted, save, SaveCode, failing);
        attempted := attempted + [save];
        if hospital.id !in failing {
          savedCount := savedCount + 1;
        }
      }
      i := i + 1;
    }
    assert hospitals[..i] == hospitals;
  }

  /** The success body. `totalRecords` is `data.length`, undefined for a
      non-array object. */
  datatype Summary = Summary(message: string, date: string, hospitalsProcessed: nat,
                             hospitalsSaved: nat, totalRecords: Option<nat>)

  /** The handler. `today` is the server's current day; `hospitals` is what
      `getAllHospitals` returned or threw; `failing` the codes whose save throws. */
  method Handle(force: Option<string>, today: string, fetched: Fetched,
                hospitals: Result<seq<HospitalRow>>, failing: set<string>)
    returns (r: Result<Summary>, attempted: seq<PatientSave>)
    ensures fetched.NotOk? ==> r == Err("Failed to fetch from patient API: " + NatToString(fetched.status))
    ensures fetched.FetchThrew? ==> r == Err(MessageOr(fetched.message, DEFAULT_ERROR))
    ensures fetched.Body? && fetched.body.NullBody? ==> r == Err(NULL_LENGTH_ERROR)
    ensures fetched.Body? && !fetched.body.NullBody? && hospitals.Err? ==>
      r == Err(MessageOr(hospitals.message, DEFAULT_ERROR))
    ensures r.Ok? <==> fetched.Body? && !fetched.body.NullBody? && hospitals.Ok?
    ensures r.Err? ==> attempted == []
    ensures r.Ok? ==>
      && attempted == Attempts(hospitals.value, fetched.body, today, ForceSync(force))
      && r.value.date == today
      && r.value.hospitalsProcessed == |hospitals.value|
      && r.value.hospitalsSaved == SeqUtil.Succeeded(attempted, SaveCode, failing)
      && r.value.message == "Synchronized patient data for " + NatToString(r.value.hospitalsSaved) + " hospitals"
      && r.value.totalRecords == (if fetched.body.Records? then Some(|fetched.body.records|) else None)
  {
    var forceSync := ForceSync(force);
    attempted := [];
    match fetched {
      case NotOk(status, _) =>
        return Err("Failed to fetch from patient API: " + NatToString(status)), [];
      case FetchThrew(message) =>
        return Err(MessageOr(message, DEFAULT_ERROR)), [];
      case Body(data) =>
        if data.NullBody? {
          return Err(NULL_LENGTH_ERROR), [];
        }
        match hospitals {
          case Err(message) =>
            return Err(MessageOr(message, DEFAULT_ERROR)), [];
          case Ok(rows) =>
            var savedCount;
            attempted, savedCount := SaveHospitals(rows, data, today, forceSync, failing);
            var totalRecords := if data.Records? then Some(|data.records|) else None;
            r := Ok(Summary("Synchronized patient data for " + NatToString(savedCount) + " hospitals",
                            today, |rows|, savedCount, totalRecords));
        }
    }
  }
}
