/** The external patient-count records and the per-hospital filters and sums that
    both patient endpoints apply to them (src/server/api/patients/realtime.get.ts,
    src/server/api/patients/sync.post.ts). */
module PatientRecords {
  import opened Common

  /** One record of the external API: a department (`kdbagian`), its name, the
      day (`tanggal`) and the number of patients (`jumlah`). */
  datatype PatientRecord = PatientRecord(kdbagian: string, bagian: string, tanggal: string, jumlah: int)

  /** A hospital row as the handlers read it; `kdbagian` and `bagian_mapping`
      may be missing. */
  datatype HospitalRow = HospitalRow(id: string, name: string, kdbagian: Option<string>,
                                     bagianMapping: Option<seq<string>>)

  /** One entry of the realtime response. */
  datatype HospitalPatientData = HospitalPatientData(hospitalCode: string, hospitalName: string,
                                                     kdbagian: string, totalPatients: int,
                                                     date: string, breakdown: seq<PatientRecord>)

  /** The body of the external response: an array of records, `null`, or some
      other non-array value (taken to be an object without `length`). */
  datatype Body = Records(records: seq<PatientRecord>) | NullBody | OtherBody

  /** What fetching the external API gave: a non-2xx status, a throw (from
      `fetch` or from reading the JSON), or a parsed body. */
  datatype Fetched = NotOk(status: nat, statusText: string) | FetchThrew(message: string) | Body(body: Body)

  const API_PREFIX: string := "https://bendanpublic.pekalongankota.go.id/ipsrs/"

  /** The external query for the days `start` to `end`. */
  function ApiUrl(start: string, end: string): (url: string)
    ensures |url| == |API_PREFIX| + |start| + 1 + |end|
    ensures url[..|API_PREFIX|] == API_PREFIX
    ensures url[|API_PREFIX|..|API_PREFIX| + |start|] == start
    ensures url[|API_PREFIX| + |start|] == '/'
    ensures url[|API_PREFIX| + |start| + 1..] == end
  {
    API_PREFIX + start + "/" + end
  }

  /** A non-empty `bagian_mapping`. */
  predicate HasMapping(h: HospitalRow)
  {
    h.bagianMapping.Some? && |h.bagianMapping.value| > 0
  }

  /** The realtime filter for one hospital: a department in the mapping when there
      is one, otherwise exactly the hospital's `kdbagian` (`===`, so a missing one
      matches nothing); and in both cases the day asked for. */
  predicate Matches(h: HospitalRow, date: string, r: PatientRecord)
  {
    && r.tanggal == date
    && (if HasMapping(h) then r.kdbagian in h.bagianMapping.value else h.kdbagian == Some(r.kdbagian))
  }

  /** `data.filter(...)` with the realtime filter, in record order. */
  function Breakdown(records: seq<PatientRecord>, h: HospitalRow, date: string): (r: seq<PatientRecord>)
    ensures |r| <= |records|
  {
    if records == [] then []
    else Breakdown(records[..|records| - 1], h, date)
         + (if Matches(h, date, records[|records| - 1]) then [records[|records| - 1]] else [])
  }

  /** The breakdown holds exactly the matching records. */
  lemma {:induction false} BreakdownMembers(records: seq<PatientRecord>, h: HospitalRow, date: string)
    ensures forall r :: r in Breakdown(records, h, date) <==> r in records && Matches(h, date, r)
  {
    if records != [] {
      var init := records[..|records| - 1];
      BreakdownMembers(init, h, date);
      assert records == init + [records[|records| - 1]];
    }
  }

  /** A hospital with neither a mapping nor a `kdbagian` matches no record. */
  lemma {:induction false} BreakdownUnmatched(records: seq<PatientRecord>, h: HospitalRow, date: string)
    requires !HasMapping(h) && h.kdbagian.None?
    ensures Breakdown(records, h, date) == []
  {
    if records != [] {
      BreakdownUnmatched(records[..|records| - 1], h, date);
    }
  }

  /** The breakdown keeps the records' order: it is the matching records of any
      prefix followed by those of the rest. */
  lemma {:induction false} BreakdownAppend(a: seq<PatientRecord>, b: seq<PatientRecord>, h: HospitalRow,
                                           date: string)
    ensures Breakdown(a + b, h, date) == Breakdown(a, h, date) + Breakdown(b, h, date)
  {
    if b != [] {
      var init := b[..|b| - 1];
      BreakdownAppend(a, init, h, date);
      assert (a + b)[..|a + b| - 1] == a + init;
    } else {
      assert a + b == a;
    }
  }

  /** `reduce((sum, item) => sum + item.jumlah, 0)`. */
  function SumJumlah(rs: seq<PatientRecord>): int
  {
    if rs == [] then 0 else SumJumlah(rs[..|rs| - 1]) + rs[|rs| - 1].jumlah
  }

  lemma {:induction false} SumJumlahAppend(a: seq<PatientRecord>, b: seq<PatientRecord>)
    ensures SumJumlah(a + b) == SumJumlah(a) + SumJumlah(b)
  {
    if b != [] {
      var init := b[..|b| - 1];
      SumJumlahAppend(a, init);
      assert (a + b)[..|a + b| - 1] == a + init;
    } else {
      assert a + b == a;
    }
  }

  /** Counts of patients are never negative, and neither is their sum. */
  lemma {:induction false} SumJumlahNonNegative(rs: seq<PatientRecord>)
    requires forall i :: 0 <= i < |rs| ==> rs[i].jumlah >= 0
    ensures SumJumlah(rs) >= 0
  {
    if rs != [] {
      SumJumlahNonNegative(rs[..|rs| - 1]);
    }
  }

  /** `hospital.kdbagian` is truthy. */
  predicate HasKdbagian(h: HospitalRow)
  {
    h.kdbagian.Some? && h.kdbagian.value != ""
  }

  /** `hospital.kdbagian || ''`. */
  function KdbagianOrEmpty(h: HospitalRow): (k: string)
    ensures HasKdbagian(h) ==> k == h.kdbagian.value
    ensures !HasKdbagian(h) ==> k == ""
  {
    if h.kdbagian.Some? && h.kdbagian.value != "" then h.kdbagian.value else ""
  }
}
