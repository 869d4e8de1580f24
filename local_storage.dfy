/** The browser's backup of MQTT readings in `localStorage` and its sync to the
    server (src/composables/useLocalStorage.ts). */
module LocalStorage {
  import opened Common
  import opened SeqUtil
  import Grouping

  const STORAGE_KEY: string := "hospital_mqtt_data"
  const MAX_STORAGE_ITEMS: nat := 100

  /** `StoredMqttData`; `ph` is optional. */
  datatype StoredItem = StoredItem(hospitalCode: string, electricity: real, water: real,
                                   pasien: real, ph: Option<real>, timestamp: int)

  /** What `localStorage.getItem(STORAGE_KEY)` yields: nothing (or an empty string),
      text that does not parse (or a read that throws), or a stored array. */
  datatype Slot = Absent | Unreadable | Stored(items: seq<StoredItem>)

  function CodeOf(item: StoredItem): string { item.hospitalCode }

  // ---------------------------------------------------------------------------
  // Reading and querying
  // ---------------------------------------------------------------------------

  /** `getStoredData`: the stored array, or `[]` without a window, without the
      key, or when reading or parsing fails. */
  function ReadItems(hasWindow: bool, slot: Slot): (r: seq<StoredItem>)
    ensures hasWindow && slot.Stored? ==> r == slot.items
    ensures !hasWindow || !slot.Stored? ==> r == []
  {
    if hasWindow then (if slot.Stored? then slot.items else []) else []
  }

  /** `getStoredDataForHospital`: exactly the items with that code; long as the
      whole store at most. */
  function ForHospital(items: seq<StoredItem>, code: string): (r: seq<StoredItem>)
    ensures |r| <= |items|
    ensures forall x :: x in r <==> x in items && x.hospitalCode == code
    ensures forall x :: multiset(r)[x] == (if x.hospitalCode == code then multiset(items)[x] else 0)
  {
    Grouping.WithKeyMembers(items, CodeOf, code);
    Grouping.WithKeyMultiset(items, CodeOf, code);
    Grouping.WithKey(items, CodeOf, code)
  }

  /** The filter keeps stored order: the items of a hospital in `a + b` are
      its items in `a` followed by its items in `b`. */
  lemma ForHospitalAppend(a: seq<StoredItem>, b: seq<StoredItem>, code: string)
    ensures ForHospital(a + b, code) == ForHospital(a, code) + ForHospital(b, code)
  {
    Grouping.WithKeyAppend(a, b, CodeOf, code);
  }

  /** `getLatestStoredData`: the last item with that code, or the last item
      overall when the code is absent or empty (`''` is falsy); `null` when
      there is none. */
  function Latest(items: seq<StoredItem>, code: Option<string>): (r: Option<StoredItem>)
    ensures code.Some? && code.value != "" ==>
      && (r.None? <==> forall x :: x in items ==> x.hospitalCode != code.value)
      && (r.Some? ==>
            var j := Grouping.LastIndexOfKey(items, CodeOf, code.value);
            0 <= j && r.value == items[j] && r.value.hospitalCode == code.value)
    ensures (code.None? || code.value == "") ==>
      && (r.None? <==> items == [])
      && (r.Some? ==> r.value == items[|items| - 1])
  {
    var data := if code.Some? && code.value != "" then ForHospital(items, code.value) else items;
    if code.Some? && code.value != "" then
      Grouping.GroupLast(items, CodeOf, code.value);
      if |data| > 0 then Some(data[|data| - 1]) else None
    else
      if |data| > 0 then Some(data[|data| - 1]) else None
  }

  // ---------------------------------------------------------------------------
  // Writing
  // ---------------------------------------------------------------------------

  /** `push` and `splice(0, length - MAX_STORAGE_ITEMS)`: what a store writes. */
  function AfterStore(current: seq<StoredItem>, added: seq<StoredItem>): seq<StoredItem>
  {
    KeepNewest(current + added, MAX_STORAGE_ITEMS)
  }

  /** A store keeps at most 100 items, newest last, in their order; nothing is
      dropped until the limit is passed, and then only the oldest go. */
  lemma {:induction false} AfterStoreMeaning(current: seq<StoredItem>, added: seq<StoredItem>)
    ensures var r := AfterStore(current, added);
      && |r| <= MAX_STORAGE_ITEMS
      && (|current| + |added| <= MAX_STORAGE_ITEMS ==> r == current + added)
      && (|added| <= MAX_STORAGE_ITEMS ==> r[|r| - |added|..] == added)
      && (|added| >= MAX_STORAGE_ITEMS ==> r == added[|added| - MAX_STORAGE_ITEMS..])
  {
    var all := current + added;
    var r := AfterStore(current, added);
    if |added| <= MAX_STORAGE_ITEMS {
      assert r[|r| - |added|..] == all[|all| - |added|..];
      assert all[|all| - |added|..] == added;
    }
    if |added| >= MAX_STORAGE_ITEMS {
      assert all[|all| - MAX_STORAGE_ITEMS..] == added[|added| - MAX_STORAGE_ITEMS..];
    }
  }

  // ---------------------------------------------------------------------------
  // Sync to the server
  // ---------------------------------------------------------------------------

  /** The body of one `POST /api/save-data`. */
  datatype SaveRequest = SaveRequest(hospitalCode: string, electricity: real, water: real,
                                     pasien: real, ph: Option<real>)

  /** What awaiting one request gives: a response with its `success` flag, or a throw. */
  datatype Reply = Replied(success: bool) | Threw

  /** The request for one hospital's group: its latest item. */
  function RequestFor(g: Grouping.Group<StoredItem>): SaveRequest
    requires g.items != []
  {
    var latest := g.items[|g.items| - 1];
    SaveRequest(g.key, latest.electricity, latest.water, latest.pasien, latest.ph)
  }

  /** The requests one sync sends, in order. */
  function SyncPlan(items: seq<StoredItem>): seq<SaveRequest>
  {
    var groups := Grouping.GroupBy(items, CodeOf);
    seq(|groups|, i requires 0 <= i < |groups| => RequestFor(groups[i]))
  }

  /** One request per distinct hospital code, none for an empty store, each
      carrying that code's last stored item (including its own pH). */
  lemma {:induction false} SyncPlanMeaning(items: seq<StoredItem>)
    ensures var reqs := SyncPlan(items);
      && (items == [] <==> reqs == [])
      && (forall i, j :: 0 <= i < j < |reqs| ==> reqs[i].hospitalCode != reqs[j].hospitalCode)
      && (forall k :: 0 <= k < |items| ==>
            exists i :: 0 <= i < |reqs| && reqs[i].hospitalCode == items[k].hospitalCode)
      && (forall i :: 0 <= i < |reqs| ==>
            var j := Grouping.LastIndexOfKey(items, CodeOf, reqs[i].hospitalCode);
            && 0 <= j
            && items[j].hospitalCode == reqs[i].hospitalCode
            && reqs[i] == SaveRequest(items[j].hospitalCode, items[j].electricity,
                                      items[j].water, items[j].pasien, items[j].ph))
  {
    Grouping.GroupByLatest(items, CodeOf);
    var reqs := SyncPlan(items);
    var groups := Grouping.GroupBy(items, CodeOf);
    forall i | 0 <= i < |reqs|
      ensures var j := Grouping.LastIndexOfKey(items, CodeOf, reqs[i].hospitalCode);
        && 0 <= j
        && items[j].hospitalCode == reqs[i].hospitalCode
        && reqs[i] == SaveRequest(items[j].hospitalCode, items[j].electricity,
                                  items[j].water, items[j].pasien, items[j].ph)
    {
      assert Grouping.EndsWithLatest(items, CodeOf, groups[i]);
    }
    forall k | 0 <= k < |items|
      ensures exists i :: 0 <= i < |reqs| && reqs[i].hospitalCode == items[k].hospitalCode
    {
      assert items[k] in items;
      var i :| 0 <= i < |groups| && Grouping.Keys(groups)[i] == CodeOf(items[k]);
      assert reqs[i].hospitalCode == groups[i].key;
    }
  }

  /** `syncCount`: the requests answered with `success` true. */
  function CountSynced(reqs: seq<SaveRequest>, respond: SaveRequest -> Reply): (n: nat)
    ensures n <= |reqs|
  {
    if reqs == [] then 0
    else CountSynced(reqs[..|reqs| - 1], respond)
         + (if respond(reqs[|reqs| - 1]) == Replied(true) then 1 else 0)
  }

  /** `errorCount`: the requests that threw. */
  function CountErrors(reqs: seq<SaveRequest>, respond: SaveRequest -> Reply): (n: nat)
    ensures n <= |reqs|
  {
    if reqs == [] then 0
    else CountErrors(reqs[..|reqs| - 1], respond)
         + (if respond(reqs[|reqs| - 1]).Threw? then 1 else 0)
  }

  /** A response with `success` false counts as neither synced nor an error, so the
      two counters cover every request exactly when no response says false; and
      nothing was synced exactly when every request threw or was refused. */
  lemma {:induction false} CountsMeaning(reqs: seq<SaveRequest>, respond: SaveRequest -> Reply)
    ensures CountSynced(reqs, respond) + CountErrors(reqs, respond) <= |reqs|
    ensures CountSynced(reqs, respond) + CountErrors(reqs, respond) == |reqs|
        <==> forall i :: 0 <= i < |reqs| ==> respond(reqs[i]) != Replied(false)
    ensures CountSynced(reqs, respond) == 0
        <==> forall i :: 0 <= i < |reqs| ==> respond(reqs[i]) != Replied(true)
  {
    if reqs != [] {
      var init := reqs[..|reqs| - 1];
      CountsMeaning(init, respond);
      assert forall i :: 0 <= i < |init| ==> init[i] == reqs[i];
    }
  }

  /** The `for` loop of the sync: one awaited request per hospital, each counted
      as synced, as an error, or (when refused) not at all. */
  method SendRequests(reqs: seq<SaveRequest>, respond: SaveRequest -> Reply)
    returns (syncCount: nat, errorCount: nat)
    ensures syncCount == CountSynced(reqs, respond)
    ensures errorCount == CountErrors(reqs, respond)
  {
    syncCount, errorCount := 0, 0;
    var i := 0;
    while i < |reqs|
      invariant 0 <= i <= |reqs|
      invariant syncCount == CountSynced(reqs[..i], respond)
      invariant errorCount == CountErrors(reqs[..i], respond)
    {
      assert reqs[..i + 1][..i] == reqs[..i];
      match respond(reqs[i]) {
        case Replied(success) =>
          if success {
            syncCount := syncCount + 1;
          }
        case Threw =>
          errorCount := errorCount + 1;
      }
      i := i + 1;
    }
    assert reqs[..i] == reqs;
  }

  /** What a sync of `items` returns, and whether it clears the store. */
  datatype SyncOutcome = SyncOutcome(result: bool, clears: bool)

  function SyncResult(items: seq<StoredItem>, respond: SaveRequest -> Reply): SyncOutcome
  {
    var reqs := SyncPlan(items);
    if items == [] then SyncOutcome(true, false)
    else
      var synced := CountSynced(reqs, respond);
      var errors := CountErrors(reqs, respond);
      SyncOutcome(synced > 0, synced > 0 && errors == 0)
  }

  /** The sync rule: an empty store syncs trivially and is left alone; otherwise the
      store is cleared exactly when some request succeeded and none threw, and the
      sync reports success exactly when some request succeeded. */
  lemma SyncResultMeaning(items: seq<StoredItem>, respond: SaveRequest -> Reply)
    ensures items == [] ==> SyncResult(items, respond) == SyncOutcome(true, false)
    ensures items != [] ==>
      (SyncResult(items, respond).result <==> SomeSucceeded(SyncPlan(items), respond))
    ensures items != [] ==>
      (SyncResult(items, respond).clears <==>
         SomeSucceeded(SyncPlan(items), respond) && NoneThrew(SyncPlan(items), respond))
  {
    var reqs := SyncPlan(items);
    CountsMeaning(reqs, respond);
    NoErrorsMeaning(reqs, respond);
  }

  /** Some request was answered with `success` true. */
  ghost predicate SomeSucceeded(reqs: seq<SaveRequest>, respond: SaveRequest -> Reply)
  {
    exists i :: 0 <= i < |reqs| && respond(reqs[i]) == Replied(true)
  }

  /** No request threw. */
  ghost predicate NoneThrew(reqs: seq<SaveRequest>, respond: SaveRequest -> Reply)
  {
    forall i :: 0 <= i < |reqs| ==> !respond(reqs[i]).Threw?
  }

  lemma {:induction false} NoErrorsMeaning(reqs: seq<SaveRequest>, respond: SaveRequest -> Reply)
    ensures CountErrors(reqs, respond) == 0 <==> forall i :: 0 <= i < |reqs| ==> !respond(reqs[i]).Threw?
  {
    if reqs != [] {
      var init := reqs[..|reqs| - 1];
      NoErrorsMeaning(init, respond);
      assert forall i :: 0 <= i < |init| ==> init[i] == reqs[i];
    }
  }

  /** `startAutoSync`: the interval in milliseconds, ten minutes unless given.
      It converts back to the minutes given. */
  function AutoSyncIntervalMs(intervalMinutes: real := 10.0): (ms: real)
    ensures ms / 60000.0 == intervalMinutes
    ensures intervalMinutes > 0.0 ==> ms > 0.0
  {
    intervalMinutes * 60.0 * 1000.0
  }

  lemma AutoSyncDefault()
    ensures AutoSyncIntervalMs() == 600000.0
  {
  }

  // ---------------------------------------------------------------------------
  // The store as mutable state
  // ---------------------------------------------------------------------------

  class BackupStore {
    /** `typeof window !== 'undefined'`: fixed for the life of the page. */
    const hasWindow: bool
    /** The value under `STORAGE_KEY`. */
    var slot: Slot

    constructor (hasWindow: bool, slot: Slot)
      ensures this.hasWindow == hasWindow && this.slot == slot
    {
      this.hasWindow := hasWindow;
      this.slot := slot;
    }

    function GetStoredData(): (r: seq<StoredItem>)
      reads this
      ensures r != [] ==> hasWindow && slot == Stored(r)
    {
      ReadItems(hasWindow, slot)
    }

    function GetStoredDataCount(): (n: nat)
      reads this
      ensures n == |GetStoredData()|
      ensures n == 0 <==> (!hasWindow || !slot.Stored? || slot.items == [])
    {
      |GetStoredData()|
    }

    function GetStoredDataForHospital(code: string): (r: seq<StoredItem>)
      reads this
      ensures forall x :: x in r <==> x in GetStoredData() && x.hospitalCode == code
      ensures forall x :: multiset(r)[x] == (if x.hospitalCode == code then multiset(GetStoredData())[x] else 0)
    {
      ForHospital(GetStoredData(), code)
    }

    function GetLatestStoredData(code: Option<string>): (r: Option<StoredItem>)
      reads this
      ensures r == Latest(GetStoredData(), code)
      ensures (code.None? || code.value == "") ==>
        r == (if GetStoredData() == [] then None else Some(GetStoredData()[|GetStoredData()| - 1]))
      ensures r.Some? ==> r.value in GetStoredData()
      ensures r.None? <==>
        if code.Some? && code.value != "" then GetStoredDataForHospital(code.value) == []
        else GetStoredData() == []
    {
      var items := GetStoredData();
      if code.Some? && code.value != "" then
        assert forall x :: x in ForHospital(items, code.value) <==> x in items && x.hospitalCode == code.value;
        var r := Latest(items, code);
        assert r.None? <==> ForHospital(items, code.value) == [] by {
          if ForHospital(items, code.value) != [] {
            var x := ForHospital(items, code.value)[0];
            assert x in ForHospital(items, code.value);
          }
        }
        r
      else
        Latest(items, code)
    }

    /** `storeData`: append one item and keep the newest 100. */
    method StoreData(item: StoredItem)
      modifies this
      ensures hasWindow ==> slot == Stored(AfterStore(old(GetStoredData()), [item]))
      ensures !hasWindow ==> slot == old(slot)
      ensures hasWindow ==> |GetStoredData()| <= MAX_STORAGE_ITEMS
    {
      if !hasWindow {
        return;
      }
      var currentData := GetStoredData();
      currentData := currentData + [item];
      if |currentData| > MAX_STORAGE_ITEMS {
        currentData := currentData[|currentData| - MAX_STORAGE_ITEMS..];
      }
      slot := Stored(currentData);
    }

    /** `bulkStoreData`: append all items and keep the newest 100; an empty batch
        writes nothing. */
    method BulkStoreData(dataArray: seq<StoredItem>)
      modifies this
      ensures hasWindow && dataArray != [] ==> slot == Stored(AfterStore(old(GetStoredData()), dataArray))
      ensures !hasWindow || dataArray == [] ==> slot == old(slot)
      ensures hasWindow && dataArray != [] ==> |GetStoredData()| <= MAX_STORAGE_ITEMS
    {
      if !hasWindow || |dataArray| == 0 {
        return;
      }
      var currentData := GetStoredData();
      currentData := currentData + dataArray;
      if |currentData| > MAX_STORAGE_ITEMS {
        currentData := currentData[|currentData| - MAX_STORAGE_ITEMS..];
      }
      slot := Stored(currentData);
    }

    /** `clearStoredData`: remove the key. */
    method ClearStoredData()
      modifies this
      ensures hasWindow ==> slot == Absent
      ensures !hasWindow ==> slot == old(slot)
      ensures GetStoredData() == []
    {
      if !hasWindow {
        return;
      }
      slot := Absent;
    }

    /** `syncStoredDataToServer`; `respond` stands for the server's answer to each
        request. Returns the result and the requests sent. */
    method SyncStoredDataToServer(respond: SaveRequest -> Reply)
      returns (result: bool, sent: seq<SaveRequest>)
      modifies this
      ensures sent == SyncPlan(old(GetStoredData()))
      ensures result == SyncResult(old(GetStoredData()), respond).result
      ensures slot == (if SyncResult(old(GetStoredData()), respond).clears then Absent else old(slot))
    {
      var storedData := GetStoredData();
      if |storedData| == 0 {
        return true, [];
      }
      var dataByHospital := Grouping.GroupBy(storedData, CodeOf);
      sent := seq(|dataByHospital|, i requires 0 <= i < |dataByHospital| => RequestFor(dataByHospital[i]));
      var syncCount, errorCount := SendRequests(sent, respond);
      if syncCount > 0 && errorCount == 0 {
        ClearStoredData();
        return true, sent;
      }
      result := syncCount > 0;
    }
  }
}
