/** The dashboard's MQTT session in the browser: connection status, message
    validation, hospital selection and the local backup of readings
    (src/composables/useMqtt.ts). */
module BrowserMqtt {
  import opened Common
  import opened Payload
  import LocalStorage
  import MqttDatabase

  /** A selectable hospital; `isActive` says whether its data is available. */
  datatype Hospital = Hospital(id: string, name: string, topic: string, isActive: bool)

  /** The three hospital readings of a message, after normalisation. */
  datatype Reading = Reading(electricity: real, water: real, pasien: real)

  /** `mqttData`: the latest readings of the current hospital and when they came. */
  datatype LiveData = LiveData(electricity: real, water: real, pasien: real, timestamp: int)

  /** `phData`: the global pH sensor. */
  datatype PhData = PhData(ph: real, timestamp: int)

  const NO_HOSPITAL: Hospital := Hospital("", "", "", false)

  /** The list installed when loading hospitals throws. */
  const FALLBACK_HOSPITALS: seq<Hospital> := [
    Hospital("rs-a", "RSUD Bendan - Ruang Jlamprang", "/ruangMawar", true),
    Hospital("rs-b", "RSUD Bendan - Ruang Truntum", "/ruangMelati", true)
  ]

  const PH_TOPIC: string := "/ph"

  const CONNECTING: string := "Connecting..."
  const CONNECTED: string := "Connected"
  const ERROR: string := "Error"
  const DISCONNECTED: string := "Disconnected"
  const OFFLINE: string := "Offline"
  const RECONNECTING: string := "Reconnecting..."
  const FAILED: string := "Failed"

  const NOT_CONNECTED_ERROR: string := "Not connected to MQTT broker"
  const INVALID_HOSPITAL_MESSAGE: string := "Invalid hospital message format"
  const INVALID_PH_MESSAGE: string := "Invalid pH message format"

  // ---------------------------------------------------------------------------
  // Message validation
  // ---------------------------------------------------------------------------

  /** `typeof v === 'number' || v === null || v === ''`. */
  predicate Acceptable(v: Value)
  {
    v.JNum? || v.JNull? || v == JStr("")
  }

  /** `Number(v ?? 0)` for an acceptable value: `null` and `''` give 0. */
  function Normalized(v: Value): (x: real)
    requires Acceptable(v)
    ensures v.JNum? ==> x == v.n
    ensures !v.JNum? ==> x == 0.0
  {
    if v.JNum? then v.n else 0.0
  }

  /** The hospital-message check: every one of the three fields acceptable, or
      the whole message is rejected. */
  function Validate(f: Fields): (r: Option<Reading>)
    ensures r.Some? <==> Acceptable(f.electricity) && Acceptable(f.water) && Acceptable(f.pasien)
    ensures r.Some? ==> r.value == Reading(Normalized(f.electricity), Normalized(f.water),
                                           Normalized(f.pasien))
  {
    if Acceptable(f.electricity) && Acceptable(f.water) && Acceptable(f.pasien) then
      Some(Reading(Normalized(f.electricity), Normalized(f.water), Normalized(f.pasien)))
    else None
  }

  /** Where the browser accepts a value, the server's `Number(x || 0)` reads the
      same number from it. */
  lemma NormalizedAgreesWithServer(v: Value)
    requires Acceptable(v)
    ensures MqttDatabase.NumberOrZero(v) == MqttDatabase.Finite(Normalized(v))
  {
  }

  /** The two sides differ on strings: the browser rejects `"12"` and `true`,
      which the server reads as 12 and 1. */
  lemma ValidationStricterThanServer()
    ensures Validate(Fields(JStr("12"), JNum(1.0), JNum(1.0), JUndef)).None?
    ensures Validate(Fields(JBool(true), JNum(1.0), JNum(1.0), JUndef)).None?
    ensures Validate(Fields(JUndef, JNum(1.0), JNum(1.0), JUndef)).None?
    ensures MqttDatabase.NumberOrZero(JStr("12")) == MqttDatabase.Finite(12.0)
    ensures MqttDatabase.NumberOrZero(JBool(true)) == MqttDatabase.Finite(1.0)
  {
    assert MqttDatabase.IsDigits("12");
    assert MqttDatabase.DecimalValue("12") == 12 by {
      assert "12"[..1] == "1";
    }
  }

  /** `phData.ph || undefined`: a pH of 0 is not backed up. */
  function BackupPh(ph: real): (r: Option<real>)
    ensures r.None? <==> ph == 0.0
    ensures r.Some? ==> r.value == ph
  {
    if ph != 0.0 then Some(ph) else None
  }

  // ---------------------------------------------------------------------------
  // The message handler as a function of the readout
  // ---------------------------------------------------------------------------

  /** The refs the 'message' handler writes. */
  datatype Readout = Readout(lastMessage: Option<Reading>, mqttData: LiveData, phData: PhData,
                             error: Option<string>)

  /** The new readout and the backup record to store, if any. */
  datatype Handled = Handled(readout: Readout, backup: Option<LocalStorage.StoredItem>)

  /** The 'message' handler: a message on the current hospital's topic is checked
      and normalised, one on `/ph` updates the pH, any other topic is ignored. A
      payload that does not parse sets a parse error. */
  function HandleMessage(r: Readout, current: Hospital, topic: string, msg: Inbound, now: int): Handled
  {
    if topic == current.topic then
      match msg
      case Unparsable(reason) => Handled(r.(error := Some("Parse error: " + reason)), None)
      case Parsed(f) =>
        match Validate(f)
        case None => Handled(r.(error := Some(INVALID_HOSPITAL_MESSAGE)), None)
        case Some(data) =>
          var live := LiveData(data.electricity, data.water, data.pasien, now);
          var backup :=
            if current.id != "" then
              Some(LocalStorage.StoredItem(current.id, data.electricity, data.water, data.pasien,
                                           BackupPh(r.phData.ph), now))
            else None;
          Handled(r.(lastMessage := Some(data), mqttData := live), backup)
    else if topic == PH_TOPIC then
      match msg
      case Unparsable(reason) => Handled(r.(error := Some("Parse error: " + reason)), None)
      case Parsed(f) =>
        if f.ph.JNum? then Handled(r.(phData := PhData(f.ph.n, now)), None)
        else Handled(r.(error := Some(INVALID_PH_MESSAGE)), None)
    else Handled(r, None)
  }

  /** A hospital-topic message is taken iff all three fields pass; a rejected one
      sets the error and keeps `mqttData` and `lastMessage`; the pH is never
      touched. A backup is made exactly for an accepted message while a hospital
      id is set, carrying the current pH unless it is 0. */
  lemma {:induction false} HospitalMessageMeaning(r: Readout, current: Hospital, f: Fields, now: int)
    ensures var h := HandleMessage(r, current, current.topic, Parsed(f), now);
      && h.readout.phData == r.phData
      && (Validate(f).Some? ==>
            var d := Validate(f).value;
            && h.readout.mqttData == LiveData(d.electricity, d.water, d.pasien, now)
            && h.readout.lastMessage == Some(d)
            && h.readout.error == r.error)
      && (Validate(f).None? ==>
            && h.readout == r.(error := Some(INVALID_HOSPITAL_MESSAGE))
            && h.backup.None?)
      && (h.backup.Some? <==> Validate(f).Some? && current.id != "")
      && (h.backup.Some? ==>
            var d := Validate(f).value;
            && h.backup.value == LocalStorage.StoredItem(current.id, d.electricity, d.water, d.pasien,
                                                         BackupPh(r.phData.ph), now)
            && (h.backup.value.ph.None? <==> r.phData.ph == 0.0))
  {
  }

  /** A payload on the hospital's own topic that does not parse only sets the
      parse error; nothing is shown or backed up. */
  lemma HospitalParseErrorMeaning(r: Readout, current: Hospital, reason: string, now: int)
    ensures var h := HandleMessage(r, current, current.topic, Unparsable(reason), now);
      && h.readout == r.(error := Some("Parse error: " + reason))
      && h.backup.None?
  {
  }

  /** On `/ph` (when it is not the hospital's own topic) the pH is replaced iff the
      field is a number, else the error is set; other topics change nothing. */
  lemma {:induction false} OtherTopicMeaning(r: Readout, current: Hospital, topic: string,
                                             msg: Inbound, now: int)
    requires topic != current.topic
    ensures var h := HandleMessage(r, current, topic, msg, now);
      && h.backup.None?
      && h.readout.mqttData == r.mqttData && h.readout.lastMessage == r.lastMessage
      && (topic != PH_TOPIC ==> h.readout == r)
      && (topic == PH_TOPIC && msg.Parsed? && msg.fields.ph.JNum? ==>
            h.readout == r.(phData := PhData(msg.fields.ph.n, now)))
      && (topic == PH_TOPIC && msg.Parsed? && !msg.fields.ph.JNum? ==>
            h.readout == r.(error := Some(INVALID_PH_MESSAGE)))
      && (topic == PH_TOPIC && msg.Unparsable? ==>
            h.readout == r.(error := Some("Parse error: " + msg.reason)))
  {
  }

  // ---------------------------------------------------------------------------
  // Hospital selection
  // ---------------------------------------------------------------------------

  /** `find(h => h.isActive)`. */
  function FirstActive(hs: seq<Hospital>): (r: Option<nat>)
    ensures r.Some? ==> r.value < |hs| && hs[r.value].isActive
                        && forall j :: 0 <= j < r.value ==> !hs[j].isActive
    ensures r.None? ==> forall j :: 0 <= j < |hs| ==> !hs[j].isActive
  {
    if hs == [] then None
    else if hs[0].isActive then Some(0)
    else match FirstActive(hs[1..]) {
      case None => None
      case Some(i) => Some(i + 1)
    }
  }

  /** The default selection: the first active hospital, else the first one. */
  function DefaultHospital(hs: seq<Hospital>): (h: Hospital)
    requires hs != []
    ensures h in hs
    ensures h.isActive <==> exists i :: 0 <= i < |hs| && hs[i].isActive
    ensures h.isActive ==> exists i :: 0 <= i < |hs| && hs[i] == h && forall j :: 0 <= j < i ==> !hs[j].isActive
    ensures !h.isActive ==> h == hs[0]
  {
    match FirstActive(hs) {
      case Some(i) => hs[i]
      case None => hs[0]
    }
  }

  /** What awaiting `/api/hospitals` gives: the body's `success` and `data` (`None`
      for a missing or null list), or a throw. */
  datatype HospitalsResponse = Loaded(success: bool, data: Option<seq<Hospital>>) | LoadFailed

  /** What `connect` found when it called `mqtt.connect`. */
  datatype ConnectOutcome = Created | ThrewError(message: string) | ThrewOther

  /** A call the session made on the MQTT client. */
  datatype ClientCall =
    | Subscribe(topic: string)
    | Unsubscribe(topic: string)
    | PublishReading(topic: string, reading: Reading)
    | PublishPh(ph: real)
    | End

  // ---------------------------------------------------------------------------
  // The session
  // ---------------------------------------------------------------------------

  class MqttSession {
    /** `client.value !== null`. */
    var hasClient: bool
    var isConnected: bool
    var connectionStatus: string
    var lastMessage: Option<Reading>
    var mqttData: LiveData
    var phData: PhData
    var error: Option<string>
    var hospitals: seq<Hospital>
    var isLoadingHospitals: bool
    var currentHospital: Hospital
    /** Every call made on the client, oldest first. */
    var calls: seq<ClientCall>
    /** The local backup (`useLocalStorage`). */
    const backup: LocalStorage.BackupStore

    /** The status text is one of the seven the handlers set, and each of the
        three disconnected statuses comes with `isConnected` false. */
    ghost predicate Valid()
      reads this
    {
      && connectionStatus in {CONNECTING, CONNECTED, ERROR, DISCONNECTED, OFFLINE, RECONNECTING, FAILED}
      && (connectionStatus in {ERROR, DISCONNECTED, OFFLINE} ==> !isConnected)
    }

    function View(): Readout
      reads this
    {
      Readout(lastMessage, mqttData, phData, error)
    }

    /** `currentTopic`. */
    function CurrentTopic(): (t: string)
      reads this
      ensures t == currentHospital.topic
    {
      currentHospital.topic
    }

    /** The state right after `useMqtt()`; `now` is `Date.now()`. */
    constructor (backup: LocalStorage.BackupStore, now: int)
      ensures Valid()
      ensures this.backup == backup
      ensures !hasClient && !isConnected && connectionStatus == DISCONNECTED
      ensures lastMessage.None? && error.None? && hospitals == [] && !isLoadingHospitals
      ensures mqttData == LiveData(0.0, 0.0, 0.0, now) && phData == PhData(0.0, now)
      ensures currentHospital == NO_HOSPITAL && calls == []
    {
      this.backup := backup;
      hasClient := false;
      isConnected := false;
      connectionStatus := DISCONNECTED;
      lastMessage := None;
      mqttData := LiveData(0.0, 0.0, 0.0, now);
      phData := PhData(0.0, now);
      error := None;
      hospitals := [];
      isLoadingHospitals := false;
      currentHospital := NO_HOSPITAL;
      calls := [];
    }

    /** `connect`: a client that is created replaces the old one; a throw marks the
        attempt failed with the thrown message, or 'Connection failed'. */
    method Connect(outcome: ConnectOutcome)
      requires Valid()
      modifies this
      ensures Valid()
      ensures isConnected == old(isConnected)
      ensures outcome.Created? ==> hasClient && connectionStatus == CONNECTING && error.None?
      ensures outcome.ThrewError? ==>
        hasClient == old(hasClient) && connectionStatus == FAILED && error == Some(outcome.message)
      ensures outcome.ThrewOther? ==>
        hasClient == old(hasClient) && connectionStatus == FAILED && error == Some("Connection failed")
      ensures View().(error := None) == old(View()).(error := None)
      ensures hospitals == old(hospitals) && currentHospital == old(currentHospital)
      ensures isLoadingHospitals == old(isLoadingHospitals) && calls == old(calls)
    {
      connectionStatus := CONNECTING;
      error := None;
      match outcome {
        case Created =>
          hasClient := true;
        case ThrewError(message) =>
          connectionStatus := FAILED;
          error := Some(message);
        case ThrewOther =>
          connectionStatus := FAILED;
          error := Some("Connection failed");
      }
    }

    /** The 'connect' event: connected, error cleared, and the current hospital's
        topic and `/ph` subscribed, in that order, through `client.value?`, so
        only while a client exists. */
    method OnConnect()
      requires Valid()
      modifies this
      ensures Valid()
      ensures isConnected && connectionStatus == CONNECTED && error.None?
      ensures hasClient ==> calls == old(calls) + [Subscribe(old(CurrentTopic())), Subscribe(PH_TOPIC)]
      ensures !hasClient ==> calls == old(calls)
      ensures hasClient == old(hasClient) && currentHospital == old(currentHospital)
      ensures lastMessage == old(lastMessage) && mqttData == old(mqttData) && phData == old(phData)
      ensures hospitals == old(hospitals) && isLoadingHospitals == old(isLoadingHospitals)
    {
      isConnected := true;
      connectionStatus := CONNECTED;
      error := None;
      if hasClient {
        calls := calls + [Subscribe(CurrentTopic())];
      }
      if hasClient {
        calls := calls + [Subscribe(PH_TOPIC)];
      }
    }

    /** A failed subscribe's callback; `ph` tells which of the two subscriptions. */
    method OnSubscribeError(ph: bool, message: string)
      requires Valid()
      modifies this
      ensures Valid()
      ensures error == Some(if ph then "pH Subscribe error: " + message else "Subscribe error: " + message)
      ensures View().(error := None) == old(View()).(error := None)
      ensures hasClient == old(hasClient) && isConnected == old(isConnected)
      ensures connectionStatus == old(connectionStatus) && calls == old(calls)
      ensures currentHospital == old(currentHospital) && hospitals == old(hospitals)
      ensures isLoadingHospitals == old(isLoadingHospitals)
    {
      if ph {
        error := Some("pH Subscribe error: " + message);
      } else {
        error := Some("Subscribe error: " + message);
      }
    }

    /** The 'error' event; an empty message reads 'Connection error'. */
    method OnError(message: string)
      requires Valid()
      modifies this
      ensures Valid()
      ensures !isConnected && connectionStatus == ERROR
      ensures error == Some(MessageOr(message, "Connection error"))
      ensures View().(error := None) == old(View()).(error := None)
      ensures hasClient == old(hasClient) && calls == old(calls)
      ensures currentHospital == old(currentHospital) && hospitals == old(hospitals)
      ensures isLoadingHospitals == old(isLoadingHospitals)
    {
      isConnected := false;
      connectionStatus := ERROR;
      error := Some(MessageOr(message, "Connection error"));
    }

    /** The 'close' event. */
    method OnClose()
      requires Valid()
      modifies this
      ensures Valid()
      ensures !isConnected && connectionStatus == DISCONNECTED
      ensures View() == old(View()) && hasClient == old(hasClient) && calls == old(calls)
      ensures currentHospital == old(currentHospital) && hospitals == old(hospitals)
      ensures isLoadingHospitals == old(isLoadingHospitals)
    {
      isConnected := false;
      connectionStatus := DISCONNECTED;
    }

    /** The 'offline' event. */
    method OnOffline()
      requires Valid()
      modifies this
      ensures Valid()
      ensures !isConnected && connectionStatus == OFFLINE
      ensures View() == old(View()) && hasClient == old(hasClient) && calls == old(calls)
      ensures currentHospital == old(currentHospital) && hospitals == old(hospitals)
      ensures isLoadingHospitals == old(isLoadingHospitals)
    {
      isConnected := false;
      connectionStatus := OFFLINE;
    }

    /** The 'reconnect' event: only the status text changes. */
    method OnReconnect()
      requires Valid()
      modifies this
      ensures Valid()
      ensures connectionStatus == RECONNECTING && isConnected == old(isConnected)
      ensures View() == old(View()) && hasClient == old(hasClient) && calls == old(calls)
      ensures currentHospital == old(currentHospital) && hospitals == old(hospitals)
      ensures isLoadingHospitals == old(isLoadingHospitals)
    {
      connectionStatus := RECONNECTING;
    }

    /** The 'message' event; `now` is `Date.now()`. An accepted hospital reading
        is also appended to the local backup while a hospital id is set. */
    method OnMessage(topic: string, msg: Inbound, now: int)
      requires Valid()
      modifies this, backup
      ensures Valid()
      ensures var h := HandleMessage(old(View()), old(currentHospital), topic, msg, now);
        && View() == h.readout
        && (h.backup.Some? && backup.hasWindow ==>
              backup.slot == LocalStorage.Stored(
                LocalStorage.AfterStore(old(backup.GetStoredData()), [h.backup.value])))
        && (h.backup.None? || !backup.hasWindow ==> backup.slot == old(backup.slot))
      ensures hasClient == old(hasClient) && isConnected == old(isConnected)
      ensures connectionStatus == old(connectionStatus) && calls == old(calls)
      ensures currentHospital == old(currentHospital) && hospitals == old(hospitals)
      ensures isLoadingHospitals == old(isLoadingHospitals)
    {
      if topic == CurrentTopic() {
        match msg {
          case Unparsable(reason) =>
            error := Some("Parse error: " + reason);
          case Parsed(data) =>
            if Acceptable(data.electricity) && Acceptable(data.water) && Acceptable(data.pasien) {
              var elec := Normalized(data.electricity);
              var water := Normalized(data.water);
              var pasien := Normalized(data.pasien);
              lastMessage := Some(Reading(elec, water, pasien));
              var timestamp := now;
              mqttData := LiveData(elec, water, pasien, timestamp);
              if currentHospital.id != "" {
                backup.StoreData(LocalStorage.StoredItem(currentHospital.id, elec, water, pasien,
                                                         BackupPh(phData.ph), timestamp));
              }
            } else {
              error := Some(INVALID_HOSPITAL_MESSAGE);
            }
        }
      } else if topic == PH_TOPIC {
        match msg {
          case Unparsable(reason) =>
            error := Some("Parse error: " + reason);
          case Parsed(data) =>
            if data.ph.JNum? {
              phData := PhData(data.ph.n, now);
            } else {
              error := Some(INVALID_PH_MESSAGE);
            }
        }
      }
    }

    /** `disconnect`: ends and drops the client, if there is one. */
    method Disconnect()
      requires Valid()
      modifies this
      ensures Valid()
      ensures old(hasClient) ==>
        && !hasClient && !isConnected && connectionStatus == DISCONNECTED
        && calls == old(calls) + [End]
      ensures !old(hasClient) ==>
        && hasClient == old(hasClient) && isConnected == old(isConnected)
        && connectionStatus == old(connectionStatus) && calls == old(calls)
      ensures View() == old(View())
      ensures currentHospital == old(currentHospital) && hospitals == old(hospitals)
      ensures isLoadingHospitals == old(isLoadingHospitals)
    {
      if hasClient {
        calls := calls + [End];
        hasClient := false;
        isConnected := false;
        connectionStatus := DISCONNECTED;
      }
    }

    /** `publish`: sends to the current topic only with a connected client. */
    method Publish(message: Reading)
      requires Valid()
      modifies this
      ensures Valid()
      ensures old(hasClient && isConnected) ==>
        calls == old(calls) + [PublishReading(old(CurrentTopic()), message)] && error == old(error)
      ensures !old(hasClient && isConnected) ==>
        calls == old(calls) && error == Some(NOT_CONNECTED_ERROR)
      ensures View().(error := None) == old(View()).(error := None)
      ensures hasClient == old(hasClient) && isConnected == old(isConnected)
      ensures connectionStatus == old(connectionStatus)
      ensures currentHospital == old(currentHospital) && hospitals == old(hospitals)
      ensures isLoadingHospitals == old(isLoadingHospitals)
    {
      if hasClient && isConnected {
        calls := calls + [PublishReading(CurrentTopic(), message)];
      } else {
        error := Some(NOT_CONNECTED_ERROR);
      }
    }

    /** `publishTestPhData`, with the random pH as a parameter: sends to `/ph`
        only with a connected client. */
    method PublishTestPhData(ph: real)
      requires Valid()
      modifies this
      ensures Valid()
      ensures old(hasClient && isConnected) ==> calls == old(calls) + [PublishPh(ph)] && error == old(error)
      ensures !old(hasClient && isConnected) ==> calls == old(calls) && error == Some(NOT_CONNECTED_ERROR)
      ensures View().(error := None) == old(View()).(error := None)
      ensures hasClient == old(hasClient) && isConnected == old(isConnected)
      ensures connectionStatus == old(connectionStatus)
      ensures currentHospital == old(currentHospital) && hospitals == old(hospitals)
      ensures isLoadingHospitals == old(isLoadingHospitals)
    {
      if hasClient && isConnected {
        calls := calls + [PublishPh(ph)];
      } else {
        error := Some(NOT_CONNECTED_ERROR);
      }
    }

    /** A failed publish's callback; `ph` tells which of the two publishers. */
    method OnPublishError(ph: bool, message: string)
      requires Valid()
      modifies this
      ensures Valid()
      ensures error == Some(if ph then "pH Publish error: " + message else "Publish error: " + message)
      ensures View().(error := None) == old(View()).(error := None)
      ensures hasClient == old(hasClient) && isConnected == old(isConnected)
      ensures connectionStatus == old(connectionStatus) && calls == old(calls)
      ensures currentHospital == old(currentHospital) && hospitals == old(hospitals)
      ensures isLoadingHospitals == old(isLoadingHospitals)
    {
      if ph {
        error := Some("pH Publish error: " + message);
      } else {
        error := Some("Publish error: " + message);
      }
    }

    /** `switchHospital`: an inactive hospital is refused with a message naming it;
        an active one becomes current, and while connected the old topic is
        unsubscribed, the new one subscribed and the hospital readings reset to
        zero (the pH is global and stays). */
    method SwitchHospital(hospital: Hospital, now: int)
      requires Valid()
      modifies this
      ensures Valid()
      ensures !hospital.isActive ==>
        && currentHospital == old(currentHospital) && calls == old(calls)
        && error == Some(hospital.name + " belum tersedia") && mqttData == old(mqttData)
      ensures hospital.isActive ==> currentHospital == hospital && error == old(error)
      ensures hospital.isActive && old(hasClient && isConnected) ==>
        && calls == old(calls) + [Unsubscribe(old(CurrentTopic())), Subscribe(hospital.topic)]
        && mqttData == LiveData(0.0, 0.0, 0.0, now)
      ensures hospital.isActive && !old(hasClient && isConnected) ==>
        calls == old(calls) && mqttData == old(mqttData)
      ensures phData == old(phData) && lastMessage == old(lastMessage)
      ensures hasClient == old(hasClient) && isConnected == old(isConnected)
      ensures connectionStatus == old(connectionStatus) && hospitals == old(hospitals)
      ensures isLoadingHospitals == old(isLoadingHospitals)
    {
      if !hospital.isActive {
        error := Some(hospital.name + " belum tersedia");
        return;
      }
      if hasClient && isConnected {
        calls := calls + [Unsubscribe(CurrentTopic())];
        currentHospital := hospital;
        calls := calls + [Subscribe(CurrentTopic())];
        mqttData := LiveData(0.0, 0.0, 0.0, now);
      } else {
        currentHospital := hospital;
      }
    }

    /** The synchronous start of `loadHospitals`: `false` means a load is already
        in flight and nothing happens; otherwise the guard is raised and the
        request goes out. */
    method BeginLoadHospitals() returns (started: bool)
      requires Valid()
      modifies this
      ensures Valid()
      ensures started == !old(isLoadingHospitals)
      ensures isLoadingHospitals
      ensures View() == old(View()) && hospitals == old(hospitals)
      ensures currentHospital == old(currentHospital) && calls == old(calls)
      ensures hasClient == old(hasClient) && isConnected == old(isConnected)
      ensures connectionStatus == old(connectionStatus)
    {
      if isLoadingHospitals {
        return false;
      }
      isLoadingHospitals := true;
      started := true;
    }

    /** The rest of `loadHospitals` once the request settles. A successful list
        replaces the hospitals, and when no hospital id is set yet, a non-empty
        list selects its first active hospital, else its first; a throw installs
        the two fallback hospitals and selects the first. The guard is lowered in
        every case. */
    method CompleteLoadHospitals(response: HospitalsResponse)
      requires Valid()
      modifies this
      ensures Valid()
      ensures !isLoadingHospitals
      ensures response.Loaded? && response.success && response.data.Some? ==>
        && hospitals == response.data.value
        && (response.data.value != [] && old(currentHospital.id) == "" ==>
              currentHospital == DefaultHospital(response.data.value))
        && (response.data.value == [] || old(currentHospital.id) != "" ==>
              currentHospital == old(currentHospital))
      ensures response.Loaded? && !(response.success && response.data.Some?) ==>
        hospitals == old(hospitals) && currentHospital == old(currentHospital)
      ensures response.LoadFailed? ==>
        hospitals == FALLBACK_HOSPITALS && currentHospital == FALLBACK_HOSPITALS[0]
      ensures View() == old(View()) && calls == old(calls)
      ensures hasClient == old(hasClient) && isConnected == old(isConnected)
      ensures connectionStatus == old(connectionStatus)
    {
      match response {
        case Loaded(success, data) =>
          if success && data.Some? {
            hospitals := data.value;
            if |hospitals| > 0 && currentHospital.id == "" {
              var firstActive := DefaultHospital(hospitals);
              currentHospital := firstActive;
            }
          }
        case LoadFailed =>
          hospitals := FALLBACK_HOSPITALS;
          currentHospital := hospitals[0];
      }
      isLoadingHospitals := false;
    }
  }

  /** The default selection on the two fallback hospitals is the first of them. */
  lemma FallbackDefault()
    ensures DefaultHospital(FALLBACK_HOSPITALS) == FALLBACK_HOSPITALS[0]
    ensures FALLBACK_HOSPITALS[0].topic == MqttDatabase.MAWAR_TOPIC
    ensures FALLBACK_HOSPITALS[1].topic == MqttDatabase.MELATI_TOPIC
    ensures MqttDatabase.TopicCode(FALLBACK_HOSPITALS[0].topic) == Some(FALLBACK_HOSPITALS[0].id)
    ensures MqttDatabase.TopicCode(FALLBACK_HOSPITALS[1].topic) == Some(FALLBACK_HOSPITALS[1].id)
  {
  }
}
