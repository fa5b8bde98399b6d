/**
  From a fetched record to an event: polling, validation of the raw message, and the transformer.
  Decides which records go on, which are dead-lettered and which are left unacked, and which event id they get.
 */
module Intake {
  import opened Errors
  import EventStore
  import opened Options
  import opened Text

  /** Timestamp 0 is the zero time. `metrics` is the JSON text of the payload, absent if the record has none. */
  datatype DeviceMessage = DeviceMessage(deviceId: string, msgType: string, timestamp: int, metrics: Option<string>)

  /** What the reader yields: an error, or a record whose body may fail to decode. */
  datatype Fetch = FetchFailed(err: Error) | Fetched(partition: int, offset: int, body: Option<DeviceMessage>)

  datatype Delivery = Delivery(partition: int, offset: int, message: Option<DeviceMessage>)

  datatype Processed = Processed(delivery: Option<Delivery>, err: Option<Error>)

  function PollMessage(fetch: Fetch): Processed {
    match fetch
    case FetchFailed(err) => Processed(None, NewTransientError(Some(Wrapped(err))))
    case Fetched(p, o, None) =>
      Processed(Some(Delivery(p, o, None)), NewTerminalError(Some(Wrapped(Leaf(Other("decode"))))))
    case Fetched(p, o, body) => Processed(Some(Delivery(p, o, body)), None)
  }

  function ValidateRawMessage(m: DeviceMessage): Option<Error> {
    if m.deviceId == "" then Some(Leaf(MissingDeviceId))
    else if m.msgType == "" then Some(Leaf(MissingType))
    else if m.timestamp == 0 then Some(Leaf(MissingTimestamp))
    else None
  }

  function ProcessData(fetch: Fetch): Processed {
    var polled := PollMessage(fetch);
    if polled.err.Some? then
      Processed(polled.delivery, Some(Processor(polled.err)))
    else if polled.delivery.None? || polled.delivery.value.message.None? then
      Processed(polled.delivery, Some(Processor(Some(Leaf(NilMessage)))))
    else
      var invalid := ValidateRawMessage(polled.delivery.value.message.value);
      if invalid.Some? then Processed(polled.delivery, Some(Processor(invalid)))
      else polled
  }

  predicate Complete(m: DeviceMessage) {
    m.deviceId != "" && m.msgType != "" && m.timestamp != 0
  }

  /**
    A fetched record either goes on or is terminal, never left for a redelivery at this stage;
    it is terminal exactly when its body does not decode or lacks a required field. Only a failed
    fetch is transient, and it carries no delivery.
   */
  lemma ProcessDataClass(fetch: Fetch)
    ensures
      var r := ProcessData(fetch);
      && (r.err.None? <==> fetch.Fetched? && fetch.body.Some? && Complete(fetch.body.value))
      && (Classify(r.err) == Terminal <==> fetch.Fetched? && (fetch.body.None? || !Complete(fetch.body.value)))
      && (r.delivery.None? <==> fetch.FetchFailed?)
      && (fetch.Fetched? ==> r.delivery == Some(Delivery(fetch.partition, fetch.offset, fetch.body)))
  {
    var r := ProcessData(fetch);
    if r.err.Some? {
      var cause := r.err.value.cause;
      assert Classify(r.err) == Classify(cause);
    }
  }

  // ---- Transformer ----

  datatype Domain = Energy | Finance | Unknown

  const ENERGY_TYPES: set<string> := {
    "temperature_sensor", "climate_sensor", "ev_charger", "grid_meter",
    "energy_meter", "solar_panel", "battery", "motion_sensor"
  }
  const UNKNOWN_TYPE: string := "unknown"
  const VALID_TYPES: set<string> := ENERGY_TYPES + {"financial_stream"}
  /** The types with a descriptor; three valid types have none. */
  const REGISTERED_TYPES: set<string> := {
    "financial_stream", "energy_meter", "temperature_sensor", "climate_sensor",
    "ev_charger", "grid_meter", UNKNOWN_TYPE
  }

  function ParseDataType(s: string): string {
    if s in VALID_TYPES then s else UNKNOWN_TYPE
  }

  /** The map from data types to domains; absent for a text that is no data type. */
  function TypeToDomain(dataType: string): Option<Domain> {
    if dataType in ENERGY_TYPES then Some(Energy)
    else if dataType == "financial_stream" then Some(Finance)
    else if dataType == UNKNOWN_TYPE then Some(Unknown)
    else None
  }

  /** Which types belong to which domain; all others to none. */
  lemma DomainsOfTypes(dataType: string)
    ensures TypeToDomain(dataType) == Some(Energy) <==>
              dataType in {"temperature_sensor", "climate_sensor", "ev_charger", "grid_meter", "energy_meter",
                           "solar_panel", "battery", "motion_sensor"}
    ensures TypeToDomain(dataType) == Some(Finance) <==> dataType == "financial_stream"
    ensures TypeToDomain(dataType) == Some(Unknown) <==> dataType == "unknown"
    ensures ParseDataType(dataType) == dataType <==> TypeToDomain(dataType).Some?
    ensures ParseDataType(dataType) != dataType ==> ParseDataType(dataType) == "unknown"
  {
  }

  function ParseDomainType(s: string): Domain {
    match TypeToDomain(ParseDataType(s))
    case Some(d) => d
    case None => Unknown
  }

  /** The supported domains derived from the configured types. */
  method DeriveDomains(dataTypes: seq<string>) returns (domains: set<Domain>)
    ensures forall d :: d in domains <==> exists k :: 0 <= k < |dataTypes| && TypeToDomain(dataTypes[k]) == Some(d)
  {
    domains := {};
    for i := 0 to |dataTypes|
      invariant forall d :: d in domains <==> exists k :: 0 <= k < i && TypeToDomain(dataTypes[k]) == Some(d)
    {
      match TypeToDomain(dataTypes[i]) {
        case Some(d) => domains := domains + {d};
        case None =>
      }
    }
  }

  predicate DomainSupported(configured: seq<string>, domain: Domain) {
    configured == [] || exists k :: 0 <= k < |configured| && TypeToDomain(configured[k]) == Some(domain)
  }

  function DomainName(d: Domain): string {
    match d
    case Energy => "energy"
    case Finance => "finance"
    case Unknown => "unknown"
  }

  function EntityTypeOf(dataType: string): string {
    if dataType == "financial_stream" || dataType == "ev_charger" then "device"
    else if dataType == UNKNOWN_TYPE then "unknown"
    else "sensor"
  }

  const SCHEMA_VERSION := "1.0.0"

  function BusinessKey(m: DeviceMessage): string {
    m.deviceId + ['|'] + m.msgType + ['|'] + Itoa(m.timestamp)
  }

  /**
    What becomes of the metrics of a message: normalised and valid, with their JSON text if they
    have one, or the text of the error that the JSON or the validation library returns.
   */
  datatype Payload =
    | Normalised(json: Option<string>)
    | NotMarshalled(text: string)
    | NotUnmarshalled(text: string)
    | NotValid(text: string)

  /** Decoding, normalising and validating: a function of the data type and the metrics. */
  type Normaliser = (string, string) -> Payload

  function PayloadOf(normalise: Normaliser, m: DeviceMessage): Payload
    requires m.metrics.Some?
  {
    normalise(ParseDataType(m.msgType), m.metrics.value)
  }

  /** Each of the three faults is a ProcessorError around the library's error. */
  function PayloadError(p: Payload): Option<Error> {
    match p
    case Normalised(_) => None
    case NotMarshalled(text) => Some(Processor(Some(Leaf(Other(text)))))
    case NotUnmarshalled(text) => Some(Processor(Some(Leaf(Other(text)))))
    case NotValid(text) => Some(Processor(Some(Leaf(Other(text)))))
  }

  /** Without metrics the payload is decoded from null and is nil: calling Normalize on it panics. */
  datatype Transformed = Produced(event: EventStore.Event) | Rejected(err: Error) | Panics

  /** The event id is the name-based UUID of the business key, identified here with the key. */
  function EventOf(m: DeviceMessage, json: Option<string>, now: int): EventStore.Event {
    var dataType := ParseDataType(m.msgType);
    EventStore.Event(
      BusinessKey(m), DomainName(ParseDomainType(m.msgType)), m.msgType, m.deviceId, EntityTypeOf(dataType),
      m.timestamp, now, dataType, SCHEMA_VERSION, json)
  }

  function Transform(configured: seq<string>, normalise: Normaliser, m: DeviceMessage, now: int): Transformed {
    if !DomainSupported(configured, ParseDomainType(m.msgType)) then
      Rejected(Processor(Some(Wrapped(Leaf(UnknownDataType)))))
    else if ParseDataType(m.msgType) !in REGISTERED_TYPES then
      Rejected(Leaf(UnknownDataType))
    else if m.metrics.None? then
      Panics
    else
      var payload := PayloadOf(normalise, m);
      if payload.Normalised? then Produced(EventOf(m, payload.json, now)) else Rejected(PayloadError(payload).value)
  }

  predicate Known(configured: seq<string>, m: DeviceMessage) {
    DomainSupported(configured, ParseDomainType(m.msgType)) && ParseDataType(m.msgType) in REGISTERED_TYPES
  }

  predicate Normalises(normalise: Normaliser, m: DeviceMessage) {
    m.metrics.Some? && PayloadOf(normalise, m).Normalised?
  }

  /**
    The transformer is terminal exactly for unsupported domains and unregistered types. For the
    others a message without metrics panics, a payload that does not marshal, unmarshal or
    validate is transient, and the rest gives an event.
   */
  lemma TransformClass(configured: seq<string>, normalise: Normaliser, m: DeviceMessage, now: int)
    ensures
      var r := Transform(configured, normalise, m, now);
      && (r.Rejected? && Classify(Some(r.err)) == Terminal <==> !Known(configured, m))
      && (r.Rejected? && Classify(Some(r.err)) == Transient <==>
            Known(configured, m) && m.metrics.Some? && !Normalises(normalise, m))
      && (r.Produced? <==> Known(configured, m) && Normalises(normalise, m))
      && (r.Panics? <==> Known(configured, m) && m.metrics.None?)
  {
    if m.metrics.Some? && !Normalises(normalise, m) { PayloadErrorIsTransient(PayloadOf(normalise, m)); }
  }

  lemma PayloadErrorIsTransient(payload: Payload)
    requires !payload.Normalised?
    ensures Classify(PayloadError(payload)) == Transient
  {
    var e := PayloadError(payload).value;
    assert AsClassified(e) == AsClassified(e.cause.value) == None;
    assert forall s :: Is(e, s) <==> Is(e.cause.value, s);
  }

  /**
    The columns of an event: the message's own device, type and time, the domain and the entity type
    of its type, the type as source - "unknown" for all that are not listed - and the time of ingestion.
   */
  lemma EventColumns(configured: seq<string>, normalise: Normaliser, m: DeviceMessage, now: int)
    requires Transform(configured, normalise, m, now).Produced?
    ensures
      var e := Transform(configured, normalise, m, now).event;
      && e.entityId == m.deviceId && e.eventType == m.msgType && e.occurredAt == m.timestamp && e.ingestedAt == now
      && e.schemaVersion == "1.0.0"
      && (m.msgType == "financial_stream" ==> (e.domain, e.entityType, e.source) == ("finance", "device", m.msgType))
      && (m.msgType == "ev_charger" ==> (e.domain, e.entityType, e.source) == ("energy", "device", m.msgType))
      && (m.msgType in {"temperature_sensor", "climate_sensor", "energy_meter", "grid_meter"} ==>
            (e.domain, e.entityType, e.source) == ("energy", "sensor", m.msgType))
      && (m.msgType !in {"financial_stream", "ev_charger", "temperature_sensor", "climate_sensor",
                         "energy_meter", "grid_meter"} ==>
            (e.domain, e.entityType, e.source) == ("unknown", "unknown", "unknown"))
      && Some(e.data) == (match PayloadOf(normalise, m) case Normalised(json) => Some(json) case _ => None)
      && (e.data.Some? ==>
            var r := EventStore.RowOf(e);
            && (r.id, r.domain, r.eventType, r.entityId) == (e.id, e.domain, m.msgType, m.deviceId)
            && (r.entityType, r.occurredAt, r.ingestedAt) == (e.entityType, m.timestamp, now)
            && (r.source, r.schemaVersion, Some(r.data)) == (e.source, "1.0.0", e.data))
  {
    var types := {"financial_stream", "ev_charger", "temperature_sensor", "climate_sensor",
                  "energy_meter", "grid_meter"};
    if m.msgType in types {
      assert m.msgType in VALID_TYPES && ParseDataType(m.msgType) == m.msgType;
    } else {
      assert ParseDataType(m.msgType) in REGISTERED_TYPES && m.msgType !in types;
      assert ParseDataType(m.msgType) == UNKNOWN_TYPE;
    }
  }

  /** The source and the metrics fix the data: messages of unlisted types are normalised alike. */
  lemma SourceFixesData(
      configured: seq<string>, normalise: Normaliser, m: DeviceMessage, n: DeviceMessage, now: int, later: int)
    requires Transform(configured, normalise, m, now).Produced? && Transform(configured, normalise, n, later).Produced?
    requires m.metrics == n.metrics
    ensures
      var e, f := Transform(configured, normalise, m, now).event, Transform(configured, normalise, n, later).event;
      e.source == f.source ==> e.data == f.data
    ensures m.msgType !in VALID_TYPES && n.msgType !in VALID_TYPES ==>
              Transform(configured, normalise, n, now).event.data == Transform(configured, normalise, m, now).event.data
  {
  }

  // ---- The event id ----

  /** Device, type and time. */
  predicate SameOrigin(m: DeviceMessage, n: DeviceMessage) {
    m.deviceId == n.deviceId && m.msgType == n.msgType && m.timestamp == n.timestamp
  }

  /** Equal keys mean equal device, type and time, given types without the delimiter. */
  lemma BusinessKeyInjective(m: DeviceMessage, n: DeviceMessage)
    requires '|' !in m.msgType && '|' !in n.msgType
    ensures BusinessKey(m) == BusinessKey(n) <==> SameOrigin(m, n)
  {
    if BusinessKey(m) == BusinessKey(n) {
      var a, b := m.deviceId + ['|'] + m.msgType, n.deviceId + ['|'] + n.msgType;
      SplitLastUnique(a, Itoa(m.timestamp), b, Itoa(n.timestamp), '|');
      ItoaInjective(m.timestamp, n.timestamp);
      SplitLastUnique(m.deviceId, m.msgType, n.deviceId, n.msgType, '|');
    }
  }

  /** The message is accepted, and gives this event at some time. */
  ghost predicate Gives(configured: seq<string>, normalise: Normaliser, m: DeviceMessage, e: EventStore.Event) {
    exists now :: Transform(configured, normalise, m, now) == Produced(e)
  }

  lemma GivesMeaning(configured: seq<string>, normalise: Normaliser, m: DeviceMessage, e: EventStore.Event)
    ensures Gives(configured, normalise, m, e) <==>
              && Known(configured, m) && Normalises(normalise, m)
              && e == EventOf(m, PayloadOf(normalise, m).json, e.ingestedAt)
  {
    if Known(configured, m) && Normalises(normalise, m) && e == EventOf(m, PayloadOf(normalise, m).json, e.ingestedAt) {
      assert Transform(configured, normalise, m, e.ingestedAt) == Produced(e);
    }
  }

  /** Some normalisation lets this message through. */
  predicate Accepted(configured: seq<string>, m: DeviceMessage) {
    Known(configured, m) && m.metrics.Some?
  }

  ghost predicate IdsIdentifyMessages(configured: seq<string>) {
    forall m, n | Accepted(configured, m) && Accepted(configured, n) && BusinessKey(m) == BusinessKey(n) ::
      SameOrigin(m, n)
  }

  /**
    The id identifies device, type and time exactly for the configurations that name some type and
    do not name "unknown": only then is every accepted type free of the delimiter.
   */
  lemma EventIdsIdentifyMessages(configured: seq<string>)
    ensures IdsIdentifyMessages(configured) <==> configured != [] && UNKNOWN_TYPE !in configured
  {
    if configured == [] || UNKNOWN_TYPE in configured {
      IdsCanCoincide(configured);
    } else {
      forall m, n | Accepted(configured, m) && Accepted(configured, n) && BusinessKey(m) == BusinessKey(n)
        ensures SameOrigin(m, n)
      {
        AcceptedTypeIsValid(configured, m);
        AcceptedTypeIsValid(configured, n);
        BusinessKeyInjective(m, n);
      }
    }
  }

  lemma IdsCanCoincide(configured: seq<string>)
    requires configured == [] || UNKNOWN_TYPE in configured
    ensures !IdsIdentifyMessages(configured)
  {
    var m, n := DeviceMessage("a|b", "c", 1, Some("{}")), DeviceMessage("a", "b|c", 1, Some("{}"));
    assert DomainSupported(configured, Unknown) by {
      if configured != [] {
        var k :| 0 <= k < |configured| && configured[k] == UNKNOWN_TYPE;
        assert TypeToDomain(configured[k]) == Some(Unknown);
      }
    }
    assert BusinessKey(m) == "a|b|c|" + Itoa(1) == BusinessKey(n);
    assert Accepted(configured, m) && Accepted(configured, n) && !SameOrigin(m, n);
  }

  lemma AcceptedTypeIsValid(configured: seq<string>, m: DeviceMessage)
    requires configured != [] && UNKNOWN_TYPE !in configured && Known(configured, m)
    ensures m.msgType in VALID_TYPES && '|' !in m.msgType
  {
    var domain := ParseDomainType(m.msgType);
    var k :| 0 <= k < |configured| && TypeToDomain(configured[k]) == Some(domain);
    UnknownDomainOnly(configured[k]);
    UnknownDomainOnly(ParseDataType(m.msgType));
    NoDelimiterInTypes();
  }

  lemma UnknownDomainOnly(dataType: string)
    ensures TypeToDomain(dataType) == Some(Unknown) <==> dataType == UNKNOWN_TYPE
  {
  }

  lemma NoDelimiterInTypes()
    ensures forall t | t in VALID_TYPES :: '|' !in t
  {
  }

  /**
    Which columns the id fixes, where it identifies messages: two events with one id agree in every
    column but the time of ingestion and the data, and in the data exactly if the normalised
    metrics of their messages are the same.
   */
  lemma IdFixesColumns(
      configured: seq<string>, normalise: Normaliser,
      m: DeviceMessage, e: EventStore.Event, n: DeviceMessage, f: EventStore.Event)
    requires configured != [] && UNKNOWN_TYPE !in configured
    requires Gives(configured, normalise, m, e) && Gives(configured, normalise, n, f) && e.id == f.id
    ensures f == e.(ingestedAt := f.ingestedAt, data := f.data)
    ensures Normalises(normalise, m) && Normalises(normalise, n)
    ensures e.data == f.data <==> PayloadOf(normalise, m).json == PayloadOf(normalise, n).json
  {
    EventIdsIdentifyMessages(configured);
    GivesMeaning(configured, normalise, m, e);
    GivesMeaning(configured, normalise, n, f);
  }

  /** All events that one message gives are the same but for the time of ingestion, which can be any. */
  lemma EventsOfOneMessage(
      configured: seq<string>, normalise: Normaliser, m: DeviceMessage, e: EventStore.Event, f: EventStore.Event)
    requires Gives(configured, normalise, m, e)
    ensures Gives(configured, normalise, m, f) <==> f == e.(ingestedAt := f.ingestedAt)
  {
    GivesMeaning(configured, normalise, m, e);
    GivesMeaning(configured, normalise, m, f);
  }

  /** Two readings of one device, type and time always share their event id, whatever their metrics. */
  lemma ReadingsShareTheirId(
      configured: seq<string>, normalise: Normaliser,
      m: DeviceMessage, e: EventStore.Event, n: DeviceMessage, f: EventStore.Event)
    requires Gives(configured, normalise, m, e) && Gives(configured, normalise, n, f) && SameOrigin(m, n)
    ensures e.id == f.id
    ensures e.data == f.data <==> PayloadOf(normalise, m).json == PayloadOf(normalise, n).json
  {
    GivesMeaning(configured, normalise, m, e);
    GivesMeaning(configured, normalise, n, f);
  }
}
