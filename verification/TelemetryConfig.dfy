/**
 Fleet Telemetry configurations, the payload sent to Tesla, and the parser of what Tesla returns.

 A float is a real number. The five messages about one malformed field are a single error, because
 dictionary order decides which of them is raised first.
 */
module TelemetryConfig {
  import opened Wrappers

  datatype Json =
    | JNull
    | JBool(flag: bool)
    | JInt(whole: int)
    | JReal(fraction: real)
    | JString(text: string)
    | JList(items: seq<Json>)
    | JObject(entries: map<string, Json>)

  datatype Number = Whole(i: int) | Fraction(r: real)

  datatype Field = Field(interval: int, delta: Option<Number>, resend: Option<int>, includes: seq<string>)

  datatype AlertType = Service | Customer | ServiceFix

  datatype Config = Config(hostname: string, ca: string, fields: map<string, Field>, port: int,
                           alertTypes: seq<AlertType>, exp: Option<int>, deliveryPolicy: Option<string>)

  datatype ParseError = ConfigInvalid | Incomplete | FieldInvalid | AlertsInvalid | DeliveryInvalid

  // ---------------------------------------------------------------------------------------------
  // Printing

  function AlertName(a: AlertType): string {
    match a case Service => "service" case Customer => "customer" case ServiceFix => "service-fix"
  }

  function NumberJson(n: Number): Json {
    match n case Whole(i) => JInt(i) case Fraction(r) => JReal(r)
  }

  function Strings(s: seq<string>): seq<Json> {
    seq(|s|, i requires 0 <= i < |s| => JString(s[i]))
  }

  function AlertNames(alerts: seq<AlertType>): seq<string> {
    seq(|alerts|, i requires 0 <= i < |alerts| => AlertName(alerts[i]))
  }

  /** The entry is left out when the attribute is absent. */
  function With(payload: map<string, Json>, key: string, value: Option<Json>): map<string, Json> {
    if value.None? then payload else payload[key := value.value]
  }

  function FieldPayload(f: Field): map<string, Json> {
    var interval := map["interval_seconds" := JInt(f.interval)];
    var delta := With(interval, "minimum_delta", if f.delta.None? then None else Some(NumberJson(f.delta.value)));
    var resend := With(delta, "resend_interval_seconds", if f.resend.None? then None else Some(JInt(f.resend.value)));
    With(resend, "include_fields", if f.includes == [] then None else Some(JList(Strings(f.includes))))
  }

  function FieldPayloads(fields: map<string, Field>): map<string, Json> {
    map name | name in fields :: JObject(FieldPayload(fields[name]))
  }

  function Payload(c: Config): map<string, Json> {
    var always := map["hostname" := JString(c.hostname), "ca" := JString(c.ca),
                      "fields" := JObject(FieldPayloads(c.fields)), "port" := JInt(c.port)];
    var alerts :=
      With(always, "alert_types", if c.alertTypes == [] then None else Some(JList(Strings(AlertNames(c.alertTypes)))));
    var exp := With(alerts, "exp", if c.exp.None? then None else Some(JInt(c.exp.value)));
    With(exp, "delivery_policy", if c.deliveryPolicy.None? then None else Some(JString(c.deliveryPolicy.value)))
  }

  /** The dictionary filled in place. */
  method ToPayload(c: Config) returns (payload: map<string, Json>)
    ensures payload == Payload(c)
  {
    hide FieldPayloads, Strings, AlertNames;
    payload := map["hostname" := JString(c.hostname), "ca" := JString(c.ca),
                   "fields" := JObject(FieldPayloads(c.fields)), "port" := JInt(c.port)];
    if c.alertTypes != [] {
      payload := payload["alert_types" := JList(Strings(AlertNames(c.alertTypes)))];
    }
    if c.exp.Some? {
      payload := payload["exp" := JInt(c.exp.value)];
    }
    if c.deliveryPolicy.Some? {
      payload := payload["delivery_policy" := JString(c.deliveryPolicy.value)];
    }
  }

  // ---------------------------------------------------------------------------------------------
  // Parsing

  function Get(entries: map<string, Json>, key: string, default: Json): Json {
    if key in entries then entries[key] else default
  }

  predicate AllStrings(items: seq<Json>) {
    forall i :: 0 <= i < |items| ==> items[i].JString?
  }

  function Texts(items: seq<Json>): seq<string>
    requires AllStrings(items)
  {
    seq(|items|, i requires 0 <= i < |items| => items[i].text)
  }

  function AlertOf(name: string): Option<AlertType> {
    match name
    case "service" => Some(Service)
    case "customer" => Some(Customer)
    case "service-fix" => Some(ServiceFix)
    case _ => None
  }

  predicate AllAlerts(items: seq<Json>) {
    forall i :: 0 <= i < |items| ==> items[i].JString? && AlertOf(items[i].text).Some?
  }

  function Alerts(items: seq<Json>): seq<AlertType>
    requires AllAlerts(items)
  {
    seq(|items|, i requires 0 <= i < |items| => AlertOf(items[i].text).value)
  }

  function ParseField(value: Json): Option<Field> {
    if !value.JObject? then None
    else
      var interval := Get(value.entries, "interval_seconds", JNull);
      var delta := Get(value.entries, "minimum_delta", JNull);
      var resend := Get(value.entries, "resend_interval_seconds", JNull);
      var includes := Get(value.entries, "include_fields", JList([]));
      if !interval.JInt? || !(delta.JNull? || delta.JInt? || delta.JReal?) || !(resend.JNull? || resend.JInt?) then None
      else if !includes.JList? || !AllStrings(includes.items) then None
      else Some(Field(interval.whole,
                      match delta case JInt(i) => Some(Whole(i)) case JReal(r) => Some(Fraction(r)) case _ => None,
                      if resend.JInt? then Some(resend.whole) else None,
                      Texts(includes.items)))
  }

  /** A truth value is an integer in the source language, so it passes for a port. */
  function PortOf(j: Json): Option<int> {
    match j case JInt(i) => Some(i) case JBool(b) => Some(if b then 1 else 0) case _ => None
  }

  function Parsed(document: map<string, Json>): Result<Option<Config>, ParseError> {
    var raw := Get(document, "config", JNull);
    if raw.JNull? then Ok(None)
    else if !raw.JObject? then Err(ConfigInvalid)
    else
      var hostname := Get(raw.entries, "hostname", JNull);
      var ca := Get(raw.entries, "ca", JNull);
      var port := PortOf(Get(raw.entries, "port", JInt(443)));
      var fields := Get(raw.entries, "fields", JNull);
      var alerts := Get(raw.entries, "alert_types", JList([]));
      var delivery := Get(raw.entries, "delivery_policy", JNull);
      if !hostname.JString? || !ca.JString? || port.None? || !fields.JObject? || !alerts.JList? then Err(Incomplete)
      else if exists name :: name in fields.entries && ParseField(fields.entries[name]).None? then Err(FieldInvalid)
      else if !AllAlerts(alerts.items) then Err(AlertsInvalid)
      else if !delivery.JNull? && !delivery.JString? then Err(DeliveryInvalid)
      else Ok(Some(Config(hostname.text, ca.text,
                          map name | name in fields.entries :: ParseField(fields.entries[name]).value,
                          port.value, Alerts(alerts.items), None,
                          if delivery.JString? then Some(delivery.text) else None)))
  }

  method ParseTeslaConfig(document: map<string, Json>) returns (r: Result<Option<Config>, ParseError>)
    ensures r == Parsed(document)
  {
    hide ParseField, PortOf, AllAlerts, Alerts;
    var raw := Get(document, "config", JNull);
    if raw.JNull? {
      return Ok(None);
    }
    if !raw.JObject? {
      return Err(ConfigInvalid);
    }
    var hostname := Get(raw.entries, "hostname", JNull);
    var ca := Get(raw.entries, "ca", JNull);
    var port := PortOf(Get(raw.entries, "port", JInt(443)));
    var fields := Get(raw.entries, "fields", JNull);
    var alerts := Get(raw.entries, "alert_types", JList([]));
    if !hostname.JString? || !ca.JString? || port.None? || !fields.JObject? || !alerts.JList? {
      return Err(Incomplete);
    }
    var parsed: map<string, Field> := map[];
    var todo := fields.entries.Keys;
    while todo != {}
      invariant todo <= fields.entries.Keys && parsed.Keys == fields.entries.Keys - todo
      invariant forall name :: name in parsed ==> ParseField(fields.entries[name]) == Some(parsed[name])
      decreases |todo|
    {
      var name :| name in todo;
      var field := ParseField(fields.entries[name]);
      if field.None? {
        return Err(FieldInvalid);
      }
      parsed := parsed[name := field.value];
      todo := todo - {name};
    }
    if !AllAlerts(alerts.items) {
      return Err(AlertsInvalid);
    }
    var delivery := Get(raw.entries, "delivery_policy", JNull);
    if !delivery.JNull? && !delivery.JString? {
      return Err(DeliveryInvalid);
    }
    assert parsed == map name | name in fields.entries :: ParseField(fields.entries[name]).value;
    r := Ok(Some(Config(hostname.text, ca.text, parsed, port.value, Alerts(alerts.items), None,
                        if delivery.JString? then Some(delivery.text) else None)));
  }

  // ---------------------------------------------------------------------------------------------
  // The documents, key by key

  predicate Null(entries: map<string, Json>, key: string) {
    key !in entries || entries[key].JNull?
  }

  predicate Holds(entries: map<string, Json>, key: string, value: Json) {
    key in entries && entries[key] == value
  }

  /** The value is the JSON of this field: a missing or null attribute is absent, a missing list empty. */
  ghost predicate ReadsAs(value: Json, f: Field) {
    && value.JObject? && Holds(value.entries, "interval_seconds", JInt(f.interval))
    && (match f.delta
        case None => Null(value.entries, "minimum_delta")
        case Some(Whole(i)) => Holds(value.entries, "minimum_delta", JInt(i))
        case Some(Fraction(r)) => Holds(value.entries, "minimum_delta", JReal(r)))
    && (if f.resend.None? then Null(value.entries, "resend_interval_seconds")
        else Holds(value.entries, "resend_interval_seconds", JInt(f.resend.value)))
    && ListReads(value.entries, "include_fields", f.includes)
  }

  /** The list of these texts, or nothing if there are none. */
  ghost predicate ListReads(entries: map<string, Json>, key: string, texts: seq<string>) {
    if key !in entries then texts == []
    else
      && entries[key].JList? && |entries[key].items| == |texts|
      && forall i :: 0 <= i < |texts| ==> entries[key].items[i] == JString(texts[i])
  }

  ghost predicate AlertReads(text: string, a: AlertType) {
    match a
    case Service => text == "service"
    case Customer => text == "customer"
    case ServiceFix => text == "service-fix"
  }

  ghost predicate PortReads(entries: map<string, Json>, port: int) {
    if "port" !in entries then port == 443
    else
      || entries["port"] == JInt(port)
      || (port == 1 && entries["port"] == JBool(true)) || (port == 0 && entries["port"] == JBool(false))
  }

  /** The document holds this configuration. */
  ghost predicate DocumentReads(document: map<string, Json>, c: Config) {
    && "config" in document && document["config"].JObject?
    && var raw := document["config"].entries;
       && Holds(raw, "hostname", JString(c.hostname)) && Holds(raw, "ca", JString(c.ca)) && PortReads(raw, c.port)
       && FieldsRead(raw, c.fields) && AlertsRead(raw, c.alertTypes) && c.exp.None?
       && if c.deliveryPolicy.None? then Null(raw, "delivery_policy")
          else Holds(raw, "delivery_policy", JString(c.deliveryPolicy.value))
  }

  ghost predicate FieldsRead(raw: map<string, Json>, fields: map<string, Field>) {
    && "fields" in raw && raw["fields"].JObject? && raw["fields"].entries.Keys == fields.Keys
    && forall name :: name in fields ==> ReadsAs(raw["fields"].entries[name], fields[name])
  }

  ghost predicate AlertsRead(raw: map<string, Json>, alerts: seq<AlertType>) {
    if "alert_types" !in raw then alerts == []
    else
      && raw["alert_types"].JList? && |raw["alert_types"].items| == |alerts|
      && forall i :: 0 <= i < |alerts| ==>
           raw["alert_types"].items[i].JString? && AlertReads(raw["alert_types"].items[i].text, alerts[i])
  }

  /** The parser accepts exactly the values that are the JSON of a field, as that field. */
  lemma FieldReadExactly(value: Json, f: Field)
    ensures ParseField(value) == Some(f) <==> ReadsAs(value, f)
  {
    if value.JObject? && ParseField(value).Some? {
      var includes := Get(value.entries, "include_fields", JList([]));
      assert Texts(includes.items) == f.includes <==> ListReads(value.entries, "include_fields", f.includes);
    }
  }

  lemma AlertsReadExactly(raw: map<string, Json>, alerts: seq<AlertType>)
    ensures var value := Get(raw, "alert_types", JList([]));
            value.JList? && AllAlerts(value.items) && Alerts(value.items) == alerts <==> AlertsRead(raw, alerts)
  {
    var value := Get(raw, "alert_types", JList([]));
    if value.JList? && AllAlerts(value.items) {
      assert forall i :: 0 <= i < |value.items| ==>
                value.items[i].JString? && Alerts(value.items)[i] == AlertOf(value.items[i].text).value;
    }
  }

  lemma FieldsReadExactly(raw: map<string, Json>, fields: map<string, Field>)
    ensures var value := Get(raw, "fields", JNull);
            && (value.JObject? && (forall name :: name in value.entries ==> ParseField(value.entries[name]).Some?)
                && (map name | name in value.entries :: ParseField(value.entries[name]).value) == fields
                <==> FieldsRead(raw, fields))
  {
    hide ParseField, ReadsAs;
    var value := Get(raw, "fields", JNull);
    if value.JObject? {
      forall name | name in value.entries && name in fields
        ensures ParseField(value.entries[name]) == Some(fields[name]) <==> ReadsAs(value.entries[name], fields[name])
      {
        FieldReadExactly(value.entries[name], fields[name]);
      }
    }
  }

  /** The parser accepts exactly the documents that hold a configuration, as that configuration, and takes
      a missing or null one for none. */
  lemma ParsedExactly(document: map<string, Json>, c: Config)
    ensures Parsed(document) == Ok(Some(c)) <==> DocumentReads(document, c)
    ensures Parsed(document) == Ok(None) <==> Null(document, "config")
  {
    hide ParseField, AllAlerts, Alerts, FieldsRead, AlertsRead;
    if "config" in document && document["config"].JObject? {
      FieldsReadExactly(document["config"].entries, c.fields);
      AlertsReadExactly(document["config"].entries, c.alertTypes);
    }
  }

  /** A refusal names something wrong with the document. */
  lemma ParseErrorIsTrue(document: map<string, Json>)
    ensures Parsed(document) == Err(ConfigInvalid)
            <==> !Null(document, "config") && !document["config"].JObject?
    ensures Parsed(document) == Err(Incomplete) <==>
              && "config" in document && document["config"].JObject?
              && var raw := document["config"].entries;
                 || !("hostname" in raw && raw["hostname"].JString?) || !("ca" in raw && raw["ca"].JString?)
                 || ("port" in raw && !raw["port"].JInt? && !raw["port"].JBool?)
                 || !("fields" in raw && raw["fields"].JObject?)
                 || ("alert_types" in raw && !raw["alert_types"].JList?)
    ensures Parsed(document) == Err(FieldInvalid) ==>
              var fields := document["config"].entries["fields"].entries;
              exists name :: name in fields && forall f :: !ReadsAs(fields[name], f)
    ensures Parsed(document) == Err(AlertsInvalid) ==>
              && "alert_types" in document["config"].entries
              && exists i :: 0 <= i < |document["config"].entries["alert_types"].items|
                             && document["config"].entries["alert_types"].items[i]
                                !in {JString("service"), JString("customer"), JString("service-fix")}
    ensures Parsed(document) == Err(DeliveryInvalid) ==>
              !Null(document["config"].entries, "delivery_policy")
              && !document["config"].entries["delivery_policy"].JString?
  {
    hide ParseField, ReadsAs;
    if Parsed(document) == Err(FieldInvalid) {
      var fields := document["config"].entries["fields"].entries;
      var name :| name in fields && ParseField(fields[name]).None?;
      forall f ensures !ReadsAs(fields[name], f) {
        FieldReadExactly(fields[name], f);
      }
    }
  }

  /** Which keys are printed: an absent attribute or an empty list is left out. */
  lemma PrintedKeys(c: Config, f: Field, key: string)
    ensures key in Payload(c) <==>
              || key in {"hostname", "ca", "fields", "port"} || (key == "alert_types" && c.alertTypes != [])
              || (key == "exp" && c.exp.Some?) || (key == "delivery_policy" && c.deliveryPolicy.Some?)
    ensures c.exp.Some? ==> Payload(c)["exp"] == JInt(c.exp.value)
    ensures key in FieldPayload(f) <==>
              || key == "interval_seconds" || (key == "minimum_delta" && f.delta.Some?)
              || (key == "resend_interval_seconds" && f.resend.Some?) || (key == "include_fields" && f.includes != [])
  {
  }

  /** What is printed holds the configuration it was printed from. */
  lemma PrintedReads(c: Config)
    ensures DocumentReads(map["config" := JObject(Payload(c))], c.(exp := None))
  {
    hide Payload, DocumentReads, Parsed;
    var document := map["config" := JObject(Payload(c))];
    PayloadRoundTrip(document, c);
    ParsedExactly(document, c.(exp := None));
  }

  // ---------------------------------------------------------------------------------------------
  // Round trips

  lemma StringsParse(s: seq<string>)
    ensures AllStrings(Strings(s)) && Texts(Strings(s)) == s
  {
  }

  lemma AlertsParse(alerts: seq<AlertType>)
    ensures AllAlerts(Strings(AlertNames(alerts))) && Alerts(Strings(AlertNames(alerts))) == alerts
  {
  }

  lemma FieldRoundTrip(f: Field)
    ensures ParseField(JObject(FieldPayload(f))) == Some(f)
  {
    StringsParse(f.includes);
    assert Texts([]) == [];
  }

  /** Parsing any document that holds the printed payload gives the configuration back, absent
      attributes included, exactly if it has no expiry: an expiry is printed but not read. */
  lemma PayloadRoundTrip(document: map<string, Json>, c: Config)
    requires Get(document, "config", JNull) == JObject(Payload(c))
    ensures Parsed(document) == Ok(Some(c.(exp := None)))
    ensures Parsed(document) == Ok(Some(c)) <==> c.exp.None?
  {
    hide ParseField, FieldPayload, FieldPayloads, AllAlerts, Alerts, Strings, AlertNames;
    FieldsRoundTrip(c.fields);
    AlertsParse(c.alertTypes);
    NoAlerts();
  }

  lemma FieldsRoundTrip(fields: map<string, Field>)
    ensures var payloads := FieldPayloads(fields);
            && (forall name :: name in payloads ==> ParseField(payloads[name]).Some?)
            && (map name | name in payloads :: ParseField(payloads[name]).value) == fields
  {
    hide ParseField, FieldPayload;
    forall name | name in fields ensures ParseField(JObject(FieldPayload(fields[name]))) == Some(fields[name]) {
      FieldRoundTrip(fields[name]);
    }
  }

  lemma NoAlerts()
    ensures AllAlerts([]) && Alerts([]) == []
  {
  }

  /** Whatever Tesla returned, printing what was parsed and parsing it again changes nothing. */
  lemma ParsedConfigsAreStable(document: map<string, Json>, c: Config)
    requires Parsed(document) == Ok(Some(c))
    ensures Parsed(map["config" := JObject(Payload(c))]) == Parsed(document)
  {
    assert c.exp.None? by {
      hide ParseField, AllAlerts, Alerts, PortOf;
    }
    PayloadRoundTrip(map["config" := JObject(Payload(c))], c);
  }

  /** Different configurations have different payloads. */
  lemma PayloadIsInjective(c: Config, d: Config)
    requires Payload(c) == Payload(d)
    ensures c == d
  {
    var document := map["config" := JObject(Payload(c))];
    PayloadRoundTrip(document, c);
    PayloadRoundTrip(document, d);
    ExpiryIsPrinted(c);
    ExpiryIsPrinted(d);
    hide Payload, Parsed;
    assert c.(exp := None) == d.(exp := None);
  }

  lemma ExpiryIsPrinted(c: Config)
    ensures Get(Payload(c), "exp", JNull) == if c.exp.None? then JNull else JInt(c.exp.value)
  {
  }
}
