/**
 * The registrar client and the reconciliation decision (hasIPChanged,
 * updateRecordWithIP): list the domain's records, pick the first one with
 * the wanted name, compare its value with the IP, and if it differs send the
 * record back with only its value replaced.
 */
module Registry {
  import opened Types
  import opened Text

  const APIRoot: string := "https://api.digitalocean.com/v2"

  /** GET/PUT endpoints: <root>/domains/<domain>/records[/<id>]. */
  function RecordsURL(domain: string): string {
    APIRoot + "/domains/" + domain + "/records"
  }

  function RecordURL(domain: string, id: int): string {
    RecordsURL(domain) + "/" + Decimal(id)
  }

  function Bearer(token: string): string {
    "Bearer " + token
  }

  /** The record ID that a record URL of `domain` names, read back from its last segment. */
  function RecordIDOf(domain: string, url: string): Option<int> {
    var prefix := RecordsURL(domain) + "/";
    if |prefix| <= |url| && url[..|prefix|] == prefix then ParseDecimal(url[|prefix|..]) else None
  }

  // ---- update ----

  /** The PUT that updateRecordWithIP issues: the record with its value set to `ip`. */
  function UpdateRequest(ip: string, token: string, domain: string, record: DomainRecord): Request {
    var sent := record.(data := ip);
    Request("PUT", RecordURL(domain, record.id), Bearer(token), "application/json", Some(sent))
  }

  /**
   * The record sent differs from the one read only in its value, and the
   * request is addressed by that record's ID: the ID can be read back from
   * the URL.
   */
  lemma {:induction false} UpdateSendsRecordWithNewData(ip: string, token: string, domain: string, record: DomainRecord)
    ensures var req := UpdateRequest(ip, token, domain, record);
      && req.verb == "PUT"
      && req.authorization == Bearer(token)
      && req.payload.Some?
      && req.payload.value.data == ip
      && req.payload.value.id == record.id
      && req.payload.value.recordType == record.recordType
      && req.payload.value.name == record.name
      && req.payload.value.priority == record.priority
      && req.payload.value.port == record.port
      && req.payload.value.weight == record.weight
      && RecordIDOf(domain, req.url) == Some(record.id)
  {
    var prefix := RecordsURL(domain) + "/";
    var url := RecordURL(domain, record.id);
    assert url == prefix + Decimal(record.id);
    assert url[..|prefix|] == prefix && url[|prefix|..] == Decimal(record.id);
    DecimalRoundTrip(record.id);
  }

  /** Two records of one domain are updated through the same URL only if they share their ID. */
  lemma {:induction false} RecordURLIdentifiesRecord(domain: string, id1: int, id2: int)
    requires RecordURL(domain, id1) == RecordURL(domain, id2)
    ensures id1 == id2
  {
    var prefix := RecordsURL(domain) + "/";
    assert RecordURL(domain, id1)[|prefix|..] == Decimal(id1);
    assert RecordURL(domain, id2)[|prefix|..] == Decimal(id2);
    DecimalRoundTrip(id1);
    DecimalRoundTrip(id2);
  }

  /** Decoding a single-record response body; an unreadable body fails to decode. */
  function DecodeRecord(env: Env, body: Body): Option<ADomainRecord> {
    match body
    case Unreadable => None
    case Body(text) => env.decodeRecord(text)
  }

  /**
   * updateRecordWithIP: None when the registrar accepted the PUT (status
   * below 400) and echoed a record whose value is `ip`; otherwise why not.
   */
  function UpdateRecordWithIP(env: Env, ip: string, token: string, domain: string, record: DomainRecord): (r: Option<Error>)
    ensures var out := env.send(UpdateRequest(ip, token, domain, record));
      r.None? <==>
        && out.Some?
        && out.value.status < 400
        && DecodeRecord(env, out.value.body).Some?
        && DecodeRecord(env, out.value.body).value.record.data == ip
    ensures var out := env.send(UpdateRequest(ip, token, domain, record));
      out.Some? && out.value.status >= 400 ==> r == Some(ErrorStatus(out.value.status))
    ensures var out := env.send(UpdateRequest(ip, token, domain, record));
      && out.Some? && out.value.status < 400
      && DecodeRecord(env, out.value.body).Some?
      && DecodeRecord(env, out.value.body).value.record.data != ip
      ==> r == Some(NotUpdated)
  {
    match env.send(UpdateRequest(ip, token, domain, record))
    case None => Some(PutFailed(record.id))
    case Some(resp) =>
      if resp.status >= 400 then Some(ErrorStatus(resp.status))
      else
        match DecodeRecord(env, resp.body)
        case None => Some(DecodeFailed)
        case Some(dr) => if dr.record.data != ip then Some(NotUpdated) else None
  }

  // ---- listing and reconciliation ----

  /** The GET that hasIPChanged issues for the domain's record list. */
  function ListRequest(token: string, domain: string): Request {
    Request("GET", RecordsURL(domain), Bearer(token), "", None)
  }

  function DecodeRecords(env: Env, body: Body): Option<DomainRecords> {
    match body
    case Unreadable => None
    case Body(text) => env.decodeRecords(text)
  }

  /**
   * The listing part of hasIPChanged: the decoded record collection (None
   * when the response carried none), or the transport, status or decoding
   * error.
   */
  function ListRecords(env: Env, token: string, domain: string): (r: Result<Option<seq<DomainRecord>>>)
    ensures var out := env.send(ListRequest(token, domain));
      && (r.Ok? <==> out.Some? && out.value.status < 400 && DecodeRecords(env, out.value.body).Some?)
      && (r.Ok? ==> r.value == DecodeRecords(env, out.value.body).value.records)
  {
    match env.send(ListRequest(token, domain))
    case None => Err(GetFailed)
    case Some(resp) =>
      if resp.status >= 400 then Err(ErrorStatus(resp.status))
      else
        match DecodeRecords(env, resp.body)
        case None => Err(DecodeFailed)
        case Some(drs) => Ok(drs.records)
  }

  /** Index of the first record carrying `name`, if any. */
  function FirstMatch(records: seq<DomainRecord>, name: string): (k: Option<nat>)
    ensures k.Some? ==>
      && k.value < |records|
      && records[k.value].name == name
      && forall j :: 0 <= j < k.value ==> records[j].name != name
    ensures k.None? ==> forall j :: 0 <= j < |records| ==> records[j].name != name
  {
    if records == [] then None
    else if records[0].name == name then Some(0)
    else
      match FirstMatch(records[1..], name)
      case None => None
      case Some(k) => Some(k + 1)
  }

  /** What hasIPChanged returns: the record, whether its value differs, and the error. */
  datatype Reconciliation = Reconciliation(record: DomainRecord, changed: bool, err: Option<Error>)

  /** The decision on a listed collection: first match wins, changed when its value is not `ip`. */
  function Decide(records: seq<DomainRecord>, name: string, ip: string, domain: string): Reconciliation {
    match FirstMatch(records, name)
    case None => Reconciliation(ZeroRecord, false, Some(RecordNotFound(name, domain)))
    case Some(k) => Reconciliation(records[k], records[k].data != ip, None)
  }

  function Reconcile(env: Env, ip: string, token: string, domain: string, name: string): Reconciliation {
    match ListRecords(env, token, domain)
    case Err(e) => Reconciliation(ZeroRecord, false, Some(e))
    case Ok(None) => Reconciliation(ZeroRecord, false, Some(RecordsNil(name)))
    case Ok(Some(records)) => Decide(records, name, ip, domain)
  }

  /** hasIPChanged: list, then scan the records in order and stop at the first name match. */
  method HasIPChanged(env: Env, ip: string, token: string, domain: string, name: string)
    returns (record: DomainRecord, changed: bool, err: Option<Error>)
    ensures Reconciliation(record, changed, err) == Reconcile(env, ip, token, domain, name)
  {
    var listed := ListRecords(env, token, domain);
    if listed.Err? {
      return ZeroRecord, false, Some(listed.error);
    }
    if listed.value.None? {
      return ZeroRecord, false, Some(RecordsNil(name));
    }
    var records := listed.value.value;
    for i := 0 to |records|
      invariant forall j :: 0 <= j < i ==> records[j].name != name
    {
      if records[i].name == name {
        FirstMatchIsUnique(records, name, i);
        if ip == records[i].data {
          return records[i], false, None;
        }
        return records[i], true, None;
      }
    }
    return ZeroRecord, false, Some(RecordNotFound(name, domain));
  }

  /** A matching index with no match before it is the one FirstMatch finds. */
  lemma FirstMatchIsUnique(records: seq<DomainRecord>, name: string, i: nat)
    requires i < |records| && records[i].name == name
    requires forall j :: 0 <= j < i ==> records[j].name != name
    ensures FirstMatch(records, name) == Some(i)
  {
  }

  /**
   * The decision on a listed collection: the first record carrying the name
   * is returned, flagged changed exactly when its value is not `ip`; no
   * record carrying it is a not-found error with the zero record.
   */
  lemma {:induction false} DecideReturnsFirstMatch(records: seq<DomainRecord>, name: string, ip: string, domain: string)
    ensures var d := Decide(records, name, ip, domain);
      && (d.err.None? <==> exists i :: 0 <= i < |records| && records[i].name == name)
      && (d.err.None? ==>
            exists i :: 0 <= i < |records| && records[i].name == name && d.record == records[i]
              && (forall j :: 0 <= j < i ==> records[j].name != name)
              && (d.changed <==> records[i].data != ip))
      && (d.err.Some? ==> d == Reconciliation(ZeroRecord, false, Some(RecordNotFound(name, domain))))
  {
    match FirstMatch(records, name)
    case None =>
    case Some(k) =>
      assert records[k].name == name;
  }

  /** Records after the first match are never looked at. */
  lemma {:induction false} LaterRecordsIgnored(records: seq<DomainRecord>, more: seq<DomainRecord>, name: string, ip: string, domain: string)
    requires FirstMatch(records, name).Some?
    ensures Decide(records + more, name, ip, domain) == Decide(records, name, ip, domain)
  {
    var k := FirstMatch(records, name).value;
    assert (records + more)[k] == records[k];
    FirstMatchIsUnique(records + more, name, k);
  }

  /**
   * Every error path of hasIPChanged returns the zero record and "not
   * changed"; a nil collection and a collection without the name are the
   * two not-found errors.
   */
  lemma {:induction false} ReconcileErrorShape(env: Env, ip: string, token: string, domain: string, name: string)
    ensures var r := Reconcile(env, ip, token, domain, name);
      && (r.err.Some? ==> r.record == ZeroRecord && !r.changed)
      && (ListRecords(env, token, domain) == Ok(None) ==> r.err == Some(RecordsNil(name)))
      && (ListRecords(env, token, domain).Ok? && ListRecords(env, token, domain).value.Some? ==>
            (r.err == Some(RecordNotFound(name, domain)) <==>
             forall j :: 0 <= j < |ListRecords(env, token, domain).value.value| ==>
               ListRecords(env, token, domain).value.value[j].name != name))
  {
    match ListRecords(env, token, domain)
    case Err(_) =>
    case Ok(None) =>
    case Ok(Some(records)) =>
      DecideReturnsFirstMatch(records, name, ip, domain);
  }

  /**
   * Update and decision fit together: once the registrar stores the record
   * the update sends in place of the first match, deciding again finds that
   * record and nothing to change.
   */
  lemma {:induction false} UpdateSettlesDecision(records: seq<DomainRecord>, name: string, ip: string, token: string, domain: string)
    requires FirstMatch(records, name).Some?
    ensures var k := FirstMatch(records, name).value;
      var sent := UpdateRequest(ip, token, domain, records[k]).payload.value;
      Decide(records[k := sent], name, ip, domain) == Reconciliation(sent, false, None)
  {
    var k := FirstMatch(records, name).value;
    var sent := UpdateRequest(ip, token, domain, records[k]).payload.value;
    var after := records[k := sent];
    assert after[k].name == name;
    FirstMatchIsUnique(after, name, k);
  }
}
