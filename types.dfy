/**
 * Values shared by every part of the updater: the registrar's record types,
 * the error taxonomy, and the environment through which the program reaches
 * the outside world (URL parsing, DNS, IP parsing, HTTP and JSON decoding).
 */
module Types {

  datatype Option<T> = None | Some(value: T)

  /** One DNS record as the registrar reports it (Go type domainRecord). */
  datatype DomainRecord = DomainRecord(
    id: int,
    recordType: string,
    name: string,
    data: string,
    priority: int,
    port: string,
    weight: string)

  /** The zero value of domainRecord, returned on every error path. */
  const ZeroRecord := DomainRecord(0, "", "", "", 0, "", "")

  /** Body of a single-record response: { "domain_record": {...} }. */
  datatype ADomainRecord = ADomainRecord(record: DomainRecord)

  /**
   * Body of a list response: { "domain_records": [...] }. A Go slice can be
   * nil (field absent or null) or present and possibly empty; `None` is nil.
   */
  datatype DomainRecords = DomainRecords(records: Option<seq<DomainRecord>>)

  /** Every way a stage of the program can fail; one constructor per error site. */
  datatype Error =
    | UrlUnparsable(url: string)         // url.Parse failed on an echo endpoint
    | GetFailed                          // transport error of an HTTP call
    | ErrorStatus(status: int)           // HTTP status >= 400
    | UnreadableBody                     // reading the response body failed
    | NotAnIP                            // trimmed body is not an IP literal
    | UnacceptableStatus(status: int)    // IP check answered with a status other than 200
    | AllRemotesFailed(count: nat)       // the loop over echo endpoints ended
    | DomainUnparsable(domain: string)   // url.Parse failed on the domain
    | SchemeGiven(scheme: string)        // the domain carried a URI scheme
    | HostUnparsable(host: string)       // url.Parse failed on record.domain
    | LookupFailed(host: string)         // DNS lookup returned an error
    | NoAddresses(host: string)          // DNS lookup returned no address
    | DomainInvalid                      // record check refused because the domain is invalid
    | PutFailed(id: int)                 // transport error of the update call
    | DecodeFailed                       // JSON body could not be decoded
    | NotUpdated                         // registrar echoed a value other than the requested IP
    | RecordsNil(name: string)           // list response had no record collection
    | RecordNotFound(name: string, domain: string) // no record carries the requested name

  datatype Result<T> = Ok(value: T) | Err(error: Error)

  /** What url.Parse yields: the scheme and the URL rendered back (u.String()). */
  datatype URL = URL(scheme: string, text: string)

  /** A response body: either it could not be read in full, or its text. */
  datatype Body = Unreadable | Body(text: string)

  datatype Response = Response(status: int, body: Body)

  /**
   * An HTTP request as the program builds it. `payload` is the record the
   * request body encodes (the JSON encoding itself is the library's).
   */
  datatype Request = Request(
    verb: string,
    url: string,
    authorization: string,
    contentType: string,
    payload: Option<DomainRecord>)

  /**
   * The outside world. Each field stands for a library or network call the
   * program makes and whose internals are not modelled:
   *   parseURL      url.Parse (None: parse error)
   *   lookupHost    net.LookupHost (None: lookup error; Some: the addresses)
   *   parseIP       net.ParseIP followed by IP.String (None: not an IP)
   *   send          http.Get / http.Client.Do (None: transport error)
   *   decodeRecords json decoding of a list body (None: decode error)
   *   decodeRecord  json decoding of a single-record body (None: decode error)
   */
  datatype Env = Env(
    parseURL: string -> Option<URL>,
    lookupHost: string -> Option<seq<string>>,
    parseIP: string -> Option<string>,
    send: Request -> Option<Response>,
    decodeRecords: string -> Option<DomainRecords>,
    decodeRecord: string -> Option<ADomainRecord>)

  /** A plain GET with no headers, as http.Get issues it. */
  function Get(url: string): Request {
    Request("GET", url, "", "", None)
  }
}
