# dodns in Dafny

A model of `dodns`, a small command-line dynamic-DNS updater for the
DigitalOcean API. Given an API token of 64 bytes (UTF-8), a domain and a record
label, it:

1. checks that the domain carries no URI scheme and resolves in DNS, and
   that `record + "." + domain` resolves too;
2. takes the IP to publish from the `-ip` flag, or else asks a plain-text
   "what is my IP" echo service;
3. lists the domain's records, takes the first record whose name is the
   label, and compares its value with the IP;
4. when the values differ, PUTs the record back with only its value
   replaced, and accepts the result only if the registrar echoes the new
   value;
5. ends with an exit code that names the stage that failed, or 0.

Everything outside the program's own decisions — URL parsing, DNS lookup,
IP parsing, HTTP requests and JSON decoding — is a field of the datatype
`Types.Env`, a set of functions the model takes as a parameter. The
decisions are stated about every such environment.

Files, one module each:

- `types.dfy` (`Types`): the registrar's record types, the error taxonomy,
  HTTP requests and responses, and `Env`.
- `text.dfy` (`Text`): `strings.TrimSpace` over Go's white-space set, and
  the decimal rendering of record IDs in request paths with its parser.
- `validation.dfy` (`Validation`): `checkDomainValid`, `checkRecordValid`.
- `ip_check.dfy` (`IPCheck`): `decodeIPCheckResponse`, `getIPFrom`,
  `checkMyIP` (a method with its loop).
- `registry.dfy` (`Registry`): the list request, the first-match search of
  `hasIPChanged` (a method with its loop, proved against the recursive
  `FirstMatch`), and `updateRecordWithIP`.
- `driver.dfy` (`Driver`): `main` as the method `Run` (its stages after
  the IP is known in `PublishCode`), proved against the function `Outcome`
  (where a run ends) and `ExitCode`.

Behaviour of the code that the model keeps as written:

- An update fails only on status 400 and above (dodns.go:162). A status
  from 201 to 399 only prints a warning (dodns.go:166-168), and the response
  is then decoded as usual.
- A missing or empty record collection is two different errors. A nil
  collection gives "record not found" (`RecordsNil`, dodns.go:218). A
  present but empty list gives "not found in domain" (`RecordNotFound`,
  dodns.go:233), the same error as a list without the name.
- The `-ip` value is not checked for IP syntax: any non-empty value is used
  as given (dodns.go:330-332).
- The token test at dodns.go:309 takes Go's `len` of the token, which
  counts the bytes of its UTF-8 encoding, not its characters. The model
  measures the token with `Text.Utf8Len`.
- `checkRecordValid` does not repeat the scheme test on the joined host
  name. Only `url.Parse` success and the DNS lookup are required of it.
- `checkMyIP` iterates over the list of echo services but returns from its
  first iteration, success or failure. The model keeps this, and proves
  that the second service is never asked.
- The test `dr == nil` in `updateRecordWithIP` can never hold, because `dr`
  comes from `new`. The model has no such branch.

## Model

| member | source | states |
|---|---|---|
| `Text.TrimSpace` | dodns.go:84 | the trimmed answer has no white space at either end and is no longer than the body |
| `Text.TrimSpaceIgnoresPadding` | dodns.go:84 | white space (Go's set) before and after a text is dropped: trimming the padded text equals trimming the bare text |
| `Text.Utf8LenBounds` | dodns.go:309 | Go's `len` of a string (its UTF-8 byte count) lies between one and four bytes per character, and equals the character count exactly for ASCII text |
| `Text.Utf8LenOfRepeat` | dodns.go:309 | a string of `n` copies of one character takes `n` times that character's encoded width |
| `Text.DecimalRoundTrip` | dodns.go:34 | the `%d` rendering of an ID loses nothing: parsing it back gives the same integer |
| `Validation.CheckResolves` | dodns.go:247-257 | a host passes exactly when its DNS lookup succeeds with at least one address; a lookup error and an empty answer are the two failures |
| `Validation.CheckDomainValid` | dodns.go:236-258 | the domain is accepted exactly when it parses, has an empty scheme and resolves; a non-empty scheme is reported as such |
| `Validation.CheckRecordValid` | dodns.go:260-286 | an invalid domain always gives "domain invalid"; otherwise the record is accepted exactly when `record + "." + domain` parses and resolves |
| `Validation.SchemeRefusedBeforeLookup` | dodns.go:243-247 | a domain with a scheme is refused whatever DNS would answer: two environments that parse it alike give the same refusal |
| `Validation.InvalidDomainRefusesEveryRecord` | dodns.go:262-265 | when the domain is invalid, every record label gets the same "domain invalid" verdict |
| `Validation.RecordVerdictFollowsJoinedHost` | dodns.go:267-285 | with a valid domain and a parsable joined name, the record verdict is the DNS verdict on `record + "." + domain` |
| `IPCheck.DecodeIPCheckResponse` | dodns.go:74-95 | succeeds exactly on status 200 with a readable body whose trimmed text is an IP, returning that IP; any other status is "unacceptable status" |
| `IPCheck.GetIPFrom` | dodns.go:97-123 | an unparsable URL fails; success exactly when the GET goes through and its response decodes to an IP, and the IP returned is the one the decoder reads from that response |
| `IPCheck.GetIPFromStatusRule` | dodns.go:112-120 | status >= 400 fails before decoding, any other status but 200 fails in the decoder, and status 200 succeeds exactly when the trimmed body is an IP |
| `IPCheck.DecodeIgnoresPadding` | dodns.go:84-91 | an answer padded with white space decodes exactly as the bare answer |
| `IPCheck.CheckMyIP` | dodns.go:125-139 | the loop's result is the first service's result, or "all remotes failed" for an empty list |
| `IPCheck.FirstRemoteDecides` | dodns.go:127-136 | whatever the later services would answer, the outcome is the first service's, and its failure is never reported as "all remotes failed" |
| `IPCheck.AllRemotesFailedOnlyWhenEmpty` | dodns.go:125-138 | "failed from all remotes" is reported if and only if the list is empty, and then with count 0 |
| `IPCheck.ShippedListAsksOnlyFirst` | dodns.go:27-30 | with the built-in list, the outcome is that of `http://ipecho.net/plain` alone |
| `Registry.UpdateSendsRecordWithNewData` | dodns.go:146-154 | the PUT carries the record with `data` replaced by the IP and ID, type, name, priority, port and weight unchanged, bearer authorization, and a URL from which the record's ID reads back |
| `Registry.RecordURLIdentifiesRecord` | dodns.go:33-34 | two IDs give the same update URL of a domain only if they are equal |
| `Registry.UpdateRecordWithIP` | dodns.go:141-186 | success exactly when the PUT goes through with status below 400 and the decoded echo's value is the requested IP; status >= 400 is an error status; a different echoed value is "not updated" |
| `Registry.ListRecords` | dodns.go:190-216 | the listing succeeds exactly when the GET goes through with status below 400 and the body decodes, and it then returns the decoded collection (nil included) |
| `Registry.FirstMatch` | dodns.go:222-223 | returns an index whose record has the name and no earlier record has it, or none when no record has the name |
| `Registry.HasIPChanged` | dodns.go:188-234 | the scanning loop returns what `Reconcile` specifies: listing errors, nil collection, first match with "changed" when its value differs, or not-found |
| `Registry.FirstMatchIsUnique` | dodns.go:222-223 | the first matching index in list order is the only answer the search can give |
| `Registry.DecideReturnsFirstMatch` | dodns.go:222-232 | no error exactly when some record has the name; then the result is the first such record, changed exactly when its value is not the IP; otherwise the zero record, unchanged, not-found |
| `Registry.LaterRecordsIgnored` | dodns.go:222-229 | records after the first match, appended in any number, do not change the decision |
| `Registry.ReconcileErrorShape` | dodns.go:198-232 | every error path returns the zero record and "not changed"; a nil collection is `RecordsNil`; for a listed collection, not-found holds exactly when no record has the name |
| `Registry.UpdateSettlesDecision` | dodns.go:146-150 | once the registrar stores the record the update sends in place of the first match, deciding again returns that record with nothing to change |
| `Driver.Run` | dodns.go:292-367 | the exit code of the imperative driver is `ExitCode(Outcome(...))` for every argument list, flag, service list and environment |
| `Driver.PublishCode` | dodns.go:344-366 | once the IP is known, the exit code is that of the reconcile-then-update stages: 5 on a reconciliation error, 0 when no change is needed or the update is confirmed, 6 otherwise |
| `Driver.ExitCodesDistinguishStages` | dodns.go:300-366 | code 0 exactly for "updated" and "not required"; distinct failure stages have distinct codes |
| `Driver.TokenCheckedBeforeNetwork` | dodns.go:309-312 | with three arguments and a token whose UTF-8 encoding is not 64 bytes long, the run ends at the token stage whatever the environment |
| `Driver.TokenLengthCountsBytes` | dodns.go:309-312 | the token is measured in UTF-8 bytes: 32 copies of U+00E9 pass the test, U+00E9 followed by 63 ASCII letters (64 characters, 65 bytes) fails it, and for ASCII tokens bytes and characters agree |
| `Driver.InvalidDomainExitsTwo` | dodns.go:309-319 | with three arguments and a 64-byte token, exit code 2 occurs exactly when the domain is invalid |
| `Driver.IPFlagBypassesLookup` | dodns.go:328-342 | a non-empty `-ip` value makes the service list irrelevant, makes the lookup stage unreachable, and is the IP reported on success, unvalidated |
| `Driver.LookupFailureNeedsNoFlag` | dodns.go:330-339 | exit code 4 requires an empty `-ip` flag and a failing first service (or no service) |
| `Driver.FailedUpdateExitsSix` | dodns.go:300-366 | exit code 6 occurs exactly when there are three arguments, the token is 64 bytes, domain and record are valid, an IP was obtained, the record needed a change, and the update failed |
| `Driver.SuccessExitsZero` | dodns.go:300-363 | exit code 0 occurs exactly when there are three arguments, the token is 64 bytes, domain and record are valid, an IP was obtained, and either no change was needed or the update was confirmed |
| `Driver.ScenarioUpToDate` | dodns.go:360-363 | a run with `-ip 1.2.3.4` against a record already at 1.2.3.4 ends "not required" |
| `Driver.ScenarioEchoMismatch` | dodns.go:181-183 | a run whose PUT is echoed with the old value ends at the fall-through stage, exit code 6 |

## Left out

- HTTP transport (`http.Get`, `http.Client.Do`, redirects, header handling,
  closing bodies): a request is a `Types.Request` value, and `Env.send`
  answers it with a status and a body, or a transport error.
- JSON encoding and decoding: `Env.decodeRecords` and `Env.decodeRecord`
  stand for the library's decoder. The record sent is the `payload` value,
  not its wire form. The wire-format round trip is not modelled.
- `url.Parse`, `net.LookupHost` and `net.ParseIP` with `IP.String`: these
  are library and DNS calls, modelled as the `Env` fields `parseURL`,
  `lookupHost` and `parseIP`.
- Reading the body as bytes and converting it with `string(...)`: the body
  is modelled as already-decoded text, so invalid UTF-8 is not modelled.
  Command-line arguments are likewise sequences of characters; the token's
  byte length is that of their UTF-8 encoding, and an argument that is not
  valid UTF-8 is not modelled.
  `Text.TrimSpace` uses Go's `unicode.IsSpace` set.
- Errors from `http.NewRequest` are ignored by the code (a nil request
  would make the process panic). The model always builds the request.
- Error message text, `%q` formatting of integers, usage and warning
  output (including the warning for a status from 201 to 399): these are
  output only. Errors are the constructors of `Types.Error`.
- Flag parsing and the globals `binName` and `ipFlag`: `Driver.Run` takes
  the positional arguments and the flag value as parameters. `flag.Parse`
  (dodns.go:296) uses `ExitOnError`: an undefined flag exits with 2 and `-h`
  exits with 0 before any stage runs. These collide with the codes for an
  invalid domain and for success, so the distinct codes that
  `Driver.ExitCodesDistinguishStages` proves hold only for the stages after
  flag parsing.
- Driver.Run: every stage consults one `Env`, so the second DNS lookup of
  the domain inside `checkRecordValid` (dodns.go:262) always agrees with the
  first one (dodns.go:314). The run in which the domain resolves at the
  first lookup and fails at the second (exit code 3 with "domain invalid")
  is not modelled.
- The operating system's translation of exit code -1 (255 on Unix): the
  model returns -1 as written.
- Go's 64-bit `int` for the record ID and priority: the model uses
  unbounded integers. IDs are rendered exactly as `%d` does for any value
  that fits.
