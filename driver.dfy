/**
 * The command-line driver (main): check the argument count and the token's
 * shape, validate domain and record, pick the IP (the -ip flag or the first
 * echo service), reconcile, and update when needed. Each stage that fails
 * ends the run with its own exit code.
 */
module Driver {
  import opened Types
  import opened Validation
  import opened IPCheck
  import opened Registry
  import opened Text

  /** Length of a registrar API token, in bytes (Go's len). */
  const TokenLength: nat := 64

  /** Where a run ends. */
  datatype Stage =
    | Usage            // not exactly three positional arguments
    | BadToken         // token is not 64 bytes long
    | BadDomain        // checkDomainValid failed
    | BadRecord        // checkRecordValid failed
    | IPLookupFailed   // no -ip flag and the echo service failed
    | ReconcileFailed  // hasIPChanged failed
    | NotRequired(ip: string)
    | Updated(ip: string)
    | UpdateFailed     // updateRecordWithIP failed: falls through to the last exit

  predicate Succeeded(s: Stage) {
    s.NotRequired? || s.Updated?
  }

  function ExitCode(s: Stage): int {
    match s
    case Usage => -1
    case BadToken => 1
    case BadDomain => 2
    case BadRecord => 3
    case IPLookupFailed => 4
    case ReconcileFailed => 5
    case NotRequired(_) => 0
    case Updated(_) => 0
    case UpdateFailed => 6
  }

  /** The IP to publish: a non-empty -ip value as given, else the external lookup. */
  function ChosenIP(env: Env, ipFlag: string, remotes: seq<string>): Result<string> {
    if ipFlag != "" then Ok(ipFlag) else ExternalLookup(env, remotes)
  }

  /** Where a run with these arguments, flag, echo services and environment ends. */
  function Outcome(env: Env, args: seq<string>, ipFlag: string, remotes: seq<string>): Stage {
    if |args| != 3 then Usage
    else
      var token, domain, record := args[0], args[1], args[2];
      if Utf8Len(token) != TokenLength then BadToken
      else if CheckDomainValid(env, domain).Some? then BadDomain
      else if CheckRecordValid(env, record, domain).Some? then BadRecord
      else
        match ChosenIP(env, ipFlag, remotes)
        case Err(_) => IPLookupFailed
        case Ok(ip) => Publish(env, ip, token, domain, record)
  }

  /** The stages after the IP is known: reconcile, then update when the value differs. */
  function Publish(env: Env, ip: string, token: string, domain: string, record: string): Stage {
    var r := Reconcile(env, ip, token, domain, record);
    if r.err.Some? then ReconcileFailed
    else if !r.changed then NotRequired(ip)
    else if UpdateRecordWithIP(env, ip, token, domain, r.record).None? then Updated(ip)
    else UpdateFailed
  }

  /** main, with the process exit replaced by returning the exit code. */
  method Run(env: Env, args: seq<string>, ipFlag: string, remotes: seq<string>) returns (code: int)
    ensures code == ExitCode(Outcome(env, args, ipFlag, remotes))
  {
    if |args| != 3 {
      return -1;
    }
    var token, domain, record := args[0], args[1], args[2];
    if Utf8Len(token) != TokenLength {
      return 1;
    }
    var err := CheckDomainValid(env, domain);
    if err.Some? {
      return 2;
    }
    err := CheckRecordValid(env, record, domain);
    if err.Some? {
      return 3;
    }
    assert Validated(env, args);
    var ip: string;
    if ipFlag != "" {
      ip := ipFlag;
    } else {
      var ipExt := CheckMyIP(env, remotes);
      if ipExt.Err? {
        return 4;
      }
      ip := ipExt.value;
    }
    assert ChosenIP(env, ipFlag, remotes) == Ok(ip);
    assert Outcome(env, args, ipFlag, remotes) == Publish(env, ip, token, domain, record);
    code := PublishCode(env, ip, token, domain, record);
  }

  /** The part of main after the IP is known: reconcile, update when needed, exit. */
  method PublishCode(env: Env, ip: string, token: string, domain: string, record: string) returns (code: int)
    ensures code == ExitCode(Publish(env, ip, token, domain, record))
  {
    var rec, changed, reconcileErr := HasIPChanged(env, ip, token, domain, record);
    if reconcileErr.Some? {
      return 5;
    }
    if changed {
      var updateErr := UpdateRecordWithIP(env, ip, token, domain, rec);
      if updateErr.None? {
        return 0;
      }
    } else {
      return 0;
    }
    return 6;
  }

  /** Zero means success; every failure stage has an exit code of its own. */
  lemma ExitCodesDistinguishStages(s: Stage, t: Stage)
    ensures ExitCode(s) == 0 <==> Succeeded(s)
    ensures !Succeeded(s) && !Succeeded(t) && s != t ==> ExitCode(s) != ExitCode(t)
  {
  }

  /** A token of the wrong length ends the run whatever DNS and the network would answer. */
  lemma TokenCheckedBeforeNetwork(env1: Env, env2: Env, args: seq<string>, ipFlag: string, remotes: seq<string>)
    requires |args| == 3 && Utf8Len(args[0]) != TokenLength
    ensures Outcome(env1, args, ipFlag, remotes) == Outcome(env2, args, ipFlag, remotes) == BadToken
  {
  }

  /** 32 copies of U+00E9 take 64 bytes; U+00E9 and 63 ASCII letters take 65. */
  lemma {:induction false} NonAsciiTokenLengths()
    ensures Utf8Len(seq(32, _ => '\U{E9}')) == TokenLength
    ensures Utf8Len(['\U{E9}'] + seq(63, _ => 'a')) == TokenLength + 1
  {
    Utf8LenOfRepeat('\U{E9}', 32);
    var wide := ['\U{E9}'] + seq(63, _ => 'a');
    assert wide[1..] == seq(63, _ => 'a');
    Utf8LenOfRepeat('a', 63);
  }

  /**
   * The token is measured in bytes: 32 copies of U+00E9 (two bytes each)
   * pass the token check, while U+00E9 followed by 63 ASCII letters (64 code
   * points, 65 bytes) fails it. For an ASCII token bytes and characters agree.
   */
  lemma {:induction false} TokenLengthCountsBytes(env: Env, domain: string, record: string, ipFlag: string, remotes: seq<string>)
    ensures Outcome(env, [seq(32, _ => '\U{E9}'), domain, record], ipFlag, remotes) != BadToken
    ensures Outcome(env, [['\U{E9}'] + seq(63, _ => 'a'), domain, record], ipFlag, remotes) == BadToken
    ensures forall token :: IsAscii(token) ==> (Utf8Len(token) == TokenLength <==> |token| == TokenLength)
  {
    NonAsciiTokenLengths();
    forall token | IsAscii(token) ensures Utf8Len(token) == TokenLength <==> |token| == TokenLength {
      Utf8LenBounds(token);
    }
  }

  /** An invalid domain ends the run with code 2 whatever the record label is. */
  lemma InvalidDomainExitsTwo(env: Env, args: seq<string>, ipFlag: string, remotes: seq<string>)
    requires |args| == 3 && Utf8Len(args[0]) == TokenLength
    ensures ExitCode(Outcome(env, args, ipFlag, remotes)) == 2 <==> CheckDomainValid(env, args[1]).Some?
  {
  }

  /**
   * A non-empty -ip value bypasses the echo services: the list of services
   * does not matter, the lookup stage cannot fail, and the value is
   * published as given, without being checked to be an IP.
   */
  lemma {:induction false} IPFlagBypassesLookup(env: Env, args: seq<string>, ipFlag: string, remotes: seq<string>)
    requires ipFlag != ""
    ensures Outcome(env, args, ipFlag, remotes) == Outcome(env, args, ipFlag, [])
    ensures Outcome(env, args, ipFlag, remotes) != IPLookupFailed
    ensures Succeeded(Outcome(env, args, ipFlag, remotes)) ==> Outcome(env, args, ipFlag, remotes).ip == ipFlag
  {
  }

  /** Exit code 4 is reachable only without the -ip flag, when the first echo service fails or there is none. */
  lemma {:induction false} LookupFailureNeedsNoFlag(env: Env, args: seq<string>, ipFlag: string, remotes: seq<string>)
    requires ExitCode(Outcome(env, args, ipFlag, remotes)) == 4
    ensures ipFlag == ""
    ensures remotes == [] || GetIPFrom(env, remotes[0]).Err?
  {
    assert Outcome(env, args, ipFlag, remotes) == IPLookupFailed;
  }

  /** The arguments are well formed and both validators accept them. */
  predicate Validated(env: Env, args: seq<string>) {
    && |args| == 3
    && Utf8Len(args[0]) == TokenLength
    && CheckDomainValid(env, args[1]).None?
    && CheckRecordValid(env, args[2], args[1]).None?
  }

  /**
   * A failed update is not given a code of its own stage: it falls through
   * to the last exit, code 6, and that is the only way to reach it.
   */
  lemma {:induction false} FailedUpdateExitsSix(env: Env, args: seq<string>, ipFlag: string, remotes: seq<string>)
    ensures ExitCode(Outcome(env, args, ipFlag, remotes)) == 6 <==>
      && Validated(env, args)
      && ChosenIP(env, ipFlag, remotes).Ok?
      && var ip := ChosenIP(env, ipFlag, remotes).value;
         var r := Reconcile(env, ip, args[0], args[1], args[2]);
         r.err.None? && r.changed && UpdateRecordWithIP(env, ip, args[0], args[1], r.record).Some?
  {
  }

  /**
   * Exit code 0 exactly when every stage passed and either the published
   * value already was the IP or the update was confirmed.
   */
  lemma {:induction false} SuccessExitsZero(env: Env, args: seq<string>, ipFlag: string, remotes: seq<string>)
    ensures ExitCode(Outcome(env, args, ipFlag, remotes)) == 0 <==>
      && Validated(env, args)
      && ChosenIP(env, ipFlag, remotes).Ok?
      && var ip := ChosenIP(env, ipFlag, remotes).value;
         var r := Reconcile(env, ip, args[0], args[1], args[2]);
         r.err.None? && (!r.changed || UpdateRecordWithIP(env, ip, args[0], args[1], r.record).None?)
  {
  }

  // ---- two end-to-end runs with the -ip flag set ----

  /** A token of the expected length. */
  const SampleToken: string := seq(64, _ => 'f')

  /**
   * An environment in which every name resolves, every request is answered
   * with status 200, the domain lists the single record "home" with value
   * `published`, and every PUT is echoed with value `echoed`.
   */
  function Registrar(published: string, echoed: string): Env {
    Env(
      s => Some(URL("", s)),
      s => Some(["192.0.2.1"]),
      s => None,
      (req: Request) => Some(Response(200, Body(req.verb))),
      t => Some(DomainRecords(Some([DomainRecord(7, "A", "home", published, 0, "", "")]))),
      t => Some(ADomainRecord(DomainRecord(7, "A", "home", echoed, 0, "", ""))))
  }

  lemma {:induction false} SampleTokenLength()
    ensures Utf8Len(SampleToken) == TokenLength
  {
    Utf8LenOfRepeat('f', 64);
  }

  /** The published value already is the flag's IP: no update, exit code 0. */
  lemma ScenarioUpToDate()
    ensures Outcome(Registrar("1.2.3.4", "1.2.3.4"), [SampleToken, "example.org", "home"], "1.2.3.4", []) == NotRequired("1.2.3.4")
  {
    SampleTokenLength();
    var env := Registrar("1.2.3.4", "1.2.3.4");
    var records := [DomainRecord(7, "A", "home", "1.2.3.4", 0, "", "")];
    assert ListRecords(env, SampleToken, "example.org") == Ok(Some(records));
    FirstMatchIsUnique(records, "home", 0);
  }

  /** The registrar answers the PUT but echoes the old value: the run ends with exit code 6. */
  lemma ScenarioEchoMismatch()
    ensures Outcome(Registrar("9.9.9.9", "9.9.9.9"), [SampleToken, "example.org", "home"], "1.2.3.4", []) == UpdateFailed
  {
    SampleTokenLength();
    var env := Registrar("9.9.9.9", "9.9.9.9");
    var records := [DomainRecord(7, "A", "home", "9.9.9.9", 0, "", "")];
    assert ListRecords(env, SampleToken, "example.org") == Ok(Some(records));
    FirstMatchIsUnique(records, "home", 0);
    assert UpdateRecordWithIP(env, "1.2.3.4", SampleToken, "example.org", records[0]) == Some(NotUpdated);
  }
}
