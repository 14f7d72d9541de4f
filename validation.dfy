/**
 * Input validation (checkDomainValid, checkRecordValid): the domain must be
 * scheme-less and resolve in DNS; the record label must resolve once joined
 * to the domain. Both are checked before any registrar call.
 */
module Validation {
  import opened Types

  /** The host resolves: the lookup succeeds and yields at least one address. */
  predicate Resolves(env: Env, host: string) {
    env.lookupHost(host).Some? && |env.lookupHost(host).value| >= 1
  }

  /** The lookup step both validators share: an error, or no address, fails. */
  function CheckResolves(env: Env, host: string): (r: Option<Error>)
    ensures r.None? <==> Resolves(env, host)
    ensures r.Some? ==> r.value == LookupFailed(host) || r.value == NoAddresses(host)
  {
    match env.lookupHost(host)
    case None => Some(LookupFailed(host))
    case Some(addrs) => if |addrs| < 1 then Some(NoAddresses(host)) else None
  }

  /** checkDomainValid: None means the domain is accepted. */
  function CheckDomainValid(env: Env, domain: string): (r: Option<Error>)
    ensures r.None? <==>
      && env.parseURL(domain).Some?
      && env.parseURL(domain).value.scheme == ""
      && Resolves(env, domain)
    ensures env.parseURL(domain).Some? && env.parseURL(domain).value.scheme != "" ==>
      r == Some(SchemeGiven(env.parseURL(domain).value.scheme))
  {
    match env.parseURL(domain)
    case None => Some(DomainUnparsable(domain))
    case Some(u) =>
      if u.scheme != "" then Some(SchemeGiven(u.scheme))
      else CheckResolves(env, domain)
  }

  /** checkRecordValid: the domain first, then record + "." + domain. */
  function CheckRecordValid(env: Env, record: string, domain: string): (r: Option<Error>)
    ensures CheckDomainValid(env, domain).Some? ==> r == Some(DomainInvalid)
    ensures r.None? <==>
      && CheckDomainValid(env, domain).None?
      && env.parseURL(record + "." + domain).Some?
      && Resolves(env, record + "." + domain)
  {
    if CheckDomainValid(env, domain).Some? then Some(DomainInvalid)
    else
      var fullHost := record + "." + domain;
      match env.parseURL(fullHost)
      case None => Some(HostUnparsable(fullHost))
      case Some(_) => CheckResolves(env, fullHost)
  }

  /**
   * A domain given with a scheme is refused before DNS is consulted: two
   * environments that parse the domain alike give the same verdict,
   * whatever their lookups answer.
   */
  lemma SchemeRefusedBeforeLookup(env1: Env, env2: Env, domain: string)
    requires env1.parseURL(domain) == env2.parseURL(domain)
    requires env1.parseURL(domain).Some? && env1.parseURL(domain).value.scheme != ""
    ensures CheckDomainValid(env1, domain) == CheckDomainValid(env2, domain)
    ensures CheckDomainValid(env1, domain).Some?
  {
  }

  /** An invalid domain makes every record invalid, and no record label is looked up. */
  lemma InvalidDomainRefusesEveryRecord(env: Env, domain: string, record1: string, record2: string)
    requires CheckDomainValid(env, domain).Some?
    ensures CheckRecordValid(env, record1, domain) == CheckRecordValid(env, record2, domain) == Some(DomainInvalid)
  {
  }

  /**
   * Once the domain is valid, the record verdict depends only on the joined
   * host name: the scheme test is not repeated on it.
   */
  lemma RecordVerdictFollowsJoinedHost(env: Env, record: string, domain: string)
    requires CheckDomainValid(env, domain).None?
    requires env.parseURL(record + "." + domain).Some?
    ensures CheckRecordValid(env, record, domain) == CheckResolves(env, record + "." + domain)
  {
  }
}
