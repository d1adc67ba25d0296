/**
 * Proxy-host records as the proxy manager's API lists them, how a host is
 * judged enabled, the dashboard description derived from one host, and the
 * enabled-host/domain traversal that both the dashboard builder and the DNS
 * sync walk.
 */
module ProxyHosts {
  import opened Wrappers

  /**
   * One proxy-host record. Every field is read with `dict.get`, so every
   * field may be absent; `metaName` is None when either `meta` or its `name`
   * is missing.
   */
  datatype ProxyHost = ProxyHost(
    enabled: Option<bool>,
    domainNames: Option<seq<string>>,
    forwardHost: Option<string>,
    forwardPort: Option<int>,
    metaName: Option<string>)

  /** `proxy.get("enabled", False)` taken as a condition: an absent flag is false. */
  predicate Enabled(h: ProxyHost) {
    h.enabled == Some(true)
  }

  /** `proxy.get("domain_names", [])`. */
  function DomainNames(h: ProxyHost): seq<string> {
    h.domainNames.GetOr([])
  }

  /** The domains a host contributes to the traversal: none unless it is enabled. */
  function Contribution(h: ProxyHost): seq<string> {
    if Enabled(h) then DomainNames(h) else []
  }

  // ---------------------------------------------------------------------
  // Rendering values the way a Python f-string does
  // ---------------------------------------------------------------------

  const DigitChars := "0123456789"

  /** `str(n)` for a natural number. */
  function DecimalDigits(n: nat): (s: string)
    ensures |s| > 0
    ensures forall k :: 0 <= k < |s| ==> s[k] in DigitChars
  {
    if n < 10 then [DigitChars[n]] else DecimalDigits(n / 10) + [DigitChars[n % 10]]
  }

  /** `str(n)` for an integer, with a leading minus sign when negative. */
  function DecimalInt(n: int): string {
    if n < 0 then "-" + DecimalDigits(-n) else DecimalDigits(n)
  }

  /** An optional string field inside an f-string: None renders as "None". */
  function ShowString(s: Option<string>): string {
    match s
    case None => "None"
    case Some(v) => v
  }

  /** An optional integer field inside an f-string: None renders as "None". */
  function ShowInt(n: Option<int>): string {
    match n
    case None => "None"
    case Some(v) => DecimalInt(v)
  }

  /** `f"{proxy.get('forward_host')}:{proxy.get('forward_port')}"`. */
  function HostPort(h: ProxyHost): string {
    ShowString(h.forwardHost) + ":" + ShowInt(h.forwardPort)
  }

  /**
   * The description of a host: a truthy `meta.name`, else the host:port
   * string, else the literal "Proxy". The postconditions say that the
   * host:port string is never empty, so the last alternative is never taken.
   */
  function Description(h: ProxyHost): (r: string)
    ensures Truthy(h.metaName) ==> r == h.metaName.value
    ensures !Truthy(h.metaName) ==> r == HostPort(h)
    ensures r != ""
  {
    if Truthy(h.metaName) then h.metaName.value
    else if HostPort(h) != "" then HostPort(h)
    else "Proxy"
  }

  /** The literal "Proxy" can only come from a host whose `meta.name` is itself "Proxy". */
  lemma ProxyLiteralOnlyFromMetaName(h: ProxyHost)
    ensures Description(h) == "Proxy" ==> h.metaName == Some("Proxy")
  {
    if !Truthy(h.metaName) {
      var hp := HostPort(h);
      var at := |ShowString(h.forwardHost)|;
      assert hp[at] == ':';
    }
  }

  /** A host with no meta name, forward host or forward port is described as "None:None". */
  lemma MissingFieldsRenderAsNone(enabled: Option<bool>, domains: Option<seq<string>>)
    ensures Description(ProxyHost(enabled, domains, None, None, None)) == "None:None"
  {
  }

  // ---------------------------------------------------------------------
  // The enabled-host/domain traversal
  // ---------------------------------------------------------------------

  /**
   * Every domain of every enabled host, in host-then-domain order, duplicates
   * kept. Defined by peeling the last host, so that a loop over a prefix of
   * the hosts maintains `EnabledDomains(hosts[..i])`.
   */
  function EnabledDomains(hosts: seq<ProxyHost>): seq<string> {
    if hosts == [] then []
    else EnabledDomains(hosts[..|hosts| - 1]) + Contribution(hosts[|hosts| - 1])
  }

  /** The enabled hosts, in their listing order. */
  function EnabledHosts(hosts: seq<ProxyHost>): (r: seq<ProxyHost>)
    ensures forall k :: 0 <= k < |r| ==> Enabled(r[k])
  {
    if hosts == [] then []
    else
      var last := hosts[|hosts| - 1];
      EnabledHosts(hosts[..|hosts| - 1]) + (if Enabled(last) then [last] else [])
  }

  /** The traversal of a concatenation is the concatenation of the traversals. */
  lemma {:induction false} EnabledDomainsAppend(a: seq<ProxyHost>, b: seq<ProxyHost>)
    ensures EnabledDomains(a + b) == EnabledDomains(a) + EnabledDomains(b)
  {
    if b == [] {
      assert a + b == a;
    } else {
      var n := |b|;
      assert (a + b)[..|a + b| - 1] == a + b[..n - 1];
      assert (a + b)[|a + b| - 1] == b[n - 1];
      EnabledDomainsAppend(a, b[..n - 1]);
    }
  }

  /** A domain is traversed exactly when some enabled host lists it. */
  lemma {:induction false} EnabledDomainsMember(hosts: seq<ProxyHost>, d: string)
    ensures d in EnabledDomains(hosts) <==>
            exists i :: 0 <= i < |hosts| && Enabled(hosts[i]) && d in DomainNames(hosts[i])
  {
    if hosts != [] {
      var n := |hosts|;
      var prefix := hosts[..n - 1];
      EnabledDomainsMember(prefix, d);
      if d in EnabledDomains(hosts) {
        if d in EnabledDomains(prefix) {
          var i :| 0 <= i < |prefix| && Enabled(prefix[i]) && d in DomainNames(prefix[i]);
          assert hosts[i] == prefix[i];
        } else {
          assert Enabled(hosts[n - 1]) && d in DomainNames(hosts[n - 1]);
        }
      } else {
        forall i | 0 <= i < n
          ensures !(Enabled(hosts[i]) && d in DomainNames(hosts[i]))
        {
          if i < n - 1 {
            assert hosts[i] == prefix[i];
          }
        }
      }
    }
  }

  /** Disabled hosts contribute nothing: dropping them leaves the traversal unchanged. */
  lemma {:induction false} EnabledDomainsIgnoresDisabled(hosts: seq<ProxyHost>)
    ensures EnabledDomains(EnabledHosts(hosts)) == EnabledDomains(hosts)
  {
    if hosts != [] {
      var n := |hosts|;
      var last := hosts[n - 1];
      EnabledDomainsIgnoresDisabled(hosts[..n - 1]);
      var kept := if Enabled(last) then [last] else [];
      EnabledDomainsAppend(EnabledHosts(hosts[..n - 1]), kept);
      if Enabled(last) {
        assert kept[..0] == [];
      }
    }
  }
}
