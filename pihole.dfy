/**
 * The DNS alias sync: one CNAME request per domain of every enabled host,
 * sent only when the DNS appliance's settings are all present. The HTTP call
 * is modelled as appending the request to a log of requests sent.
 */
module Pihole {
  import opened Wrappers
  import opened ProxyHosts
  import Homepage

  /** The three optional DNS settings, passed explicitly instead of read from globals. */
  datatype DnsConfig = DnsConfig(
    piholeUrl: Option<string>,
    apiToken: Option<string>,
    cnameTarget: Option<string>)

  /** `all([PIHOLE_URL, PIHOLE_API_TOKEN, PROXY_CNAME_TARGET])`. */
  predicate Configured(c: DnsConfig) {
    Truthy(c.piholeUrl) && Truthy(c.apiToken) && Truthy(c.cnameTarget)
  }

  /** One alias request: create record `domain` of `recordType`, pointing at `target`. */
  datatype AliasRequest = AliasRequest(domain: string, target: string, recordType: string)

  const CnameType := "CNAME"

  /**
   * The requests `pihole_add_cname` sends for the given domains, in order:
   * one CNAME request to the configured target per domain when the settings
   * are complete, none otherwise.
   */
  function AliasRequests(c: DnsConfig, domains: seq<string>): (r: seq<AliasRequest>)
    ensures !Configured(c) ==> r == []
    ensures Configured(c) ==> |r| == |domains|
    ensures Configured(c) ==> forall k :: 0 <= k < |r| ==>
      r[k] == AliasRequest(domains[k], c.cnameTarget.value, CnameType)
  {
    if !Configured(c) || domains == [] then []
    else
      var n := |domains|;
      AliasRequests(c, domains[..n - 1]) + [AliasRequest(domains[n - 1], c.cnameTarget.value, CnameType)]
  }

  /** Requests for consecutive batches of domains are the requests for the whole batch. */
  lemma AliasRequestsAppend(c: DnsConfig, a: seq<string>, b: seq<string>)
    ensures AliasRequests(c, a + b) == AliasRequests(c, a) + AliasRequests(c, b)
  {
  }

  /** The log of requests the sync has sent to the DNS appliance. */
  class PiholeClient {
    const config: DnsConfig
    var sent: seq<AliasRequest>

    constructor (config: DnsConfig)
      ensures this.config == config && sent == []
    {
      this.config := config;
      sent := [];
    }

    /** pihole_add_cname: a no-op unless configured, else one CNAME request. */
    method AddCname(domain: string)
      modifies this
      ensures sent == old(sent) + AliasRequests(config, [domain])
    {
      if !Configured(config) {
        return;
      }
      sent := sent + [AliasRequest(domain, config.cnameTarget.value, CnameType)];
    }

    /** sync_pihole: the enabled-host/domain traversal, one AddCname per domain. */
    method SyncPihole(proxies: seq<ProxyHost>)
      modifies this
      ensures sent == old(sent) + AliasRequests(config, EnabledDomains(proxies))
    {
      var i := 0;
      while i < |proxies|
        invariant 0 <= i <= |proxies|
        invariant sent == old(sent) + AliasRequests(config, EnabledDomains(proxies[..i]))
      {
        var proxy := proxies[i];
        assert proxies[..i + 1][..i] == proxies[..i];
        if !Enabled(proxy) {
          i := i + 1;
          continue;
        }
        var domains := DomainNames(proxy);
        var j := 0;
        while j < |domains|
          invariant 0 <= j <= |domains|
          invariant sent == old(sent) + AliasRequests(config, EnabledDomains(proxies[..i]) + domains[..j])
        {
          assert domains[..j + 1] == domains[..j] + [domains[j]];
          AliasRequestsAppend(config, EnabledDomains(proxies[..i]) + domains[..j], [domains[j]]);
          AddCname(domains[j]);
          assert EnabledDomains(proxies[..i]) + domains[..j + 1]
              == EnabledDomains(proxies[..i]) + domains[..j] + [domains[j]];
          j := j + 1;
        }
        assert domains[..j] == domains;
        i := i + 1;
      }
      assert proxies[..i] == proxies;
    }
  }

  // ---------------------------------------------------------------------
  // What the sync sends
  // ---------------------------------------------------------------------

  /** Disabled hosts lead to no request: dropping them leaves the requests unchanged. */
  lemma SyncIgnoresDisabled(c: DnsConfig, hosts: seq<ProxyHost>)
    ensures AliasRequests(c, EnabledDomains(EnabledHosts(hosts))) == AliasRequests(c, EnabledDomains(hosts))
  {
    EnabledDomainsIgnoresDisabled(hosts);
  }

  /**
   * The two halves agree: with complete settings, a domain gets an alias
   * request exactly when it gets a dashboard entry.
   */
  lemma SyncMatchesDashboard(c: DnsConfig, hosts: seq<ProxyHost>, d: string)
    requires Configured(c)
    ensures (exists k :: 0 <= k < |AliasRequests(c, EnabledDomains(hosts))|
               && AliasRequests(c, EnabledDomains(hosts))[k].domain == d)
        <==> d in Homepage.GroupOf(hosts).entries
  {
    var ed := EnabledDomains(hosts);
    var r := AliasRequests(c, ed);
    Homepage.GroupKeysInDiscoveryOrder(hosts);
    if d in ed {
      var k :| 0 <= k < |ed| && ed[k] == d;
      assert r[k].domain == d;
    }
  }
}
