/**
 * The dashboard builder: enabled proxy hosts become one named group of
 * service entries, keyed by domain, in an insertion-ordered dictionary.
 */
module Homepage {
  import opened Wrappers
  import opened ProxyHosts
  import opened FirstOccurrence

  /** One dashboard entry: `{href, description}`. */
  datatype ServiceEntry = ServiceEntry(href: string, description: string)

  /**
   * An insertion-ordered dictionary from domain to entry: `keys` lists the
   * keys in the order the dictionary iterates them, `entries` holds the values.
   */
  datatype Group = Group(keys: seq<string>, entries: map<string, ServiceEntry>)

  /** The output document: a list of single-key mappings from group name to group. */
  type Document = seq<map<string, Group>>

  const EmptyGroup := Group([], map[])

  /** `keys` lists each key of `entries` exactly once. */
  ghost predicate Valid(g: Group) {
    Distinct(g.keys) && forall k :: k in g.entries <==> k in g.keys
  }

  /** The entry a host writes for one of its domains. */
  function EntryFor(domain: string, h: ProxyHost): ServiceEntry {
    ServiceEntry("https://" + domain, Description(h))
  }

  /**
   * `group[key] = entry`: a new key goes to the end of the iteration order,
   * an existing key is overwritten where it stands.
   */
  function Put(g: Group, key: string, entry: ServiceEntry): (r: Group)
    ensures Valid(g) ==> Valid(r)
    ensures key in r.entries && r.entries[key] == entry
    ensures forall k :: k != key ==> (k in r.entries <==> k in g.entries)
    ensures forall k :: k != key && k in g.entries ==> r.entries[k] == g.entries[k]
    ensures key in g.entries ==> r.keys == g.keys
    ensures key !in g.entries ==> r.keys == g.keys + [key]
  {
    Group(if key in g.entries then g.keys else g.keys + [key], g.entries[key := entry])
  }

  /** The inner loop: one host's domains written in order, all with the same description. */
  function AddDomains(g: Group, domains: seq<string>, h: ProxyHost): Group {
    if domains == [] then g
    else
      var last := domains[|domains| - 1];
      Put(AddDomains(g, domains[..|domains| - 1], h), last, EntryFor(last, h))
  }

  /** The group the outer loop has built after the given hosts. */
  function GroupOf(hosts: seq<ProxyHost>): Group {
    if hosts == [] then EmptyGroup
    else
      var last := hosts[|hosts| - 1];
      var g := GroupOf(hosts[..|hosts| - 1]);
      if Enabled(last) then AddDomains(g, DomainNames(last), last) else g
  }

  /**
   * build_homepage_services: one pass over the hosts, skipping disabled ones,
   * and for each enabled host one pass over its domains, writing each
   * domain's entry into the group.
   */
  method BuildHomepageServices(proxies: seq<ProxyHost>, homepageGroup: string) returns (doc: Document)
    ensures |doc| == 1 && doc[0].Keys == {homepageGroup}
    ensures doc[0][homepageGroup] == GroupOf(proxies)
  {
    var keys: seq<string> := [];
    var entries: map<string, ServiceEntry> := map[];
    var i := 0;
    while i < |proxies|
      invariant 0 <= i <= |proxies|
      invariant Group(keys, entries) == GroupOf(proxies[..i])
    {
      var proxy := proxies[i];
      assert proxies[..i + 1][..i] == proxies[..i];
      if !Enabled(proxy) {
        i := i + 1;
        continue;
      }
      var description := Description(proxy);
      var domains := DomainNames(proxy);
      var j := 0;
      while j < |domains|
        invariant 0 <= j <= |domains|
        invariant Group(keys, entries) == AddDomains(GroupOf(proxies[..i]), domains[..j], proxy)
      {
        var domain := domains[j];
        assert domains[..j + 1][..j] == domains[..j];
        if domain !in entries {
          keys := keys + [domain];
        }
        entries := entries[domain := ServiceEntry("https://" + domain, description)];
        j := j + 1;
      }
      assert domains[..j] == domains;
      i := i + 1;
    }
    assert proxies[..i] == proxies;
    doc := [map[homepageGroup := Group(keys, entries)]];
  }

  // ---------------------------------------------------------------------
  // What the built group is
  // ---------------------------------------------------------------------

  /** A domain not written by the inner loop keeps its previous entry, or stays absent. */
  lemma {:induction false} AddDomainsMiss(g: Group, domains: seq<string>, h: ProxyHost, d: string)
    requires d !in domains
    ensures d in AddDomains(g, domains, h).entries <==> d in g.entries
    ensures d in g.entries ==> AddDomains(g, domains, h).entries[d] == g.entries[d]
  {
    if domains != [] {
      AddDomainsMiss(g, domains[..|domains| - 1], h, d);
    }
  }

  /** A domain written by the inner loop ends up with that host's entry. */
  lemma {:induction false} AddDomainsHit(g: Group, domains: seq<string>, h: ProxyHost, d: string)
    requires d in domains
    ensures d in AddDomains(g, domains, h).entries
    ensures AddDomains(g, domains, h).entries[d] == EntryFor(d, h)
  {
    var n := |domains|;
    if domains[n - 1] != d {
      assert d in domains[..n - 1] by {
        var k :| 0 <= k < n && domains[k] == d;
        assert domains[..n - 1][k] == d;
      }
      AddDomainsHit(g, domains[..n - 1], h, d);
    }
  }

  /**
   * One write extends the key order by first occurrence: if the group's keys
   * are the first occurrences of the keys written so far, they remain so.
   */
  lemma PutKeys(g: Group, written: seq<string>, key: string, entry: ServiceEntry)
    requires g.keys == Dedup(written)
    requires forall k :: k in g.entries <==> k in written
    ensures Put(g, key, entry).keys == Dedup(written + [key])
    ensures forall k :: k in Put(g, key, entry).entries <==> k in written + [key]
  {
    var after := written + [key];
    DedupElements(written);
    assert after[..|after| - 1] == written;
    assert forall k :: k in after <==> k in written || k == key;
  }

  /** The inner loop extends the key order by first occurrence, one write at a time. */
  lemma {:induction false} AddDomainsKeys(g: Group, written: seq<string>, domains: seq<string>, h: ProxyHost)
    requires g.keys == Dedup(written)
    requires forall k :: k in g.entries <==> k in written
    ensures AddDomains(g, domains, h).keys == Dedup(written + domains)
    ensures forall k :: k in AddDomains(g, domains, h).entries <==> k in written + domains
  {
    if domains == [] {
      assert written + domains == written;
    } else {
      var n := |domains|;
      var before := written + domains[..n - 1];
      var last := domains[n - 1];
      AddDomainsKeys(g, written, domains[..n - 1], h);
      PutKeys(AddDomains(g, domains[..n - 1], h), before, last, EntryFor(last, h));
      assert written + domains == before + [last];
    }
  }

  /**
   * The group's keys are the domains of the enabled hosts in order of first
   * discovery, and its entries are exactly those domains.
   */
  lemma {:induction false} GroupKeysInDiscoveryOrder(hosts: seq<ProxyHost>)
    ensures GroupOf(hosts).keys == Dedup(EnabledDomains(hosts))
    ensures forall d :: d in GroupOf(hosts).entries <==> d in EnabledDomains(hosts)
  {
    if hosts != [] {
      var n := |hosts|;
      var prefix := hosts[..n - 1];
      var last := hosts[n - 1];
      GroupKeysInDiscoveryOrder(prefix);
      if Enabled(last) {
        AddDomainsKeys(GroupOf(prefix), EnabledDomains(prefix), DomainNames(last), last);
      } else {
        assert GroupOf(hosts) == GroupOf(prefix);
        assert EnabledDomains(hosts) == EnabledDomains(prefix) + [] == EnabledDomains(prefix);
      }
    }
  }

  /** The built group is a well-formed ordered dictionary. */
  lemma GroupIsValid(hosts: seq<ProxyHost>)
    ensures Valid(GroupOf(hosts))
  {
    GroupKeysInDiscoveryOrder(hosts);
    DedupElements(EnabledDomains(hosts));
  }

  /**
   * A domain has an entry exactly when some enabled host lists it; the entry
   * count is the number of distinct such domains.
   */
  lemma GroupDomains(hosts: seq<ProxyHost>)
    ensures forall d :: d in GroupOf(hosts).entries <==>
      exists i :: 0 <= i < |hosts| && Enabled(hosts[i]) && d in DomainNames(hosts[i])
    ensures |GroupOf(hosts).entries| == |GroupOf(hosts).keys| == |set d | d in EnabledDomains(hosts)|
  {
    GroupKeysInDiscoveryOrder(hosts);
    var g := GroupOf(hosts);
    var ed := EnabledDomains(hosts);
    forall d ensures d in g.entries <==>
      exists i :: 0 <= i < |hosts| && Enabled(hosts[i]) && d in DomainNames(hosts[i])
    {
      EnabledDomainsMember(hosts, d);
    }
    DedupElements(ed);
    DistinctCardinality(g.keys);
    assert g.entries.Keys == (set d | d in ed);
    assert (set d | d in g.keys) == (set d | d in ed);
  }

  /** Keys are listed in the order in which the traversal first meets them. */
  lemma GroupKeyOrder(hosts: seq<ProxyHost>, i: nat, j: nat)
    requires i < j < |GroupOf(hosts).keys|
    ensures GroupOf(hosts).keys[i] in EnabledDomains(hosts)
    ensures GroupOf(hosts).keys[j] in EnabledDomains(hosts)
    ensures FirstIndex(EnabledDomains(hosts), GroupOf(hosts).keys[i])
          < FirstIndex(EnabledDomains(hosts), GroupOf(hosts).keys[j])
  {
    GroupKeysInDiscoveryOrder(hosts);
    DedupOrder(EnabledDomains(hosts), i, j);
  }

  /** Every entry links to its own domain over HTTPS. */
  lemma {:induction false} GroupHrefs(hosts: seq<ProxyHost>)
    ensures forall d :: d in GroupOf(hosts).entries ==> GroupOf(hosts).entries[d].href == "https://" + d
  {
    if hosts != [] {
      var n := |hosts|;
      var prefix := hosts[..n - 1];
      var last := hosts[n - 1];
      GroupHrefs(prefix);
      if Enabled(last) {
        forall d | d in GroupOf(hosts).entries
          ensures GroupOf(hosts).entries[d].href == "https://" + d
        {
          if d in DomainNames(last) {
            AddDomainsHit(GroupOf(prefix), DomainNames(last), last, d);
          } else {
            AddDomainsMiss(GroupOf(prefix), DomainNames(last), last, d);
          }
        }
      }
    }
  }

  /**
   * Last write wins: when host `i` is the last enabled host listing `d`, the
   * entry for `d` is the one host `i` writes, whatever earlier hosts wrote.
   */
  lemma {:induction false} LastWriteWins(hosts: seq<ProxyHost>, i: nat, d: string)
    requires i < |hosts| && Enabled(hosts[i]) && d in DomainNames(hosts[i])
    requires forall j :: i < j < |hosts| && Enabled(hosts[j]) ==> d !in DomainNames(hosts[j])
    ensures d in GroupOf(hosts).entries
    ensures GroupOf(hosts).entries[d] == EntryFor(d, hosts[i])
  {
    var n := |hosts|;
    var prefix := hosts[..n - 1];
    var last := hosts[n - 1];
    if i == n - 1 {
      AddDomainsHit(GroupOf(prefix), DomainNames(last), last, d);
    } else {
      assert prefix[i] == hosts[i];
      forall j | i < j < |prefix| && Enabled(prefix[j])
        ensures d !in DomainNames(prefix[j])
      {
        assert prefix[j] == hosts[j];
      }
      LastWriteWins(prefix, i, d);
      if Enabled(last) {
        AddDomainsMiss(GroupOf(prefix), DomainNames(last), last, d);
      }
    }
  }

  /** Disabled hosts contribute nothing: dropping them leaves the group unchanged. */
  lemma {:induction false} GroupIgnoresDisabled(hosts: seq<ProxyHost>)
    ensures GroupOf(EnabledHosts(hosts)) == GroupOf(hosts)
  {
    if hosts != [] {
      var n := |hosts|;
      var last := hosts[n - 1];
      var prefix := hosts[..n - 1];
      GroupIgnoresDisabled(prefix);
      if Enabled(last) {
        var e := EnabledHosts(prefix) + [last];
        assert EnabledHosts(hosts) == e;
        assert e[..|e| - 1] == EnabledHosts(prefix);
        assert GroupOf(e) == AddDomains(GroupOf(EnabledHosts(prefix)), DomainNames(last), last);
      } else {
        assert EnabledHosts(hosts) == EnabledHosts(prefix) + [] == EnabledHosts(prefix);
      }
    }
  }

  /** The single-host example: one enabled host without a meta name. */
  lemma SingleHostExample()
    ensures GroupOf([ProxyHost(Some(true), Some(["a.example.com"]), Some("svc"), Some(8080), None)])
         == Group(["a.example.com"],
                  map["a.example.com" := ServiceEntry("https://a.example.com", "svc:8080")])
  {
    var h := ProxyHost(Some(true), Some(["a.example.com"]), Some("svc"), Some(8080), None);
    assert [h][..0] == [];
    assert ["a.example.com"][..0] == [];
    assert DecimalDigits(8) == "8";
    assert DecimalDigits(80) == "80";
    assert DecimalDigits(808) == "808";
    assert DecimalDigits(8080) == "8080";
    assert Description(h) == "svc:8080";
    var e := ServiceEntry("https://a.example.com", "svc:8080");
    assert EntryFor("a.example.com", h) == e;
    assert AddDomains(EmptyGroup, ["a.example.com"], h) == Put(EmptyGroup, "a.example.com", e);
    assert GroupOf([h]) == AddDomains(EmptyGroup, ["a.example.com"], h);
  }
}
