# Proxy-host → dashboard and DNS alias sync, modelled in Dafny

This project models the logic of `npm_to_homepage.py`, a script that reads the
reverse-proxy manager's list of proxy hosts and does two things with it:

* **Dashboard builder** (`build_homepage_services`). Every enabled host becomes
  one or more entries in a single named dashboard group. The group is keyed by
  domain. Each entry holds `href = "https://" + domain` and a description:
  the host's `meta.name` if that is truthy, otherwise
  `"{forward_host}:{forward_port}"`. The group is an insertion-ordered Python
  dict, so a domain listed by several hosts keeps the place where it was first
  seen but takes the entry of the last host that lists it. The result is the
  one-element list `[{group name: group}]`.
* **DNS alias sync** (`sync_pihole` and the guard at the top of
  `pihole_add_cname`). The script walks the same enabled hosts and domains and
  sends one CNAME request per domain, in host-then-domain order, without
  removing duplicates. If any of the three DNS settings is absent or empty,
  each request does nothing.

Modules (one file each):

| file | module | contents |
|---|---|---|
| `wrappers.dfy` | `Wrappers` | `Option`, plus Python truthiness of an optional string |
| `proxy_hosts.dfy` | `ProxyHosts` | the `ProxyHost` record (every field optional, as `dict.get` reads it), f-string rendering, `Description`, and the enabled-host/domain traversal `EnabledDomains` |
| `first_occurrence.dfy` | `FirstOccurrence` | `Dedup`, the key order of an insertion-ordered dict, with its properties |
| `homepage.dfy` | `Homepage` | the ordered group (`keys` plus `entries`), its specification fold `GroupOf`, the imperative `BuildHomepageServices`, and lemmas about the group |
| `pihole.dfy` | `Pihole` | `DnsConfig`, `AliasRequest`, the `PiholeClient` class holding the log of requests sent, and its methods `AddCname` and `SyncPihole` |

`BuildHomepageServices` and `PiholeClient.SyncPihole` follow the source's
nested loops, including the `continue` on disabled hosts. The dict is held as
two locals: a key list and a map. Each loop is proved against a recursive
specification function that peels off the last element: `GroupOf` for the
builder, and `AliasRequests` applied to `EnabledDomains` for the sync. The
properties below are proved about those functions.

The configuration is an explicit `DnsConfig` value, not global state. The
dashboard group name is a parameter. An HTTP request to the DNS appliance is
modelled as appending `AliasRequest(domain, target, "CNAME")` to
`PiholeClient.sent`.

The third alternative `or "Proxy"` (npm_to_homepage.py:58) can never be
taken. The f-string at npm_to_homepage.py:57 renders a missing value as
`"None"` and always contains `":"`, so it is never empty. `Description` keeps
that branch, and its contract shows it is never taken.
`MissingFieldsRenderAsNone` shows that a host without meta name, forward host
and forward port is described as `"None:None"`.

## Model

| member | source | states |
|---|---|---|
| `ProxyHosts.Description` | npm_to_homepage.py:55-59 | A truthy `meta.name` is used verbatim. Otherwise the description is exactly `forward_host + ":" + forward_port`. It is never empty, so the `"Proxy"` alternative is never chosen. |
| `ProxyHosts.ProxyLiteralOnlyFromMetaName` | npm_to_homepage.py:55-59 | The description is `"Proxy"` only when the host's `meta.name` is `"Proxy"`. The fallback literal is unreachable. |
| `ProxyHosts.MissingFieldsRenderAsNone` | npm_to_homepage.py:55-59 | A host missing its meta name, forward host and forward port is described as `"None:None"`, not `"Proxy"`. |
| `ProxyHosts.EnabledDomainsAppend` | npm_to_homepage.py:51-61 | Traversing two lists of hosts one after the other gives the concatenation of their domain streams. |
| `ProxyHosts.EnabledDomainsMember` | npm_to_homepage.py:51-61 | A domain appears in the traversal if and only if some enabled host lists it. |
| `ProxyHosts.EnabledDomainsIgnoresDisabled` | npm_to_homepage.py:51-53 | Dropping disabled hosts (`enabled` false or absent) leaves the traversal unchanged. |
| `FirstOccurrence.DedupElements` | npm_to_homepage.py:61-65 | The dict's key list has no repeats and holds exactly the inserted keys. |
| `FirstOccurrence.DedupOrder` | npm_to_homepage.py:61-65 | The dict's keys are listed in the order of their first insertion. |
| `Homepage.Put` | npm_to_homepage.py:62-65 | `group[domain] = entry` keeps the group well formed and stores `entry` under `domain`. Other keys are untouched. A new key goes to the end of the key order; an existing key does not move. |
| `Homepage.BuildHomepageServices` | npm_to_homepage.py:48-67 | The result has exactly one element. That element maps only the configured group name, and maps it to `GroupOf(proxies)`. |
| `Homepage.AddDomainsMiss` | npm_to_homepage.py:61-65 | A host's inner loop leaves a domain it does not list as it was. |
| `Homepage.AddDomainsHit` | npm_to_homepage.py:61-65 | After a host's inner loop, each domain it lists holds that host's entry. |
| `Homepage.PutKeys` | npm_to_homepage.py:62-65 | One write extends the key order by first occurrence. |
| `Homepage.AddDomainsKeys` | npm_to_homepage.py:61-65 | One host's inner loop extends the key order by first occurrence. |
| `Homepage.GroupKeysInDiscoveryOrder` | npm_to_homepage.py:51-65 | The group's keys are the enabled hosts' domains with repeats dropped, in first-discovery order. Its entries are exactly those domains. |
| `Homepage.GroupIsValid` | npm_to_homepage.py:49-65 | The built group lists each of its keys exactly once. |
| `Homepage.GroupDomains` | npm_to_homepage.py:51-65 | A domain has an entry if and only if some enabled host lists it. The entry count equals the number of distinct domains across enabled hosts. |
| `Homepage.GroupKeyOrder` | npm_to_homepage.py:61-62 | For any two keys, the earlier one was first discovered earlier in the host-then-domain traversal. A later overwrite does not move a key. |
| `Homepage.GroupHrefs` | npm_to_homepage.py:62-63 | Every entry's `href` is `"https://"` followed by its own key. |
| `Homepage.LastWriteWins` | npm_to_homepage.py:51-65 | When host `i` is the last enabled host listing `d`, the entry for `d` is host `i`'s: `href` for `d` and host `i`'s description. All domains of one host share its description. |
| `Homepage.GroupIgnoresDisabled` | npm_to_homepage.py:51-53 | Dropping disabled hosts leaves the group unchanged. |
| `Homepage.SingleHostExample` | npm_to_homepage.py:48-67 | One enabled host `svc:8080` with domain `a.example.com` and no meta name gives the single entry `{href: "https://a.example.com", description: "svc:8080"}`. |
| `Pihole.AliasRequests` | npm_to_homepage.py:76-91 | With complete settings: one request per domain, in order, each `(domain, target, "CNAME")`. If any setting is absent or empty: no request. |
| `Pihole.PiholeClient.AddCname` | npm_to_homepage.py:76-91 | Appends one CNAME request when configured. Otherwise the log is unchanged. |
| `Pihole.PiholeClient.SyncPihole` | npm_to_homepage.py:98-104 | The log grows by the requests for the traversal: one per domain of each enabled host, in host-then-domain order, duplicates kept. Nothing is added when the settings are incomplete. |
| `Pihole.SyncIgnoresDisabled` | npm_to_homepage.py:98-101 | Disabled hosts cause no DNS requests. |
| `Pihole.SyncMatchesDashboard` | npm_to_homepage.py:98-104 | With complete settings, a domain gets an alias request if and only if it gets a dashboard entry. |

## Left out

- Loading the environment and `.env` file, and the exit when NPM credentials are missing (npm_to_homepage.py:7-23). This is process and configuration I/O. The DNS settings become a `DnsConfig` parameter and the group name a method parameter.
- `npm_login` and `get_proxy_hosts` (npm_to_homepage.py:30-44). These are HTTP session, bearer-header and JSON decoding wrappers. The model receives the decoded host list as a value.
- The DNS appliance's HTTP GET, its URL and token parameters, the 5-second timeout and the warning on a non-200 status (npm_to_homepage.py:80-95). A request is an entry in the log. It records domain, target and record type. The status code is network behaviour and is not modelled. The model also assumes every request returns. In the code, a timeout or connection error raised by one request is caught by nothing in `pihole_add_cname` or `sync_pihole` (npm_to_homepage.py:80-104). It abandons the rest of the sync, and `main` then reports a fatal error and exits 1 (npm_to_homepage.py:119-121). `PiholeClient.SyncPihole` promises a request for every enabled domain, so it does not cover that early exit.
- `write_yaml` and the YAML serialisation (npm_to_homepage.py:70-72). This is file I/O through an external library. Only its key order (`sort_keys=False`) carries over, as the order of `Group.keys`. Whether two runs give byte-identical files depends on that serialiser. The model only shows that `GroupOf` is a function of its input.
- `main`'s exception handler, console messages and exit codes (npm_to_homepage.py:106-121). This is orchestration glue.
- Python's truthiness of JSON values other than `true`/`false` for `enabled`, and of a non-string `meta.name`. The model types `enabled` as an optional boolean and `meta.name` as an optional string.
- A JSON `null` for `meta` or `domain_names`. In the code this raises an exception, which `main` reports as a fatal error. The model treats a missing value as absent, so it cannot express `null`.
