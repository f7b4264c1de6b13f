/**
 * What `Pharos::Kube.client` derives from an API version string: the URL path prefix
 * (`api` for the core "v1", `apis` otherwise), the group and the version, and the cache of
 * clients, which is keyed by the version string alone.
 */
module KubeClient {
  import opened Wrappers
  import opened Strings
  import opened Resources

  /** A client for one API group version: `endpoint/prefix/group` plus the version it speaks. */
  datatype Client = Client(endpoint: string, prefix: string, group: Option<string>, version: Option<string>)

  /** `"#{x}"` of a value that may be nil. */
  function Text(o: Option<string>): string
  {
    if o.Some? then o.value else ""
  }

  /** `version.split('/').reverse` read as `api_version, api_group`: the last field and the one before it. */
  function MakeClient(endpoint: string, version: string): (c: Client)
    ensures c.endpoint == endpoint
    ensures c.prefix == "api" <==> version == "v1"
    ensures c.prefix == "api" || c.prefix == "apis"
  {
    var f := Split(version, '/');
    Client(
      endpoint,
      if version == "v1" then "api" else "apis",
      if |f| >= 2 then Some(f[|f| - 2]) else None,
      if |f| >= 1 then Some(f[|f| - 1]) else None)
  }

  /** The URL the client is created with: the endpoint, then "/#{path_prefix}/#{api_group}". */
  function Url(c: Client): string
  {
    c.endpoint + ApiPath(c)
  }

  /** The path part of that URL: "/api/" for the core group, "/apis/<group>" for another. */
  function ApiPath(c: Client): string
  {
    "/" + c.prefix + "/" + Text(c.group)
  }

  /** The path under which the server serves this group version, e.g. "/apis/apps/v1", "/api/v1". */
  function ServedBase(c: Client): string
  {
    "/" + c.prefix + "/" + (if c.group.Some? then c.group.value + "/" else "") + Text(c.version)
  }

  lemma CoreClient(endpoint: string)
    ensures MakeClient(endpoint, "v1") == Client(endpoint, "api", None, Some("v1"))
    ensures Url(MakeClient(endpoint, "v1")) == endpoint + "/api/"
  {
    FieldsOfPlain("v1", '/');
  }

  lemma DiscoveryClient(endpoint: string)
    ensures MakeClient(endpoint, "") == Client(endpoint, "apis", None, None)
    ensures Url(MakeClient(endpoint, "")) == endpoint + "/apis/"
  {
  }

  /** For "group/version" the group is the segment before the slash and the version the one after it. */
  lemma GroupClient(endpoint: string, g: string, v: string)
    requires NoSep(g, '/') && NoSep(v, '/') && v != ""
    ensures MakeClient(endpoint, g + "/" + v) == Client(endpoint, "apis", Some(g), Some(v))
    ensures Url(MakeClient(endpoint, g + "/" + v)) == endpoint + "/apis/" + g
  {
    FieldsOfPlain(v, '/');
    FieldsOfJoin(g, '/', v);
    assert g + "/" + v == g + ['/'] + v;
    assert (g + "/" + v)[|g|] == '/';
  }

  /** A group version as discovery reports it: "v1", or "group/version". */
  predicate GroupVersionForm(gv: string)
  {
    var f := Fields(gv, '/');
    (|f| == 1 || |f| == 2) && f[|f| - 1] != ""
  }

  /** A client made for a group version serves objects under "/" + prefix + "/" + that group version. */
  lemma ServedBaseOfForm(endpoint: string, gv: string)
    requires GroupVersionForm(gv)
    ensures ServedBase(MakeClient(endpoint, gv)) == "/" + MakeClient(endpoint, gv).prefix + "/" + gv
  {
    var f := Fields(gv, '/');
    FieldsJoin(gv, '/');
    if |f| == 1 {
      assert gv == f[0];
      assert Split(gv, '/') == f;
    } else {
      assert Join(f, '/') == f[0] + ['/'] + f[1];
      GroupClient(endpoint, f[0], f[1]);
    }
  }

  /** Every cached client is the one `MakeClient` builds for its key from the endpoint it was read with. */
  predicate CacheValid(clients: map<string, Client>)
  {
    forall v :: v in clients ==> clients[v] == MakeClient(clients[v].endpoint, v)
  }

  /** A cache lookup: the client, whether the host's config file was read, and the cache afterwards. */
  datatype Connection = Connection(result: Result<Client, ApiError>, readConfig: bool, clients: map<string, Client>)

  /**
   * `client(host, version)`: a cached client for `version` is returned whatever `host` is;
   * otherwise the host's config (`configs`: host to API endpoint) is read and a new client cached.
   */
  function Connect(configs: map<string, string>, clients: map<string, Client>, host: string, version: string): (r: Connection)
    ensures r.result.Ok? <==> version in clients || host in configs
    ensures r.result.Ok? ==> version in r.clients && r.clients[version] == r.result.value
    ensures r.clients.Keys == if r.result.Ok? then clients.Keys + {version} else clients.Keys
    ensures forall v :: v in clients ==> v in r.clients && r.clients[v] == clients[v]
    ensures r.readConfig <==> version !in clients
    ensures CacheValid(clients) ==> CacheValid(r.clients)
    ensures r.result.Err? ==> r.result.error == NoConfig(host)
  {
    if version in clients then Connection(Ok(clients[version]), false, clients)
    else if host in configs then
      var c := MakeClient(configs[host], version);
      Connection(Ok(c), true, clients[version := c])
    else Connection(Err(NoConfig(host)), true, clients)
  }

  /**
   * Once a client for `version` is cached, asking again, for any host, returns that same
   * client without reading a config and without changing the cache.
   */
  lemma CacheKeyedByVersion(configs: map<string, string>, clients: map<string, Client>, host: string, other: string, version: string)
    requires Connect(configs, clients, host, version).result.Ok?
    ensures var first := Connect(configs, clients, host, version);
      Connect(configs, first.clients, other, version) == Connection(first.result, false, first.clients)
  {
  }
}
