/**
 * `Pharos::Kube`: applying a stack of manifests and pruning what the stack no longer
 * declares. The functions below say what each operation does to the world (the client
 * cache and the server's store); class `Kube` runs the same steps with loops, as the Ruby
 * code does, and each of its methods is proved to end in the state its function names.
 */
module Kube {
  import opened Wrappers
  import opened Strings
  import opened Resources
  import opened KubeClient
  import opened ApiServer

  /** The process-wide client cache and the server's store. */
  datatype World = World(clients: map<string, Client>, store: Store)

  /** What an operation returns or raises, and the world it leaves behind. */
  datatype Out<T> = Out(result: Result<T, ApiError>, world: World)

  // ---------------------------------------------------------------------------
  // resource_files: the glob's paths in the order of their text

  predicate SortedPaths(s: seq<string>)
  {
    forall i, j :: 0 <= i < j < |s| ==> TextLe(s[i], s[j])
  }

  function Insert(x: string, s: seq<string>): (r: seq<string>)
    requires SortedPaths(s)
    ensures SortedPaths(r) && multiset(r) == multiset(s) + multiset{x}
  {
    if |s| == 0 then [x]
    else if TextLe(x, s[0]) then
      InsertFront(x, s);
      [x] + s
    else
      assert s == [s[0]] + s[1..];
      var t := Insert(x, s[1..]);
      TextLeTotal(x, s[0]);
      InsertBehind(x, s[0], s[1..], t);
      [s[0]] + t
  }

  lemma InsertFront(x: string, s: seq<string>)
    requires SortedPaths(s) && |s| > 0 && TextLe(x, s[0])
    ensures SortedPaths([x] + s)
  {
    forall j | 0 <= j < |s| ensures TextLe(x, s[j]) {
      if j > 0 { TextLeTransitive(x, s[0], s[j]); }
    }
  }

  lemma InsertBehind(x: string, h: string, s: seq<string>, t: seq<string>)
    requires SortedPaths([h] + s) && SortedPaths(t) && TextLe(h, x)
    requires multiset(t) == multiset(s) + multiset{x}
    ensures SortedPaths([h] + t)
  {
    forall j | 0 <= j < |t| ensures TextLe(h, t[j]) {
      assert t[j] in multiset(t);
      if t[j] != x {
        assert t[j] in multiset(s);
        var k :| 0 <= k < |s| && s[k] == t[j];
        assert ([h] + s)[0] == h && ([h] + s)[k + 1] == t[j];
        assert TextLe(([h] + s)[0], ([h] + s)[k + 1]);
      }
    }
    var u := [h] + t;
    forall i, j | 0 <= i < j < |u| ensures TextLe(u[i], u[j]) {
      if i > 0 { assert u[i] == t[i - 1] && u[j] == t[j - 1]; }
    }
  }

  /** `Pathname.glob(...).sort_by(&:to_s)`: the same paths, in ascending text order. */
  function ResourceFiles(paths: seq<string>): (r: seq<string>)
    ensures SortedPaths(r) && multiset(r) == multiset(paths)
  {
    if |paths| == 0 then []
    else
      assert paths == [paths[0]] + paths[1..];
      Insert(paths[0], ResourceFiles(paths[1..]))
  }

  // ---------------------------------------------------------------------------
  // apply_resource: update, and create only when the update finds nothing

  /** The server side of `apply_resource`: update first; create only when the update raised NotFound. */
  function Upsert(d: Discovery, s: Store, c: Client, r: Resource): (out: Reply<Resource>)
    ensures out.result.Err? ==> out.store == s
    ensures out.store.deletions == s.deletions
    ensures Valid(s) ==> Valid(out.store)
  {
    var u := UpdateSpec(d, s, c, r);
    if u.result == Err(NotFound) then CreateSpec(d, u.store, c, r) else u
  }

  function ApplyResourceSpec(configs: map<string, string>, d: Discovery, w: World, host: string, r: Resource): Out<Resource>
  {
    var conn := Connect(configs, w.clients, host, r.apiVersion);
    var w1 := w.(clients := conn.clients);
    if conn.result.Err? then Out(Err(conn.result.error), w1)
    else
      var u := Upsert(d, w1.store, conn.result.value, r);
      Out(u.result, w1.(store := u.store))
  }

  // ---------------------------------------------------------------------------
  // delete_resource

  /** `gsub("/#{api_group}/#{apiVersion}", '')` on the selfLink, `api_group` being `selfLink.split("/")[1]`. */
  function LinkPath(link: string, apiVersion: string): string
  {
    DeleteAll(link, "/" + SecondField(link, '/') + "/" + apiVersion)
  }

  /** `rescue Kubeclient::ResourceNotFoundError; false`: RestClient's own 404 is not caught. */
  function Tolerate(r: Result<bool, ApiError>): Result<bool, ApiError>
  {
    if r == Err(NotFound) then Ok(false) else r
  }

  /**
   * The server side of `delete_resource` without a selfLink: discover the entity type serving
   * the kind, check the object exists, then delete it with foreground cascading.
   */
  function DeleteByEntity(d: Discovery, s: Store, c: Client, r: Resource): (out: Reply<bool>)
    ensures out.result.Err? ==> out.store == s
    ensures out.result != Err(RestNotFound)
    ensures out.result.Ok? ==>
      && out.result.value && |out.store.deletions| == |s.deletions| + 1
      && out.store.deletions[..|s.deletions|] == s.deletions && out.store.deletions[|s.deletions|].policy == Foreground
  {
    match Entities(d, c)
    case Err(e) => Reply(Err(e), s)
    case Ok(es) =>
      var def := FindEntity(es, d.entityKey(r.kind));
      if def.None? then Reply(Err(NoEntity(r.kind)), s)
      else
        var coll := def.value.resourceName;
        var got := GetSpec(s, c, coll, r.metadata.name, r.metadata.namespace);
        if got.Err? then Reply(Err(got.error), s)
        else DeleteEntitySpec(d, s, c, coll, r.metadata.name, r.metadata.namespace, Foreground)
  }

  /** The server side of `delete_resource` with a selfLink: delete at the rewritten link. */
  function DeleteByLink(d: Discovery, s: Store, c: Client, link: string, apiVersion: string): (out: Reply<bool>)
    ensures out.result.Err? ==> out.store == s
    ensures out.result.Ok? ==>
      && out.result.value && |out.store.deletions| == |s.deletions| + 1
      && out.store.deletions[..|s.deletions|] == s.deletions && out.store.deletions[|s.deletions|].policy == DefaultPolicy
  {
    DeletePathSpec(d, s, c, LinkPath(link, apiVersion))
  }

  function DeleteResourceSpec(configs: map<string, string>, d: Discovery, w: World, host: string, r: Resource): Out<bool>
  {
    var conn := Connect(configs, w.clients, host, r.apiVersion);
    var w1 := w.(clients := conn.clients);
    if conn.result.Err? then Out(Err(conn.result.error), w1)
    else
      var del := if r.metadata.selfLink.Some? then DeleteByLink(d, w1.store, conn.result.value, r.metadata.selfLink.value, r.apiVersion)
                 else DeleteByEntity(d, w1.store, conn.result.value, r);
      Out(Tolerate(del.result), w1.(store := del.store))
  }

  // ---------------------------------------------------------------------------
  // prune_stack

  /** `objects.select { annotations nil or checksum annotation != checksum }`, order kept. */
  function StaleOnes(objs: seq<Resource>, checksum: string): (r: seq<Resource>)
    ensures forall x :: x in r <==> x in objs && Stale(x, checksum)
  {
    if |objs| == 0 then []
    else
      assert forall x :: x in objs <==> x == objs[0] || x in objs[1..];
      var rest := StaleOnes(objs[1..], checksum);
      if Stale(objs[0], checksum) then [objs[0]] + rest else rest
  }

  /** Each stale object gets the group's preferred version, is deleted, and is appended to `pruned`. */
  function PruneObjects(configs: map<string, string>, d: Discovery, w: World, host: string, gv: string,
                        stale: seq<Resource>, pruned: seq<Resource>): Out<seq<Resource>>
    decreases |stale|
  {
    if |stale| == 0 then Out(Ok(pruned), w)
    else
      var obj := stale[0].(apiVersion := gv);
      var del := DeleteResourceSpec(configs, d, w, host, obj);
      if del.result.Err? then Out(Err(del.result.error), del.world)
      else PruneObjects(configs, d, del.world, host, gv, stale[1..], pruned + [obj])
  }

  /** The entity types of one group, `*_review` types skipped. */
  function PruneEntities(configs: map<string, string>, d: Discovery, w: World, host: string, stack: string, checksum: string,
                         gv: string, c: Client, es: seq<Entity>, pruned: seq<Resource>): Out<seq<Resource>>
    decreases |es|
  {
    if |es| == 0 then Out(Ok(pruned), w)
    else if EndsWith(es[0].entityType, "_review") then
      PruneEntities(configs, d, w, host, stack, checksum, gv, c, es[1..], pruned)
    else match GetEntitiesSpec(d, w.store, c, es[0].resourceName, stack)
      case Err(e) => Out(Err(e), w)
      case Ok(objects) =>
        var p := PruneObjects(configs, d, w, host, gv, StaleOnes(objects, checksum), pruned);
        if p.result.Err? then p
        else PruneEntities(configs, d, p.world, host, stack, checksum, gv, c, es[1..], p.result.value)
  }

  /** Every API group the server reports, through a client for its preferred version. */
  function PruneGroups(configs: map<string, string>, d: Discovery, w: World, host: string, stack: string, checksum: string,
                       gvs: seq<string>, pruned: seq<Resource>): Out<seq<Resource>>
    decreases |gvs|
  {
    if |gvs| == 0 then Out(Ok(pruned), w)
    else
      var conn := Connect(configs, w.clients, host, gvs[0]);
      var w1 := w.(clients := conn.clients);
      if conn.result.Err? then Out(Err(conn.result.error), w1)
      else match Entities(d, conn.result.value)
        case Err(e) => Out(Err(e), w1)
        case Ok(es) =>
          var p := PruneEntities(configs, d, w1, host, stack, checksum, gvs[0], conn.result.value, es, pruned);
          if p.result.Err? then p
          else PruneGroups(configs, d, p.world, host, stack, checksum, gvs[1..], p.result.value)
  }

  function PruneStackSpec(configs: map<string, string>, d: Discovery, w: World, host: string, stack: string, checksum: string): Out<seq<Resource>>
  {
    var conn := Connect(configs, w.clients, host, "");
    var w1 := w.(clients := conn.clients);
    if conn.result.Err? then Out(Err(conn.result.error), w1)
    else PruneGroups(configs, d, w1, host, stack, checksum, d.groups, [])
  }

  // ---------------------------------------------------------------------------
  // apply_stack

  /**
   * The manifests of `files` in turn: parsed (`docs` maps a file to the resource it holds;
   * a file missing from it does not parse), stamped, applied and appended to `applied`.
   */
  function ApplyFiles(configs: map<string, string>, d: Discovery, w: World, host: string, stack: string, checksum: string,
                      files: seq<string>, docs: map<string, Resource>, applied: seq<Resource>): Out<seq<Resource>>
    decreases |files|
  {
    if |files| == 0 then Out(Ok(applied), w)
    else if files[0] !in docs then Out(Err(Unparsable(files[0])), w)
    else
      var r := Stamp(docs[files[0]], stack, checksum);
      var a := ApplyResourceSpec(configs, d, w, host, r);
      if a.result.Err? then Out(Err(a.result.error), a.world)
      else ApplyFiles(configs, d, a.world, host, stack, checksum, files[1..], docs, applied + [r])
  }

  function ApplyStackSpec(configs: map<string, string>, d: Discovery, w: World, host: string, stack: string, checksum: string,
                          files: seq<string>, docs: map<string, Resource>): Out<seq<Resource>>
  {
    var a := ApplyFiles(configs, d, w, host, stack, checksum, ResourceFiles(files), docs, []);
    if a.result.Err? then a
    else
      var p := PruneStackSpec(configs, d, a.world, host, stack, checksum);
      if p.result.Err? then Out(Err(p.result.error), p.world) else Out(a.result, p.world)
  }

  // ---------------------------------------------------------------------------

  /**
   * The `Pharos::Kube` module's state: the credentials files it reads (host to API endpoint),
   * the `@kube_client` cache, and the API server it talks to.
   */
  class Kube {
    const configs: map<string, string>
    const server: Server
    var clients: map<string, Client>

    function Now(): World
      reads this, server
    {
      World(clients, server.State())
    }

    constructor (configs: map<string, string>, server: Server)
      ensures this.configs == configs && this.server == server && clients == map[]
    {
      this.configs := configs;
      this.server := server;
      clients := map[];
    }

    /** `client(host, version)`. */
    method ClientFor(host: string, version: string) returns (r: Result<Client, ApiError>)
      modifies this
      ensures var conn := Connect(configs, old(clients), host, version); r == conn.result && clients == conn.clients
    {
      if version in clients {
        r := Ok(clients[version]);
      } else if host in configs {
        var c := MakeClient(configs[host], version);
        clients := clients[version := c];
        r := Ok(c);
      } else {
        r := Err(NoConfig(host));
      }
    }

    method ApplyResource(host: string, resource: Resource) returns (r: Result<Resource, ApiError>)
      modifies this, server
      ensures Out(r, Now()) == ApplyResourceSpec(configs, server.api, old(Now()), host, resource)
    {
      var c := ClientFor(host, resource.apiVersion);
      if c.Err? {
        return Err(c.error);
      }
      r := server.Update(c.value, resource);
      if r == Err(NotFound) {
        r := server.Create(c.value, resource);
      }
    }

    method DeleteResource(host: string, resource: Resource) returns (r: Result<bool, ApiError>)
      modifies this, server
      ensures Out(r, Now()) == DeleteResourceSpec(configs, server.api, old(Now()), host, resource)
    {
      var c := ClientFor(host, resource.apiVersion);
      if c.Err? {
        return Err(c.error);
      }
      if resource.metadata.selfLink.Some? {
        r := server.DeletePath(c.value, LinkPath(resource.metadata.selfLink.value, resource.apiVersion));
      } else {
        var es := server.Discover(c.value);
        if es.Err? {
          return Tolerate(Err(es.error));
        }
        var definition := FindEntity(es.value, server.api.entityKey(resource.kind));
        if definition.None? {
          return Err(NoEntity(resource.kind));
        }
        var got := server.GetEntity(c.value, definition.value.resourceName, resource.metadata.name, resource.metadata.namespace);
        if got.Err? {
          return Tolerate(Err(got.error));
        }
        r := server.DeleteEntity(c.value, definition.value.resourceName, resource.metadata.name, resource.metadata.namespace, Foreground);
      }
      r := Tolerate(r);
    }

    /** The innermost `each` of `prune_stack`: delete every stale object of one entity type. */
    method PruneObjectsLoop(host: string, gv: string, stale: seq<Resource>, pruned0: seq<Resource>) returns (r: Result<seq<Resource>, ApiError>)
      modifies this, server
      ensures Out(r, Now()) == PruneObjects(configs, server.api, old(Now()), host, gv, stale, pruned0)
    {
      var pruned := pruned0;
      var i := 0;
      while i < |stale|
        invariant 0 <= i <= |stale|
        invariant PruneObjects(configs, server.api, old(Now()), host, gv, stale, pruned0)
               == PruneObjects(configs, server.api, Now(), host, gv, stale[i..], pruned)
      {
        var obj := stale[i].(apiVersion := gv);
        var deleted := DeleteResource(host, obj);
        assert stale[i..][1..] == stale[i + 1..];
        if deleted.Err? {
          return Err(deleted.error);
        }
        pruned := pruned + [obj];
        i := i + 1;
      }
      r := Ok(pruned);
    }

    /** `group_client.entities.each`: one API group. */
    method PruneEntitiesLoop(host: string, stack: string, checksum: string, gv: string, c: Client, es: seq<Entity>, pruned0: seq<Resource>)
      returns (r: Result<seq<Resource>, ApiError>)
      modifies this, server
      ensures Out(r, Now()) == PruneEntities(configs, server.api, old(Now()), host, stack, checksum, gv, c, es, pruned0)
    {
      var pruned := pruned0;
      var i := 0;
      while i < |es|
        invariant 0 <= i <= |es|
        invariant PruneEntities(configs, server.api, old(Now()), host, stack, checksum, gv, c, es, pruned0)
               == PruneEntities(configs, server.api, Now(), host, stack, checksum, gv, c, es[i..], pruned)
      {
        assert es[i..][1..] == es[i + 1..];
        if !EndsWith(es[i].entityType, "_review") {
          var objects := server.GetEntities(c, es[i].resourceName, stack);
          if objects.Err? {
            return Err(objects.error);
          }
          var p := PruneObjectsLoop(host, gv, StaleOnes(objects.value, checksum), pruned);
          if p.Err? {
            return p;
          }
          pruned := p.value;
        }
        i := i + 1;
      }
      r := Ok(pruned);
    }

    /** `prune_stack(host, stack, checksum)`. */
    method PruneStack(host: string, stack: string, checksum: string) returns (r: Result<seq<Resource>, ApiError>)
      modifies this, server
      ensures Out(r, Now()) == PruneStackSpec(configs, server.api, old(Now()), host, stack, checksum)
    {
      var discovery := ClientFor(host, "");
      if discovery.Err? {
        return Err(discovery.error);
      }
      var groups := server.api.groups;
      var pruned := [];
      var i := 0;
      while i < |groups|
        invariant 0 <= i <= |groups|
        invariant PruneStackSpec(configs, server.api, old(Now()), host, stack, checksum)
               == PruneGroups(configs, server.api, Now(), host, stack, checksum, groups[i..], pruned)
      {
        assert groups[i..][1..] == groups[i + 1..];
        var groupClient := ClientFor(host, groups[i]);
        if groupClient.Err? {
          return Err(groupClient.error);
        }
        var es := server.Discover(groupClient.value);
        if es.Err? {
          return Err(es.error);
        }
        var p := PruneEntitiesLoop(host, stack, checksum, groups[i], groupClient.value, es.value, pruned);
        if p.Err? {
          return p;
        }
        pruned := p.value;
        i := i + 1;
      }
      r := Ok(pruned);
    }

    /** `apply_stack(host, stack)`, the run's random checksum given as `checksum`. */
    method ApplyStack(host: string, stack: string, checksum: string, files: seq<string>, docs: map<string, Resource>)
      returns (r: Result<seq<Resource>, ApiError>)
      modifies this, server
      ensures Out(r, Now()) == ApplyStackSpec(configs, server.api, old(Now()), host, stack, checksum, files, docs)
    {
      var sorted := ResourceFiles(files);
      var resources := [];
      var i := 0;
      while i < |sorted|
        invariant 0 <= i <= |sorted|
        invariant ApplyFiles(configs, server.api, old(Now()), host, stack, checksum, sorted, docs, [])
               == ApplyFiles(configs, server.api, Now(), host, stack, checksum, sorted[i..], docs, resources)
      {
        assert sorted[i..][1..] == sorted[i + 1..];
        var file := sorted[i];
        if file !in docs {
          return Err(Unparsable(file));
        }
        var resource := Stamp(docs[file], stack, checksum);
        var applied := ApplyResource(host, resource);
        if applied.Err? {
          return Err(applied.error);
        }
        resources := resources + [resource];
        i := i + 1;
      }
      var pruned := PruneStack(host, stack, checksum);
      if pruned.Err? {
        return Err(pruned.error);
      }
      r := Ok(resources);
    }
  }
}
