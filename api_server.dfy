/**
 * An in-memory stand-in for the Kubernetes API server and the Kubeclient calls the
 * reconciler makes on it. Objects are stored in listing order under the key
 * (group path, collection, namespace, name); the server serves each object with a
 * selfLink under the group version it is read through; update of an absent object and
 * every lookup of one fail with NotFound.
 */
module ApiServer {
  import opened Wrappers
  import opened Strings
  import opened Resources
  import opened KubeClient

  /** `api` is the client's group path ("/apis/apps"), `collection` the REST resource name. */
  datatype Key = Key(api: string, collection: string, namespace: string, name: string)
  datatype Entry = Entry(key: Key, res: Resource)
  datatype Propagation = DefaultPolicy | Foreground
  datatype Deletion = Deletion(key: Key, policy: Propagation)

  /** The stored objects in listing order, and every deletion made so far with its propagation policy. */
  datatype Store = Store(objects: seq<Entry>, deletions: seq<Deletion>)

  /** An entity descriptor: the underscored kind (`entityType`) and its REST collection name. */
  datatype Entity = Entity(entityType: string, resourceName: string)

  /**
   * What the server reports and refuses: the preferred group version of every API group
   * (`apis.groups`), the entities served under each served base path, Kubeclient's
   * kind-to-entity-type conversion (`underscore_entity`, left uninterpreted), the keys
   * whose writes the server rejects as forbidden, and the collections (served base path,
   * collection name) that refuse to be listed.
   */
  datatype Discovery = Discovery(
    groups: seq<string>,
    entities: map<string, seq<Entity>>,
    entityKey: string -> string,
    denied: set<Key>,
    unlistable: set<(string, string)>)

  datatype Reply<T> = Reply(result: Result<T, ApiError>, store: Store)

  function NamespacePart(ns: string): string
  {
    if ns == "" then "" else "/namespaces/" + ns
  }

  /** The path of an object below its served base: "[/namespaces/<ns>]/<collection>/<name>". */
  function RelPath(k: Key): string
  {
    NamespacePart(k.namespace) + "/" + k.collection + "/" + k.name
  }

  /** The server accepts only names, namespaces and collection names without '/'. */
  predicate Admissible(k: Key)
  {
    NoSep(k.collection, '/') && NoSep(k.namespace, '/') && NoSep(k.name, '/')
  }

  predicate UniqueKeys(objs: seq<Entry>)
  {
    forall i, j :: 0 <= i < j < |objs| ==> objs[i].key != objs[j].key
  }

  predicate Valid(s: Store)
  {
    UniqueKeys(s.objects) && forall i :: 0 <= i < |s.objects| ==> Admissible(s.objects[i].key)
  }

  function FindEntity(es: seq<Entity>, t: string): (r: Option<Entity>)
    ensures r.Some? ==> r.value in es && r.value.entityType == t
    ensures r.None? ==> forall i :: 0 <= i < |es| ==> es[i].entityType != t
  {
    if |es| == 0 then None else if es[0].entityType == t then Some(es[0]) else FindEntity(es[1..], t)
  }

  /** `client.entities`: discovery of the group version the client speaks; NotFound when the server has none. */
  function Entities(d: Discovery, c: Client): (r: Result<seq<Entity>, ApiError>)
    ensures r.Ok? <==> ServedBase(c) in d.entities
    ensures r.Err? ==> r.error == NotFound
    ensures r.Ok? ==> r.value == d.entities[ServedBase(c)]
  {
    if ServedBase(c) in d.entities then Ok(d.entities[ServedBase(c)]) else Err(NotFound)
  }

  /** The collection a kind is written to through this client. */
  function Collection(d: Discovery, c: Client, kind: string): Result<string, ApiError>
  {
    match Entities(d, c)
    case Err(e) => Err(e)
    case Ok(es) =>
      var e := FindEntity(es, d.entityKey(kind));
      if e.None? then Err(NoEntity(kind)) else Ok(e.value.resourceName)
  }

  /** Position of the object stored under `k`, if any. */
  function IndexOf(objs: seq<Entry>, k: Key): (r: Option<nat>)
    ensures r.Some? ==> r.value < |objs| && objs[r.value].key == k
    ensures r.None? <==> forall i :: 0 <= i < |objs| ==> objs[i].key != k
  {
    if |objs| == 0 then None
    else if objs[0].key == k then Some(0)
    else
      var r := IndexOf(objs[1..], k);
      if r.None? then None else Some(r.value + 1)
  }

  function RemoveAt(objs: seq<Entry>, i: nat): (r: seq<Entry>)
    requires i < |objs|
    ensures |r| == |objs| - 1
    ensures forall e :: e in r ==> e in objs
    ensures forall j :: 0 <= j < |objs| && j != i ==> objs[j] in r
  {
    var r := objs[..i] + objs[i + 1..];
    assert forall j :: 0 <= j < i ==> r[j] == objs[j];
    assert forall j :: i < j < |objs| ==> r[j - 1] == objs[j];
    r
  }

  /** The server assigns links itself: what it stores carries none. */
  function Stored(r: Resource): Resource
  {
    r.(metadata := r.metadata.(selfLink := None))
  }

  /** An object as the server returns it through client `c`, with its selfLink under `c`'s group version. */
  function Served(c: Client, e: Entry): (r: Resource)
    ensures r.metadata.selfLink == Some(ServedBase(c) + RelPath(e.key))
    ensures r.metadata.labels == e.res.metadata.labels && r.metadata.annotations == e.res.metadata.annotations
  {
    e.res.(metadata := e.res.metadata.(selfLink := Some(ServedBase(c) + RelPath(e.key))))
  }

  /** `update_resource`: replaces the object stored under the resource's key; NotFound if there is none. */
  function UpdateSpec(d: Discovery, s: Store, c: Client, r: Resource): (out: Reply<Resource>)
    ensures out.result.Err? ==> out.store == s
    ensures out.store.deletions == s.deletions && |out.store.objects| == |s.objects|
    ensures Valid(s) ==> Valid(out.store)
  {
    match Collection(d, c, r.kind)
    case Err(e) => Reply(Err(e), s)
    case Ok(coll) =>
      var k := Key(ApiPath(c), coll, r.metadata.namespace, r.metadata.name);
      if k in d.denied then Reply(Err(Forbidden), s)
      else match IndexOf(s.objects, k)
        case None => Reply(Err(NotFound), s)
        case Some(i) =>
          var e := Entry(k, Stored(r));
          assert Valid(s) ==> Admissible(s.objects[i].key);
          Reply(Ok(Served(c, e)), s.(objects := s.objects[i := e]))
  }

  /** `create_resource`: appends a new object; Conflict if one is already stored under the key. */
  function CreateSpec(d: Discovery, s: Store, c: Client, r: Resource): (out: Reply<Resource>)
    ensures out.result.Err? ==> out.store == s
    ensures out.store.deletions == s.deletions
    ensures Valid(s) ==> Valid(out.store)
  {
    match Collection(d, c, r.kind)
    case Err(e) => Reply(Err(e), s)
    case Ok(coll) =>
      var k := Key(ApiPath(c), coll, r.metadata.namespace, r.metadata.name);
      if k in d.denied then Reply(Err(Forbidden), s)
      else if IndexOf(s.objects, k).Some? then Reply(Err(Conflict), s)
      else if !Admissible(k) then Reply(Err(Invalid), s)
      else
        var e := Entry(k, Stored(r));
        Reply(Ok(Served(c, e)), s.(objects := s.objects + [e]))
  }

  /** `get_entity(resource_name, name, namespace)`. */
  function GetSpec(s: Store, c: Client, coll: string, name: string, ns: string): (r: Result<Resource, ApiError>)
    ensures r.Err? <==> forall i :: 0 <= i < |s.objects| ==> s.objects[i].key != Key(ApiPath(c), coll, ns, name)
  {
    var i := IndexOf(s.objects, Key(ApiPath(c), coll, ns, name));
    if i.None? then Err(NotFound) else Ok(Served(c, s.objects[i.value]))
  }

  /** The objects of collection `coll` in `c`'s group that carry the stack label, in storage order. */
  function ListSpec(objs: seq<Entry>, c: Client, coll: string, stack: string): (r: seq<Resource>)
    ensures forall x :: x in r ==> exists e :: e in objs && Listed(e, c, coll, stack) && x == Served(c, e)
    ensures forall e :: e in objs && Listed(e, c, coll, stack) ==> Served(c, e) in r
  {
    if |objs| == 0 then []
    else
      var rest := ListSpec(objs[1..], c, coll, stack);
      assert forall e :: e in objs ==> e == objs[0] || e in objs[1..];
      if Listed(objs[0], c, coll, stack) then [Served(c, objs[0])] + rest else rest
  }

  /** `get_entities(type, resource_name, label_selector: ...)`: the listing, or NotAllowed for a collection that cannot be listed. */
  function GetEntitiesSpec(d: Discovery, s: Store, c: Client, coll: string, stack: string): (r: Result<seq<Resource>, ApiError>)
    ensures r.Err? <==> (ServedBase(c), coll) in d.unlistable
    ensures r.Err? ==> r.error == NotAllowed
    ensures r.Ok? ==> r.value == ListSpec(s.objects, c, coll, stack)
  {
    if (ServedBase(c), coll) in d.unlistable then Err(NotAllowed) else Ok(ListSpec(s.objects, c, coll, stack))
  }

  predicate Listed(e: Entry, c: Client, coll: string, stack: string)
  {
    e.key.api == ApiPath(c) && e.key.collection == coll && Labelled(e.res, stack)
  }

  lemma RemoveAtValid(objs: seq<Entry>, i: nat)
    requires i < |objs|
    ensures UniqueKeys(objs) ==> UniqueKeys(RemoveAt(objs, i)) && forall e :: e in RemoveAt(objs, i) ==> e.key != objs[i].key
  {
    var r := RemoveAt(objs, i);
    assert r == objs[..i] + objs[i + 1..];
    assert forall a :: 0 <= a < |r| ==> r[a] == objs[if a < i then a else a + 1];
  }

  /** Deleting by key: NotFound when nothing is stored there; otherwise removed and logged with its policy. */
  function DeleteKey(d: Discovery, s: Store, k: Key, policy: Propagation): (out: Reply<bool>)
    ensures out.result.Err? ==> out.store == s
    ensures out.result == Err(NotFound) <==> k !in d.denied && forall e :: e in s.objects ==> e.key != k
    ensures out.result.Err? ==> out.result == Err(NotFound) || (out.result == Err(Forbidden) && k in d.denied)
    ensures out.result.Ok? ==> out.result.value && out.store.deletions == s.deletions + [Deletion(k, policy)]
    ensures out.result.Ok? && UniqueKeys(s.objects) ==> forall e :: e in out.store.objects ==> e.key != k
    ensures forall e :: e in s.objects && e.key != k ==> e in out.store.objects
    ensures forall e :: e in out.store.objects ==> e in s.objects
    ensures Valid(s) ==> Valid(out.store)
  {
    if k in d.denied then Reply(Err(Forbidden), s)
    else match IndexOf(s.objects, k)
      case None => Reply(Err(NotFound), s)
      case Some(i) =>
        assert s.objects[i] in s.objects;
        RemoveAtValid(s.objects, i);
        Reply(Ok(true), Store(RemoveAt(s.objects, i), s.deletions + [Deletion(k, policy)]))
  }

  /** `delete_entity(resource_name, name, namespace, propagationPolicy: ...)`. */
  function DeleteEntitySpec(d: Discovery, s: Store, c: Client, coll: string, name: string, ns: string, policy: Propagation): (out: Reply<bool>)
    ensures out.result.Err? ==> out.store == s
    ensures out.result == Err(NotFound) <==>
      Key(ApiPath(c), coll, ns, name) !in d.denied && forall e :: e in s.objects ==> e.key != Key(ApiPath(c), coll, ns, name)
    ensures out.result.Err? ==> out.result == Err(NotFound) || out.result == Err(Forbidden)
    ensures out.result.Ok? ==> out.result.value && out.store.deletions == s.deletions + [Deletion(Key(ApiPath(c), coll, ns, name), policy)]
    ensures forall e :: e in s.objects && e.key != Key(ApiPath(c), coll, ns, name) ==> e in out.store.objects
  {
    DeleteKey(d, s, Key(ApiPath(c), coll, ns, name), policy)
  }

  /** How the server reads a path below a served base: "/<collection>/<name>" or "/namespaces/<ns>/<collection>/<name>". */
  function ParsePath(path: string): Option<(string, string, string)>
  {
    var f := Fields(path, '/');
    if |f| == 3 && f[0] == "" then Some(("", f[1], f[2]))
    else if |f| == 5 && f[0] == "" && f[1] == "namespaces" && f[2] != "" then Some((f[2], f[3], f[4]))
    else None
  }

  /**
   * `rest_client[path].delete`: a request RestClient sends itself, so a path the server cannot
   * resolve, or one naming no object, fails with RestClient's own 404 and not Kubeclient's.
   */
  function DeletePathSpec(d: Discovery, s: Store, c: Client, path: string): (out: Reply<bool>)
    ensures out.result != Err(NotFound)
    ensures out.result.Err? ==> out.store == s && (out.result == Err(RestNotFound) || out.result == Err(Forbidden))
    ensures ParsePath(path).None? ==> out.result == Err(RestNotFound)
    ensures out.result.Ok? ==> ParsePath(path).Some? && out.result.value
    ensures out.result.Ok? ==>
      out.store.deletions == s.deletions + [Deletion(Key(ApiPath(c), ParsePath(path).value.1, ParsePath(path).value.0, ParsePath(path).value.2), DefaultPolicy)]
  {
    match ParsePath(path)
    case None => Reply(Err(RestNotFound), s)
    case Some((ns, coll, name)) =>
      var del := DeleteKey(d, s, Key(ApiPath(c), coll, ns, name), DefaultPolicy);
      if del.result == Err(NotFound) then Reply(Err(RestNotFound), del.store) else del
  }

  lemma Fields3(a: string, b: string, c: string)
    requires NoSep(a, '/') && NoSep(b, '/') && NoSep(c, '/')
    ensures Fields(a + "/" + b + "/" + c, '/') == [a, b, c]
  {
    FieldsOfPlain(a, '/');
    FieldsSnoc(a, '/', b);
    FieldsSnoc(a + "/" + b, '/', c);
  }

  lemma Fields5(a: string, b: string, c: string, d: string, e: string)
    requires NoSep(a, '/') && NoSep(b, '/') && NoSep(c, '/') && NoSep(d, '/') && NoSep(e, '/')
    ensures Fields(a + "/" + b + "/" + c + "/" + d + "/" + e, '/') == [a, b, c, d, e]
  {
    Fields3(a, b, c);
    FieldsSnoc(a + "/" + b + "/" + c, '/', d);
    FieldsSnoc(a + "/" + b + "/" + c + "/" + d, '/', e);
  }

  lemma FieldsOfClusterPath(k: Key)
    requires Admissible(k) && k.namespace == ""
    ensures Fields(RelPath(k), '/') == ["", k.collection, k.name]
  {
    Fields3("", k.collection, k.name);
    assert RelPath(k) == "" + "/" + k.collection + "/" + k.name;
  }

  lemma FieldsOfNamespacedPath(k: Key)
    requires Admissible(k) && k.namespace != ""
    ensures Fields(RelPath(k), '/') == ["", "namespaces", k.namespace, k.collection, k.name]
  {
    assert NoSep("namespaces", '/');
    Fields5("", "namespaces", k.namespace, k.collection, k.name);
    assert NamespacePart(k.namespace) == "" + "/" + "namespaces" + "/" + k.namespace;
  }

  lemma FieldsOfRelPath(k: Key)
    requires Admissible(k)
    ensures k.namespace == "" ==> Fields(RelPath(k), '/') == ["", k.collection, k.name]
    ensures k.namespace != "" ==> Fields(RelPath(k), '/') == ["", "namespaces", k.namespace, k.collection, k.name]
  {
    if k.namespace == "" {
      FieldsOfClusterPath(k);
    } else {
      FieldsOfNamespacedPath(k);
    }
  }

  /** The server resolves an admissible object's own relative path back to its namespace, collection and name. */
  lemma ParseRelPath(k: Key)
    requires Admissible(k)
    ensures ParsePath(RelPath(k)) == Some((k.namespace, k.collection, k.name))
  {
    FieldsOfRelPath(k);
  }

  class Server {
    const api: Discovery
    var objects: seq<Entry>
    var deletions: seq<Deletion>

    function State(): Store
      reads this
    {
      Store(objects, deletions)
    }

    constructor (api: Discovery, objects: seq<Entry>)
      ensures this.api == api && State() == Store(objects, [])
    {
      this.api := api;
      this.objects := objects;
      this.deletions := [];
    }

    method Update(c: Client, r: Resource) returns (res: Result<Resource, ApiError>)
      modifies this
      ensures Reply(res, State()) == UpdateSpec(api, old(State()), c, r)
    {
      var out := UpdateSpec(api, State(), c, r);
      res, objects, deletions := out.result, out.store.objects, out.store.deletions;
    }

    method Create(c: Client, r: Resource) returns (res: Result<Resource, ApiError>)
      modifies this
      ensures Reply(res, State()) == CreateSpec(api, old(State()), c, r)
    {
      var out := CreateSpec(api, State(), c, r);
      res, objects, deletions := out.result, out.store.objects, out.store.deletions;
    }

    /** `client.entities`. */
    method Discover(c: Client) returns (res: Result<seq<Entity>, ApiError>)
      ensures res == Entities(api, c)
    {
      res := Entities(api, c);
    }

    method GetEntity(c: Client, coll: string, name: string, ns: string) returns (res: Result<Resource, ApiError>)
      ensures res == GetSpec(State(), c, coll, name, ns)
    {
      res := GetSpec(State(), c, coll, name, ns);
    }

    method GetEntities(c: Client, coll: string, stack: string) returns (res: Result<seq<Resource>, ApiError>)
      ensures res == GetEntitiesSpec(api, State(), c, coll, stack)
    {
      res := GetEntitiesSpec(api, State(), c, coll, stack);
    }

    method DeleteEntity(c: Client, coll: string, name: string, ns: string, policy: Propagation) returns (res: Result<bool, ApiError>)
      modifies this
      ensures Reply(res, State()) == DeleteEntitySpec(api, old(State()), c, coll, name, ns, policy)
    {
      var out := DeleteEntitySpec(api, State(), c, coll, name, ns, policy);
      res, objects, deletions := out.result, out.store.objects, out.store.deletions;
    }

    method DeletePath(c: Client, path: string) returns (res: Result<bool, ApiError>)
      modifies this
      ensures Reply(res, State()) == DeletePathSpec(api, old(State()), c, path)
    {
      var out := DeletePathSpec(api, State(), c, path);
      res, objects, deletions := out.result, out.store.objects, out.store.deletions;
    }
  }
}
