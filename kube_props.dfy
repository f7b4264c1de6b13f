/**
 * What `Pharos::Kube` promises, proved about the functions of module `Kube`: the apply order
 * is fixed by the file names alone, deleting never raises NotFound, apply is an idempotent
 * upsert, and a stack is applied file by file with prune run only after every apply succeeded.
 */
module KubeProperties {
  import opened Wrappers
  import opened Strings
  import opened Resources
  import opened KubeClient
  import opened ApiServer
  import opened Kube

  // ---------------------------------------------------------------------------
  // resource_files

  lemma TextLeAntisymmetric(a: string, b: string)
    requires TextLe(a, b) && TextLe(b, a)
    ensures a == b
  {
    CompareTextFlip(a, b);
    CompareTextSame(a, b);
  }

  /** Two sorted orderings of the same nonempty paths start with the same path. */
  lemma SortedSameHead(a: seq<string>, b: seq<string>)
    requires SortedPaths(a) && SortedPaths(b) && multiset(a) == multiset(b) && |a| > 0
    ensures |b| > 0 && a[0] == b[0]
  {
    assert a[0] in multiset(b);
    assert b[0] in multiset(a);
    var i :| 0 <= i < |b| && b[i] == a[0];
    var j :| 0 <= j < |a| && a[j] == b[0];
    CompareTextSame(a[0], a[0]);
    assert TextLe(b[0], b[i]);
    assert TextLe(a[0], a[j]);
    TextLeAntisymmetric(a[0], b[0]);
  }

  lemma SortedTail(a: seq<string>)
    requires SortedPaths(a) && |a| > 0
    ensures SortedPaths(a[1..]) && multiset(a[1..]) == multiset(a) - multiset{a[0]}
  {
    assert a == [a[0]] + a[1..];
  }

  /** Two sorted orderings of the same paths are the same sequence. */
  lemma {:induction false} SortedUnique(a: seq<string>, b: seq<string>)
    requires SortedPaths(a) && SortedPaths(b) && multiset(a) == multiset(b)
    ensures a == b
    decreases |a|
  {
    if |a| == 0 {
      assert |multiset(b)| == 0;
    } else {
      SortedSameHead(a, b);
      SortedTail(a);
      SortedTail(b);
      SortedUnique(a[1..], b[1..]);
      assert a == [a[0]] + a[1..] && b == [b[0]] + b[1..];
    }
  }

  /** The apply order depends only on which files the glob finds, not on the order it lists them. */
  lemma ResourceFilesDeterministic(p: seq<string>, q: seq<string>)
    requires multiset(p) == multiset(q)
    ensures ResourceFiles(p) == ResourceFiles(q)
  {
    SortedUnique(ResourceFiles(p), ResourceFiles(q));
  }

  // ---------------------------------------------------------------------------
  // delete_resource

  /** A selfLink "/<seg>/<apiVersion><rest>" is deleted at `rest`, when the pattern does not recur in `rest`. */
  lemma LinkRewrite(seg: string, apiVersion: string, rest: string)
    requires NoSep(seg, '/') && !Occurs("/" + seg + "/" + apiVersion, rest)
    ensures LinkPath("/" + seg + "/" + apiVersion + rest, apiVersion) == rest
  {
    AppendAssoc("/" + seg + "/", apiVersion, rest);
    SecondFieldOfLink(seg, apiVersion + rest);
    DeleteAllPrefix("/" + seg + "/" + apiVersion, rest);
  }

  /**
   * Deleting never raises Kubeclient's NotFound: on the entity path an absent object is `false`;
   * on the selfLink path RestClient's own 404 is raised, so `false` never comes from there.
   * `false` and every error leave the store alone; `true` means exactly one deletion was
   * performed, foreground-cascading on the entity path.
   */
  lemma DeleteOutcomes(configs: map<string, string>, d: Discovery, w: World, host: string, r: Resource)
    ensures var out := DeleteResourceSpec(configs, d, w, host, r);
      && out.result != Err(NotFound)
      && (out.result == Ok(false) ==> r.metadata.selfLink.None?)
      && (out.result == Err(RestNotFound) ==> r.metadata.selfLink.Some?)
      && out.world.clients == Connect(configs, w.clients, host, r.apiVersion).clients
      && (out.result.Err? || out.result == Ok(false) ==> out.world.store == w.store)
      && (out.result == Ok(true) ==>
            && |out.world.store.deletions| == |w.store.deletions| + 1
            && out.world.store.deletions[..|w.store.deletions|] == w.store.deletions
            && out.world.store.deletions[|w.store.deletions|].policy
               == if r.metadata.selfLink.Some? then DefaultPolicy else Foreground)
  {
    var conn := Connect(configs, w.clients, host, r.apiVersion);
    if conn.result.Ok? {
      var w1 := w.(clients := conn.clients);
      var del := if r.metadata.selfLink.Some? then DeleteByLink(d, w1.store, conn.result.value, r.metadata.selfLink.value, r.apiVersion)
                 else DeleteByEntity(d, w1.store, conn.result.value, r);
      assert DeleteResourceSpec(configs, d, w, host, r) == Out(Tolerate(del.result), w1.(store := del.store));
    }
  }

  /** A delete at a selfLink when nothing is stored fails: the 404 there is not rescued. */
  lemma LinkDeleteOfMissingFails(configs: map<string, string>, d: Discovery, w: World, host: string, r: Resource)
    requires r.metadata.selfLink.Some? && r.apiVersion in w.clients && w.store.objects == []
    ensures var out := DeleteResourceSpec(configs, d, w, host, r);
      out.result == Err(RestNotFound) || out.result == Err(Forbidden)
  {
  }

  /** Without a selfLink, the object deleted is the one stored under the resource's own key. */
  lemma DeleteByEntityTarget(configs: map<string, string>, d: Discovery, w: World, host: string, r: Resource)
    requires r.metadata.selfLink.None?
    ensures var out := DeleteResourceSpec(configs, d, w, host, r);
      out.result == Ok(true) ==>
        var c := out.world.clients[r.apiVersion];
        && Collection(d, c, r.kind).Ok?
        && var k := Key(ApiPath(c), Collection(d, c, r.kind).value, r.metadata.namespace, r.metadata.name);
        && (exists i :: 0 <= i < |w.store.objects| && w.store.objects[i].key == k)
        && (forall e :: e in out.world.store.objects ==> e in w.store.objects && (Valid(w.store) ==> e.key != k))
        && (forall e :: e in w.store.objects && e.key != k ==> e in out.world.store.objects)
  {
    var conn := Connect(configs, w.clients, host, r.apiVersion);
    if conn.result.Ok? {
      var c := conn.result.value;
      var del := DeleteByEntity(d, w.store, c, r);
      assert DeleteResourceSpec(configs, d, w, host, r) == Out(Tolerate(del.result), w.(clients := conn.clients, store := del.store));
      if del.result.Ok? {
        var def := FindEntity(Entities(d, c).value, d.entityKey(r.kind));
        var k := Key(ApiPath(c), def.value.resourceName, r.metadata.namespace, r.metadata.name);
        assert Collection(d, c, r.kind) == Ok(def.value.resourceName);
        assert GetSpec(w.store, c, def.value.resourceName, r.metadata.name, r.metadata.namespace).Ok?;
        assert del == DeleteKey(d, w.store, k, Foreground);
      }
    }
  }

  // ---------------------------------------------------------------------------
  // apply_resource

  /** `t` holds `e`, and agrees with `s` on every object stored under another key. */
  predicate Upserted(s: seq<Entry>, t: seq<Entry>, e: Entry)
  {
    && e in t
    && (forall x :: x in s && x.key != e.key ==> x in t)
    && (forall x :: x in t && x.key != e.key ==> x in s)
  }

  /** The resource's key through client `c`, when its kind is served there. */
  function KeyOf(d: Discovery, c: Client, r: Resource): (k: Option<Key>)
    ensures k.Some? <==> Collection(d, c, r.kind).Ok?
    ensures k.Some? ==> k.value == Key(ApiPath(c), Collection(d, c, r.kind).value, r.metadata.namespace, r.metadata.name)
  {
    match Collection(d, c, r.kind)
    case Err(_) => None
    case Ok(coll) => Some(Key(ApiPath(c), coll, r.metadata.namespace, r.metadata.name))
  }

  lemma UpdateStores(d: Discovery, s: Store, c: Client, r: Resource)
    requires Valid(s)
    ensures var u := UpdateSpec(d, s, c, r);
      && (u.result.Ok? ==>
            && KeyOf(d, c, r).Some?
            && KeyOf(d, c, r).value !in d.denied
            && IndexOf(s.objects, KeyOf(d, c, r).value).Some?
            && u.result.value == Served(c, Entry(KeyOf(d, c, r).value, Stored(r)))
            && |u.store.objects| == |s.objects|
            && Upserted(s.objects, u.store.objects, Entry(KeyOf(d, c, r).value, Stored(r))))
      && (u.result == Err(NotFound) ==>
            KeyOf(d, c, r).None? || (KeyOf(d, c, r).value !in d.denied && IndexOf(s.objects, KeyOf(d, c, r).value).None?))
  {
    var u := UpdateSpec(d, s, c, r);
    if u.result.Ok? {
      var k := KeyOf(d, c, r).value;
      var e := Entry(k, Stored(r));
      var i := IndexOf(s.objects, k).value;
      assert u.store.objects == s.objects[i := e];
      assert u.store.objects[i] == e;
      forall x | x in s.objects && x.key != k ensures x in u.store.objects {
        var j :| 0 <= j < |s.objects| && s.objects[j] == x;
        assert u.store.objects[j] == x;
      }
      forall x | x in u.store.objects && x.key != k ensures x in s.objects {
        var j :| 0 <= j < |u.store.objects| && u.store.objects[j] == x;
        assert s.objects[j] == x;
      }
    }
  }

  lemma CreateStores(d: Discovery, s: Store, c: Client, r: Resource)
    requires Valid(s)
    ensures var cr := CreateSpec(d, s, c, r);
      && (cr.result.Ok? ==>
            && KeyOf(d, c, r).Some?
            && KeyOf(d, c, r).value !in d.denied
            && IndexOf(s.objects, KeyOf(d, c, r).value).None?
            && cr.result.value == Served(c, Entry(KeyOf(d, c, r).value, Stored(r)))
            && |cr.store.objects| == |s.objects| + 1
            && Upserted(s.objects, cr.store.objects, Entry(KeyOf(d, c, r).value, Stored(r))))
      && (cr.result == Err(Conflict) ==> KeyOf(d, c, r).Some? && IndexOf(s.objects, KeyOf(d, c, r).value).Some?)
  {
    var cr := CreateSpec(d, s, c, r);
    if cr.result.Ok? {
      var e := Entry(KeyOf(d, c, r).value, Stored(r));
      assert cr.store.objects == s.objects + [e];
      assert cr.store.objects[|s.objects|] == e;
      forall x | x in cr.store.objects && x.key != e.key ensures x in s.objects {
        var j :| 0 <= j < |cr.store.objects| && cr.store.objects[j] == x;
        assert j < |s.objects|;
      }
    }
  }

  /** What `Upsert` stores; the store-level half of `ApplyUpserts`. */
  lemma UpsertStores(d: Discovery, s: Store, c: Client, r: Resource)
    requires Valid(s)
    ensures var out := Upsert(d, s, c, r);
      && out.result != Err(Conflict)
      && (out.result.Ok? ==>
            && KeyOf(d, c, r).Some?
            && var e := Entry(KeyOf(d, c, r).value, Stored(r));
            && e.key !in d.denied
            && out.result.value == Served(c, e)
            && |out.store.objects| == |s.objects| + (if IndexOf(s.objects, e.key).None? then 1 else 0)
            && Upserted(s.objects, out.store.objects, e))
  {
    UpdateStores(d, s, c, r);
    var u := UpdateSpec(d, s, c, r);
    if u.result == Err(NotFound) {
      CreateStores(d, u.store, c, r);
    }
  }

  /**
   * Apply is an upsert: on success the resource is stored under its key (replacing what was
   * there, or appended when nothing was), the stored objects under other keys are untouched,
   * and nothing is deleted. It never ends in Conflict, and a failure changes nothing stored.
   */
  lemma ApplyUpserts(configs: map<string, string>, d: Discovery, w: World, host: string, r: Resource)
    requires Valid(w.store)
    ensures var out := ApplyResourceSpec(configs, d, w, host, r);
      && out.result != Err(Conflict)
      && out.world.clients == Connect(configs, w.clients, host, r.apiVersion).clients
      && out.world.store.deletions == w.store.deletions
      && Valid(out.world.store)
      && (out.result.Err? ==> out.world.store == w.store)
      && (out.result.Ok? ==>
            var c := out.world.clients[r.apiVersion];
            && KeyOf(d, c, r).Some?
            && var e := Entry(KeyOf(d, c, r).value, Stored(r));
            && e.key !in d.denied
            && out.result.value == Served(c, e)
            && |out.world.store.objects| == |w.store.objects| + (if IndexOf(w.store.objects, e.key).None? then 1 else 0)
            && Upserted(w.store.objects, out.world.store.objects, e))
  {
    var conn := Connect(configs, w.clients, host, r.apiVersion);
    if conn.result.Ok? {
      var c := conn.result.value;
      UpsertStores(d, w.store, c, r);
    }
  }

  /** Updating with the entry already stored under the key returns it and leaves the store as it was. */
  lemma UpdateSameEntry(d: Discovery, s: Store, c: Client, r: Resource)
    requires Valid(s)
    requires KeyOf(d, c, r).Some? && KeyOf(d, c, r).value !in d.denied
    requires Entry(KeyOf(d, c, r).value, Stored(r)) in s.objects
    ensures UpdateSpec(d, s, c, r) == Reply(Ok(Served(c, Entry(KeyOf(d, c, r).value, Stored(r)))), s)
  {
    var e := Entry(KeyOf(d, c, r).value, Stored(r));
    var j :| 0 <= j < |s.objects| && s.objects[j] == e;
    var i := IndexOf(s.objects, e.key).value;
    assert s.objects[i].key == s.objects[j].key;
    assert i == j;
    assert s.objects[i := e] == s.objects;
  }

  /** Applying the same resource again right after a successful apply changes nothing and returns the same object. */
  lemma ApplyIdempotent(configs: map<string, string>, d: Discovery, w: World, host: string, r: Resource)
    requires Valid(w.store)
    requires ApplyResourceSpec(configs, d, w, host, r).result.Ok?
    ensures var once := ApplyResourceSpec(configs, d, w, host, r);
      ApplyResourceSpec(configs, d, once.world, host, r) == once
  {
    var once := ApplyResourceSpec(configs, d, w, host, r);
    ApplyUpserts(configs, d, w, host, r);
    var c := once.world.clients[r.apiVersion];
    assert Connect(configs, once.world.clients, host, r.apiVersion) == Connection(Ok(c), false, once.world.clients);
    UpdateSameEntry(d, once.world.store, c, r);
  }

  // ---------------------------------------------------------------------------
  // apply_stack

  /** The resources `files` hold, in order; None when one of them does not parse. */
  function Parsed(files: seq<string>, docs: map<string, Resource>): Option<seq<Resource>>
  {
    if |files| == 0 then Some([])
    else if files[0] !in docs then None
    else match Parsed(files[1..], docs)
      case None => None
      case Some(rest) => Some([docs[files[0]]] + rest)
  }

  function StampEach(rs: seq<Resource>, stack: string, checksum: string): seq<Resource>
  {
    if |rs| == 0 then [] else [Stamp(rs[0], stack, checksum)] + StampEach(rs[1..], stack, checksum)
  }

  lemma {:induction false} ParsedProps(files: seq<string>, docs: map<string, Resource>)
    ensures Parsed(files, docs).Some? <==> forall i :: 0 <= i < |files| ==> files[i] in docs
    ensures Parsed(files, docs).Some? ==>
      |Parsed(files, docs).value| == |files| &&
      forall i :: 0 <= i < |files| ==> Parsed(files, docs).value[i] == docs[files[i]]
    decreases |files|
  {
    if |files| > 0 {
      ParsedProps(files[1..], docs);
      assert forall i :: 0 < i < |files| ==> files[i] == files[1..][i - 1];
    }
  }

  lemma {:induction false} StampEachProps(rs: seq<Resource>, stack: string, checksum: string)
    ensures |StampEach(rs, stack, checksum)| == |rs|
    ensures forall i :: 0 <= i < |rs| ==> StampEach(rs, stack, checksum)[i] == Stamp(rs[i], stack, checksum)
    decreases |rs|
  {
    if |rs| > 0 {
      StampEachProps(rs[1..], stack, checksum);
      assert forall i :: 0 < i < |rs| ==> rs[i] == rs[1..][i - 1];
    }
  }

  /**
   * A successful run over `files` applied every one of them, in order: every file parsed, and
   * the run returns what it had plus each file's resource stamped with the stack label and checksum.
   */
  lemma {:induction false} ApplyFilesStamps(configs: map<string, string>, d: Discovery, w: World, host: string,
                                            stack: string, checksum: string, files: seq<string>,
                                            docs: map<string, Resource>, applied: seq<Resource>)
    ensures var out := ApplyFiles(configs, d, w, host, stack, checksum, files, docs, applied);
      out.result.Ok? ==>
        && Parsed(files, docs).Some?
        && out.result.value == applied + StampEach(Parsed(files, docs).value, stack, checksum)
    decreases |files|
  {
    if |files| > 0 && files[0] in docs {
      var r := Stamp(docs[files[0]], stack, checksum);
      var a := ApplyResourceSpec(configs, d, w, host, r);
      if a.result.Ok? {
        ApplyFilesStep(configs, d, w, host, stack, checksum, files, docs, applied);
        ApplyFilesStamps(configs, d, a.world, host, stack, checksum, files[1..], docs, applied + [r]);
        var out := ApplyFiles(configs, d, a.world, host, stack, checksum, files[1..], docs, applied + [r]);
        if out.result.Ok? {
          var rest := Parsed(files[1..], docs).value;
          assert Parsed(files, docs) == Some([docs[files[0]]] + rest);
          assert ([docs[files[0]]] + rest)[1..] == rest;
          assert StampEach([docs[files[0]]] + rest, stack, checksum) == [r] + StampEach(rest, stack, checksum);
          AppendAssoc(applied, [r], StampEach(rest, stack, checksum));
        }
      }
    }
  }

  /** One successful apply hands the rest of the files on. */
  lemma ApplyFilesStep(configs: map<string, string>, d: Discovery, w: World, host: string,
                       stack: string, checksum: string, files: seq<string>, docs: map<string, Resource>, applied: seq<Resource>)
    requires |files| > 0 && files[0] in docs
    ensures var r := Stamp(docs[files[0]], stack, checksum);
      var a := ApplyResourceSpec(configs, d, w, host, r);
      a.result.Ok? ==>
        ApplyFiles(configs, d, w, host, stack, checksum, files, docs, applied)
        == ApplyFiles(configs, d, a.world, host, stack, checksum, files[1..], docs, applied + [r])
  {
  }

  /** Applying files only updates and creates: no deletion happens, and the store stays valid. */
  lemma {:induction false} ApplyFilesDeletesNothing(configs: map<string, string>, d: Discovery, w: World, host: string,
                                                    stack: string, checksum: string, files: seq<string>,
                                                    docs: map<string, Resource>, applied: seq<Resource>)
    requires Valid(w.store)
    ensures var out := ApplyFiles(configs, d, w, host, stack, checksum, files, docs, applied);
      out.world.store.deletions == w.store.deletions && Valid(out.world.store)
    decreases |files|
  {
    if |files| > 0 && files[0] in docs {
      var r := Stamp(docs[files[0]], stack, checksum);
      ApplyUpserts(configs, d, w, host, r);
      var a := ApplyResourceSpec(configs, d, w, host, r);
      if a.result.Ok? {
        ApplyFilesDeletesNothing(configs, d, a.world, host, stack, checksum, files[1..], docs, applied + [r]);
      }
    }
  }

  /**
   * `apply_stack` runs prune exactly once, after every file was applied: a successful stack
   * returns what the applies returned and ends in the state of the prune that followed them.
   */
  lemma ApplyStackPrunesAfterApplies(configs: map<string, string>, d: Discovery, w: World, host: string,
                                     stack: string, checksum: string, files: seq<string>, docs: map<string, Resource>)
    ensures var out := ApplyStackSpec(configs, d, w, host, stack, checksum, files, docs);
      var a := ApplyFiles(configs, d, w, host, stack, checksum, ResourceFiles(files), docs, []);
      out.result.Ok? ==>
        && a.result == out.result
        && PruneStackSpec(configs, d, a.world, host, stack, checksum).result.Ok?
        && out.world == PruneStackSpec(configs, d, a.world, host, stack, checksum).world
  {
  }

  /**
   * `apply_stack` returns one resource per file, in sorted file order, each the file's resource
   * stamped with the stack label and the run's checksum, so carrying the current checksum.
   */
  lemma ApplyStackStamps(configs: map<string, string>, d: Discovery, w: World, host: string,
                         stack: string, checksum: string, files: seq<string>, docs: map<string, Resource>)
    ensures var out := ApplyStackSpec(configs, d, w, host, stack, checksum, files, docs);
      var sorted := ResourceFiles(files);
      out.result.Ok? ==>
        && |out.result.value| == |files|
        && forall i :: 0 <= i < |sorted| ==>
             && sorted[i] in docs
             && out.result.value[i] == Stamp(docs[sorted[i]], stack, checksum)
             && Labelled(out.result.value[i], stack)
             && !Stale(out.result.value[i], checksum)
  {
    var sorted := ResourceFiles(files);
    var out := ApplyStackSpec(configs, d, w, host, stack, checksum, files, docs);
    ApplyStackPrunesAfterApplies(configs, d, w, host, stack, checksum, files, docs);
    ApplyFilesStamps(configs, d, w, host, stack, checksum, sorted, docs, []);
    if out.result.Ok? {
      assert |sorted| == |multiset(sorted)| == |multiset(files)| == |files|;
      ParsedProps(sorted, docs);
      var rs := Parsed(sorted, docs).value;
      StampEachProps(rs, stack, checksum);
      assert out.result.value == StampEach(rs, stack, checksum);
      forall i | 0 <= i < |sorted|
        ensures sorted[i] in docs && out.result.value[i] == Stamp(docs[sorted[i]], stack, checksum)
        ensures Labelled(out.result.value[i], stack) && !Stale(out.result.value[i], checksum)
      {
        StampedIsCurrent(docs[sorted[i]], stack, checksum, checksum);
      }
    }
  }

  /** A file that does not parse fails the whole stack. */
  lemma UnparsableFails(configs: map<string, string>, d: Discovery, w: World, host: string,
                        stack: string, checksum: string, files: seq<string>, docs: map<string, Resource>, f: string)
    requires f in files && f !in docs
    ensures ApplyStackSpec(configs, d, w, host, stack, checksum, files, docs).result.Err?
  {
    var sorted := ResourceFiles(files);
    assert f in multiset(sorted);
    ApplyStackStamps(configs, d, w, host, stack, checksum, files, docs);
  }

  /** When an apply fails, prune does not run: the stack ends with nothing deleted. */
  lemma ApplyFailureSkipsPrune(configs: map<string, string>, d: Discovery, w: World, host: string,
                               stack: string, checksum: string, files: seq<string>, docs: map<string, Resource>)
    requires Valid(w.store)
    requires ApplyFiles(configs, d, w, host, stack, checksum, ResourceFiles(files), docs, []).result.Err?
    ensures var out := ApplyStackSpec(configs, d, w, host, stack, checksum, files, docs);
      out.result.Err? && out.world.store.deletions == w.store.deletions
  {
    ApplyFilesDeletesNothing(configs, d, w, host, stack, checksum, ResourceFiles(files), docs, []);
  }
}
