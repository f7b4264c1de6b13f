/**
 * `apply_stack` converges: after a successful run every key it wrote holds an object of the
 * stack carrying the run's checksum, and no stale stack object that prune can reach is left.
 * Two manifests may write the same key; the later write wins, and it carries the same label
 * and checksum as the earlier one, so the statement is about keys, not objects.
 */
module StackProperties {
  import opened Wrappers
  import opened Resources
  import opened KubeClient
  import opened ApiServer
  import opened Kube
  import opened KubeProperties
  import opened PruneProperties

  /** Some object stored under `k` is labelled with the stack and carries the run's checksum. */
  predicate HoldsCurrent(objs: seq<Entry>, k: Key, stack: string, checksum: string)
  {
    exists e :: e in objs && e.key == k && Labelled(e.res, stack) && !Stale(e.res, checksum)
  }

  /** The key `r` is written under, through any client for its apiVersion (see `KeyOfEndpointFree`). */
  function WrittenKey(d: Discovery, r: Resource): Option<Key>
  {
    KeyOf(d, Probe(r.apiVersion), r)
  }

  predicate WrittenCurrent(d: Discovery, objs: seq<Entry>, r: Resource, stack: string, checksum: string)
  {
    WrittenKey(d, r).Some? && HoldsCurrent(objs, WrittenKey(d, r).value, stack, checksum)
  }

  /** A resource's key depends on its client's group version only, not on the endpoint. */
  lemma KeyOfEndpointFree(d: Discovery, c: Client, r: Resource)
    requires c == MakeClient(c.endpoint, r.apiVersion)
    ensures KeyOf(d, c, r) == WrittenKey(d, r)
  {
    EndpointFree(c.endpoint, r.apiVersion);
  }

  /** An upsert of a current object keeps every key that held a current object holding one. */
  lemma UpsertedKeepsCurrent(s: seq<Entry>, t: seq<Entry>, e: Entry, k: Key, stack: string, checksum: string)
    requires Upserted(s, t, e) && Labelled(e.res, stack) && !Stale(e.res, checksum)
    requires HoldsCurrent(s, k, stack, checksum)
    ensures HoldsCurrent(t, k, stack, checksum)
  {
    var x :| x in s && x.key == k && Labelled(x.res, stack) && !Stale(x.res, checksum);
    if x.key != e.key {
      assert x in t;
    } else {
      assert e in t && e.key == k;
    }
  }

  /** Upserting the current object written for `r` keeps every earlier written key current and makes `r`'s so. */
  lemma UpsertedKeepsAll(d: Discovery, s: seq<Entry>, t: seq<Entry>, e: Entry, r: Resource, applied: seq<Resource>,
                         stack: string, checksum: string)
    requires Upserted(s, t, e) && Labelled(e.res, stack) && !Stale(e.res, checksum) && WrittenKey(d, r) == Some(e.key)
    requires forall i :: 0 <= i < |applied| ==> WrittenCurrent(d, s, applied[i], stack, checksum)
    ensures forall i :: 0 <= i < |applied + [r]| ==> WrittenCurrent(d, t, (applied + [r])[i], stack, checksum)
  {
    var all := applied + [r];
    forall i | 0 <= i < |all| ensures WrittenCurrent(d, t, all[i], stack, checksum) {
      if i < |applied| {
        assert all[i] == applied[i];
        UpsertedKeepsCurrent(s, t, e, WrittenKey(d, applied[i]).value, stack, checksum);
      } else {
        assert all[i] == r;
      }
    }
  }

  /**
   * One successful apply of a current resource: the key it was written under holds it, and
   * every key the earlier applies wrote still holds a current object.
   */
  lemma ApplyOneCurrent(configs: map<string, string>, d: Discovery, w: World, host: string, r: Resource,
                        stack: string, checksum: string, applied: seq<Resource>)
    requires Valid(w.store) && CacheValid(w.clients)
    requires Labelled(r, stack) && !Stale(r, checksum)
    requires forall i :: 0 <= i < |applied| ==> WrittenCurrent(d, w.store.objects, applied[i], stack, checksum)
    ensures var a := ApplyResourceSpec(configs, d, w, host, r);
      && CacheValid(a.world.clients)
      && Valid(a.world.store)
      && (a.result.Ok? ==>
            forall i :: 0 <= i < |applied + [r]| ==> WrittenCurrent(d, a.world.store.objects, (applied + [r])[i], stack, checksum))
  {
    ApplyUpserts(configs, d, w, host, r);
    var a := ApplyResourceSpec(configs, d, w, host, r);
    if a.result.Ok? {
      var c := a.world.clients[r.apiVersion];
      assert c == MakeClient(c.endpoint, r.apiVersion);
      KeyOfEndpointFree(d, c, r);
      var e := Entry(KeyOf(d, c, r).value, Stored(r));
      assert Labelled(e.res, stack) && !Stale(e.res, checksum);
      UpsertedKeepsAll(d, w.store.objects, a.world.store.objects, e, r, applied, stack, checksum);
    }
  }

  /** The apply loop: after success every resource it applied has its key holding a current object. */
  lemma {:induction false} ApplyFilesCurrent(configs: map<string, string>, d: Discovery, w: World, host: string,
                                             stack: string, checksum: string, files: seq<string>,
                                             docs: map<string, Resource>, applied: seq<Resource>)
    requires Valid(w.store) && CacheValid(w.clients)
    requires forall i :: 0 <= i < |applied| ==> WrittenCurrent(d, w.store.objects, applied[i], stack, checksum)
    ensures var out := ApplyFiles(configs, d, w, host, stack, checksum, files, docs, applied);
      && CacheValid(out.world.clients)
      && (out.result.Ok? ==>
            forall i :: 0 <= i < |out.result.value| ==> WrittenCurrent(d, out.world.store.objects, out.result.value[i], stack, checksum))
    decreases |files|
  {
    if |files| > 0 && files[0] in docs {
      var r := Stamp(docs[files[0]], stack, checksum);
      StampedIsCurrent(docs[files[0]], stack, checksum, checksum);
      ApplyOneCurrent(configs, d, w, host, r, stack, checksum, applied);
      ApplyFilesStep(configs, d, w, host, stack, checksum, files, docs, applied);
      var a := ApplyResourceSpec(configs, d, w, host, r);
      if a.result.Ok? {
        ApplyFilesCurrent(configs, d, a.world, host, stack, checksum, files[1..], docs, applied + [r]);
      }
    }
  }

  /** Keys holding current objects stay so across a step that keeps every object not doomed. */
  lemma CurrentKept(d: Discovery, objs: seq<Entry>, objs2: seq<Entry>, rs: seq<Resource>, stack: string, checksum: string)
    requires forall i :: 0 <= i < |rs| ==> WrittenCurrent(d, objs, rs[i], stack, checksum)
    requires forall e :: e in objs && !Doomed(e, stack, checksum) ==> e in objs2
    ensures forall r :: r in rs ==> WrittenKey(d, r).Some? && HoldsCurrent(objs2, WrittenKey(d, r).value, stack, checksum)
  {
    forall r | r in rs ensures WrittenKey(d, r).Some? && HoldsCurrent(objs2, WrittenKey(d, r).value, stack, checksum) {
      var i :| 0 <= i < |rs| && rs[i] == r;
      assert WrittenCurrent(d, objs, r, stack, checksum);
      var k := WrittenKey(d, r).value;
      var x :| x in objs && x.key == k && Labelled(x.res, stack) && !Stale(x.res, checksum);
      assert x in objs2;
    }
  }

  /**
   * After a successful `apply_stack`, every key a manifest was written under holds an object
   * labelled with the stack and carrying the run's checksum, and no stale stack object that
   * prune reaches (through a reported group and a non-review entity type) is left.
   */
  lemma ApplyStackConverges(configs: map<string, string>, d: Discovery, w: World, host: string,
                            stack: string, checksum: string, files: seq<string>, docs: map<string, Resource>)
    requires Valid(w.store) && CacheValid(w.clients)
    requires forall gv :: gv in d.groups ==> GroupVersionForm(gv)
    requires NoRecurrence(ApplyFiles(configs, d, w, host, stack, checksum, ResourceFiles(files), docs, []).world.store.objects, d.groups)
    ensures var out := ApplyStackSpec(configs, d, w, host, stack, checksum, files, docs);
      out.result.Ok? ==>
        && (forall r :: r in out.result.value ==>
              WrittenKey(d, r).Some? && HoldsCurrent(out.world.store.objects, WrittenKey(d, r).value, stack, checksum))
        && (forall e :: e in out.world.store.objects && Doomed(e, stack, checksum) ==> !Reaches(d, d.groups, e))
  {
    var sorted := ResourceFiles(files);
    var a := ApplyFiles(configs, d, w, host, stack, checksum, sorted, docs, []);
    ApplyStackPrunesAfterApplies(configs, d, w, host, stack, checksum, files, docs);
    ApplyFilesDeletesNothing(configs, d, w, host, stack, checksum, sorted, docs, []);
    ApplyFilesCurrent(configs, d, w, host, stack, checksum, sorted, docs, []);
    PruneStackExact(configs, d, a.world, host, stack, checksum);
    var out := ApplyStackSpec(configs, d, w, host, stack, checksum, files, docs);
    if out.result.Ok? {
      CurrentKept(d, a.world.store.objects, out.world.store.objects, out.result.value, stack, checksum);
    }
  }
}
