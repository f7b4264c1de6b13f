/**
 * `prune_stack` deletes exactly the stale objects of the stack in the collections it visits:
 * every object left alone is current, carries no stack label, or lives where prune does not
 * look (an `*_review` entity type, a group the server does not report), and after a prune that
 * succeeded none of the stale stack objects it could see remain. `pruned` lists objects that
 * carry the stack label and a stale checksum, each with its group's preferred version.
 */
module PruneProperties {
  import opened Wrappers
  import opened Strings
  import opened Resources
  import opened KubeClient
  import opened ApiServer
  import opened Kube
  import opened KubeProperties

  /** An object prune is after: labelled with the stack, without the run's checksum. */
  predicate Doomed(e: Entry, stack: string, checksum: string)
  {
    Labelled(e.res, stack) && Stale(e.res, checksum)
  }

  /** The client for a group version; paths do not depend on the endpoint (see `EndpointFree`). */
  function Probe(gv: string): Client
  {
    MakeClient("", gv)
  }

  /** The base path of a group version's selfLinks, the text `delete_resource` cuts out of them. */
  function LinkPattern(gv: string): string
  {
    "/" + Probe(gv).prefix + "/" + gv
  }

  /** Entity types prune visits that are served as collection `coll`. */
  predicate Visits(es: seq<Entity>, coll: string)
  {
    exists ent :: ent in es && !EndsWith(ent.entityType, "_review") && ent.resourceName == coll
  }

  /** Prune looks at `e` through group version `gv`: its group is served there, under a visited entity type. */
  predicate ReachesVia(d: Discovery, gv: string, e: Entry)
  {
    Entities(d, Probe(gv)).Ok? && e.key.api == ApiPath(Probe(gv)) && Visits(Entities(d, Probe(gv)).value, e.key.collection)
  }

  predicate Reaches(d: Discovery, gvs: seq<string>, e: Entry)
  {
    exists gv :: gv in gvs && ReachesVia(d, gv, e)
  }

  /** The link pattern of no reported group recurs inside an object's own relative path. */
  predicate NoRecurrence(objs: seq<Entry>, gvs: seq<string>)
  {
    forall e, gv :: e in objs && gv in gvs ==> !Occurs(LinkPattern(gv), RelPath(e.key))
  }

  /** `p` reports a stale stack object of `before` that is gone from `after`, as listed through its group version. */
  predicate PrunedFrom(p: Resource, before: seq<Entry>, after: seq<Entry>, stack: string, checksum: string)
  {
    exists e :: e in before && e !in after && Doomed(e, stack, checksum) && p == Served(Probe(p.apiVersion), e).(apiVersion := p.apiVersion)
  }

  lemma PrunedFromMono(p: Resource, before: seq<Entry>, after: seq<Entry>, before2: seq<Entry>, after2: seq<Entry>, stack: string, checksum: string)
    requires PrunedFrom(p, before, after, stack, checksum)
    requires (forall e :: e in before ==> e in before2) && (forall e :: e in after2 ==> e in after)
    ensures PrunedFrom(p, before2, after2, stack, checksum)
  {
    var e :| e in before && e !in after && Doomed(e, stack, checksum) && p == Served(Probe(p.apiVersion), e).(apiVersion := p.apiVersion);
    assert e in before2 && e !in after2;
  }

  lemma EndpointFree(endpoint: string, gv: string)
    ensures MakeClient(endpoint, gv) == Probe(gv).(endpoint := endpoint)
    ensures ApiPath(MakeClient(endpoint, gv)) == ApiPath(Probe(gv))
    ensures ServedBase(MakeClient(endpoint, gv)) == ServedBase(Probe(gv))
  {
  }

  lemma SameKey(objs: seq<Entry>, a: Entry, b: Entry)
    requires UniqueKeys(objs) && a in objs && b in objs && a.key == b.key
    ensures a == b
  {
    var i :| 0 <= i < |objs| && objs[i] == a;
    var j :| 0 <= j < |objs| && objs[j] == b;
    assert i == j;
  }

  /** Two objects served through one client with the same selfLink have the same key. */
  lemma ServedKey(c: Client, a: Entry, b: Entry)
    requires Admissible(a.key) && Admissible(b.key) && a.key.api == ApiPath(c) && b.key.api == ApiPath(c)
    requires Served(c, a) == Served(c, b)
    ensures a.key == b.key
  {
    var base := ServedBase(c);
    assert base + RelPath(a.key) == base + RelPath(b.key);
    assert RelPath(a.key) == (base + RelPath(a.key))[|base|..];
    assert RelPath(b.key) == (base + RelPath(b.key))[|base|..];
    ParseRelPath(a.key);
    ParseRelPath(b.key);
  }

  /**
   * Deleting a listed object, with its apiVersion set to the group version it was listed
   * through, deletes the object under its own key and leaves the client cache alone.
   */
  lemma DeleteListed(configs: map<string, string>, d: Discovery, w: World, host: string, gv: string, c: Client, e0: Entry)
    requires gv in w.clients && w.clients[gv] == c && c == MakeClient(c.endpoint, gv) && GroupVersionForm(gv)
    requires e0.key.api == ApiPath(c) && Admissible(e0.key) && !Occurs(LinkPattern(gv), RelPath(e0.key))
    ensures var del := DeleteKey(d, w.store, e0.key, DefaultPolicy);
      DeleteResourceSpec(configs, d, w, host, Served(c, e0).(apiVersion := gv))
      == Out(if del.result == Err(NotFound) then Err(RestNotFound) else del.result, w.(store := del.store))
  {
    var rel := RelPath(e0.key);
    ServedBaseOfForm(c.endpoint, gv);
    EndpointFree(c.endpoint, gv);
    assert ServedBase(c) + rel == "/" + c.prefix + "/" + gv + rel;
    LinkRewrite(c.prefix, gv, rel);
    ParseRelPath(e0.key);
  }

  /** What prune's innermost loop may assume about the objects it deletes: they were listed from `objs`. */
  predicate ListedFrom(objs: seq<Entry>, c: Client, coll: string, stack: string, checksum: string, stale: seq<Resource>)
  {
    forall o :: o in stale ==> exists e :: e in objs && Listed(e, c, coll, stack) && Stale(e.res, checksum) && o == Served(c, e)
  }

  /** One deletion of a listed stale object: it removes that object's key and nothing else. */
  lemma DeleteDoomed(configs: map<string, string>, d: Discovery, w: World, host: string,
                     gv: string, c: Client, coll: string, stack: string, checksum: string, objs: seq<Entry>, e0: Entry)
    requires gv in w.clients && w.clients[gv] == c && c == MakeClient(c.endpoint, gv) && GroupVersionForm(gv)
    requires Valid(w.store) && Valid(Store(objs, [])) && NoRecurrence(objs, [gv])
    requires forall e :: e in w.store.objects ==> e in objs
    requires e0 in objs && Listed(e0, c, coll, stack) && Stale(e0.res, checksum)
    ensures var out := DeleteResourceSpec(configs, d, w, host, Served(c, e0).(apiVersion := gv));
      && out.world.clients == w.clients
      && Valid(out.world.store)
      && (forall e :: e in out.world.store.objects ==> e in w.store.objects)
      && (forall e :: e in w.store.objects && !(Doomed(e, stack, checksum) && e.key.api == ApiPath(c) && e.key.collection == coll)
            ==> e in out.world.store.objects)
      && (out.result.Ok? ==> forall e :: e in objs && Served(c, e) == Served(c, e0) && e.key.api == ApiPath(c)
                                ==> e !in out.world.store.objects)
  {
    var i0 :| 0 <= i0 < |objs| && objs[i0] == e0;
    assert Admissible(objs[i0].key);
    forall e | e in objs && Served(c, e) == Served(c, e0) && e.key.api == ApiPath(c) ensures e.key == e0.key {
      var i :| 0 <= i < |objs| && objs[i] == e;
      assert Admissible(objs[i].key);
      ServedKey(c, e, e0);
    }
    assert gv in [gv];
    DeleteListed(configs, d, w, host, gv, c, e0);
    var del := DeleteKey(d, w.store, e0.key, DefaultPolicy);
    forall e | e in w.store.objects && !(Doomed(e, stack, checksum) && e.key.api == ApiPath(c) && e.key.collection == coll)
      ensures e in del.store.objects
    {
      if e.key == e0.key { SameKey(objs, e, e0); }
    }
  }

  /** The first listed object went in one step, the others in the steps after it. */
  lemma AllGone(c: Client, objs: seq<Entry>, stale: seq<Resource>, mid: seq<Entry>, fin: seq<Entry>)
    requires |stale| > 0
    requires forall e :: e in objs && Served(c, e) == stale[0] && e.key.api == ApiPath(c) ==> e !in mid
    requires forall e :: e in fin ==> e in mid
    requires forall e :: e in objs && Served(c, e) in stale[1..] && e.key.api == ApiPath(c) ==> e !in fin
    ensures forall e :: e in objs && Served(c, e) in stale && e.key.api == ApiPath(c) ==> e !in fin
  {
    forall e | e in objs && Served(c, e) in stale && e.key.api == ApiPath(c) ensures e !in fin {
      if Served(c, e) != stale[0] {
        assert Served(c, e) in stale[1..];
      }
    }
  }

  /**
   * The stale objects listed from `objs` are deleted one by one, and nothing else: the store
   * only shrinks, keeps every object that is not a stale stack object of that collection, and,
   * when the loop succeeds, holds none of the objects listed.
   */
  lemma {:induction false} PruneObjectsExact(configs: map<string, string>, d: Discovery, w: World, host: string,
                                             gv: string, c: Client, coll: string, stack: string, checksum: string,
                                             objs: seq<Entry>, stale: seq<Resource>, pruned: seq<Resource>)
    requires gv in w.clients && w.clients[gv] == c && c == MakeClient(c.endpoint, gv) && GroupVersionForm(gv)
    requires Valid(w.store) && Valid(Store(objs, [])) && NoRecurrence(objs, [gv])
    requires forall e :: e in w.store.objects ==> e in objs
    requires ListedFrom(objs, c, coll, stack, checksum, stale)
    ensures var out := PruneObjects(configs, d, w, host, gv, stale, pruned);
      && out.world.clients == w.clients
      && Valid(out.world.store)
      && (forall e :: e in out.world.store.objects ==> e in w.store.objects)
      && (forall e :: e in w.store.objects && !(Doomed(e, stack, checksum) && e.key.api == ApiPath(c) && e.key.collection == coll)
            ==> e in out.world.store.objects)
      && (out.result.Ok? ==> forall e :: e in objs && Served(c, e) in stale && e.key.api == ApiPath(c) ==> e !in out.world.store.objects)
    decreases |stale|
  {
    if |stale| > 0 {
      assert stale[0] in stale;
      var e0 :| e0 in objs && Listed(e0, c, coll, stack) && Stale(e0.res, checksum) && stale[0] == Served(c, e0);
      DeleteDoomed(configs, d, w, host, gv, c, coll, stack, checksum, objs, e0);
      PruneObjectsStep(configs, d, w, host, gv, stale, pruned);
      var del := DeleteResourceSpec(configs, d, w, host, stale[0].(apiVersion := gv));
      if del.result.Ok? {
        var next := pruned + [stale[0].(apiVersion := gv)];
        assert forall o :: o in stale[1..] ==> o in stale;
        PruneObjectsExact(configs, d, del.world, host, gv, c, coll, stack, checksum, objs, stale[1..], next);
        var out := PruneObjects(configs, d, del.world, host, gv, stale[1..], next);
        if out.result.Ok? {
          AllGone(c, objs, stale, del.world.store.objects, out.world.store.objects);
        }
      }
    }
  }

  lemma ReportedOne(c: Client, gv: string, e0: Entry, before: seq<Entry>, after: seq<Entry>, stack: string, checksum: string)
    requires c == MakeClient(c.endpoint, gv)
    requires e0 in before && e0 !in after && Doomed(e0, stack, checksum)
    ensures PrunedFrom(Served(c, e0).(apiVersion := gv), before, after, stack, checksum)
  {
    EndpointFree(c.endpoint, gv);
    var p0 := Served(c, e0).(apiVersion := gv);
    assert p0 == Served(Probe(p0.apiVersion), e0).(apiVersion := p0.apiVersion);
  }

  /** The objects given the group version `gv`, in order. */
  function WithVersion(rs: seq<Resource>, gv: string): seq<Resource>
  {
    if |rs| == 0 then [] else [rs[0].(apiVersion := gv)] + WithVersion(rs[1..], gv)
  }

  lemma {:induction false} WithVersionMembers(rs: seq<Resource>, gv: string)
    ensures forall p :: p in WithVersion(rs, gv) ==> exists o :: o in rs && p == o.(apiVersion := gv)
    decreases |rs|
  {
    if |rs| > 0 {
      WithVersionMembers(rs[1..], gv);
      assert forall o :: o in rs[1..] ==> o in rs;
      assert rs[0] in rs;
    }
  }

  /** The innermost loop appends every object it was given, with the group version set, whatever the delete answered. */
  lemma {:induction false} PruneObjectsAppends(configs: map<string, string>, d: Discovery, w: World, host: string,
                                               gv: string, stale: seq<Resource>, pruned: seq<Resource>)
    ensures var out := PruneObjects(configs, d, w, host, gv, stale, pruned);
      out.result.Ok? ==> out.result.value == pruned + WithVersion(stale, gv)
    decreases |stale|
  {
    if |stale| > 0 {
      var p0 := stale[0].(apiVersion := gv);
      var del := DeleteResourceSpec(configs, d, w, host, p0);
      if del.result.Ok? {
        var next := pruned + [p0];
        assert PruneObjects(configs, d, w, host, gv, stale, pruned) == PruneObjects(configs, d, del.world, host, gv, stale[1..], next);
        PruneObjectsAppends(configs, d, del.world, host, gv, stale[1..], next);
        var rest := WithVersion(stale[1..], gv);
        assert WithVersion(stale, gv) == [p0] + rest;
        AppendAssoc(pruned, [p0], rest);
      }
    }
  }

  /** Each object one entity type's loop appended is a stale stack object of the listing that it deleted. */
  lemma ReportedListed(c: Client, gv: string, coll: string, stack: string, checksum: string,
                       objs: seq<Entry>, after: seq<Entry>, stale: seq<Resource>, pruned: seq<Resource>, value: seq<Resource>)
    requires c == MakeClient(c.endpoint, gv)
    requires ListedFrom(objs, c, coll, stack, checksum, stale)
    requires forall e :: e in objs && Served(c, e) in stale && e.key.api == ApiPath(c) ==> e !in after
    requires value == pruned + WithVersion(stale, gv)
    ensures forall q :: q in value && q !in pruned ==> q.apiVersion == gv && PrunedFrom(q, objs, after, stack, checksum)
  {
    WithVersionMembers(stale, gv);
    forall q | q in value && q !in pruned ensures q.apiVersion == gv && PrunedFrom(q, objs, after, stack, checksum) {
      assert q in WithVersion(stale, gv);
      var o :| o in stale && q == o.(apiVersion := gv);
      var e :| e in objs && Listed(e, c, coll, stack) && Stale(e.res, checksum) && o == Served(c, e);
      ReportedOne(c, gv, e, objs, after, stack, checksum);
    }
  }

  lemma PruneObjectsStep(configs: map<string, string>, d: Discovery, w: World, host: string, gv: string,
                         stale: seq<Resource>, pruned: seq<Resource>)
    requires |stale| > 0
    ensures var del := DeleteResourceSpec(configs, d, w, host, stale[0].(apiVersion := gv));
      del.result.Err? ==> PruneObjects(configs, d, w, host, gv, stale, pruned) == Out(Err(del.result.error), del.world)
    ensures var del := DeleteResourceSpec(configs, d, w, host, stale[0].(apiVersion := gv));
      del.result.Ok? ==>
        PruneObjects(configs, d, w, host, gv, stale, pruned)
        == PruneObjects(configs, d, del.world, host, gv, stale[1..], pruned + [stale[0].(apiVersion := gv)])
  {
  }

  lemma VisitsCons(es: seq<Entity>)
    requires |es| > 0
    ensures forall coll :: Visits(es, coll) <==>
      ((!EndsWith(es[0].entityType, "_review") && es[0].resourceName == coll) || Visits(es[1..], coll))
  {
    assert es == [es[0]] + es[1..];
    forall coll | Visits(es, coll)
      ensures (!EndsWith(es[0].entityType, "_review") && es[0].resourceName == coll) || Visits(es[1..], coll)
    {
      var ent :| ent in es && !EndsWith(ent.entityType, "_review") && ent.resourceName == coll;
      if ent != es[0] { assert ent in es[1..]; }
    }
    forall coll | Visits(es[1..], coll) ensures Visits(es, coll) {
      var ent :| ent in es[1..] && !EndsWith(ent.entityType, "_review") && ent.resourceName == coll;
      assert ent in es;
    }
    assert es[0] in es;
  }

  /** The objects a collection's listing hands to the delete loop are exactly its stale stack objects. */
  lemma ListedStale(objs: seq<Entry>, c: Client, coll: string, stack: string, checksum: string)
    ensures var stale := StaleOnes(ListSpec(objs, c, coll, stack), checksum);
      && ListedFrom(objs, c, coll, stack, checksum, stale)
      && forall e :: e in objs && Listed(e, c, coll, stack) && Stale(e.res, checksum) ==> Served(c, e) in stale
  {
    var listed := ListSpec(objs, c, coll, stack);
    var stale := StaleOnes(listed, checksum);
    forall o | o in stale ensures exists e :: e in objs && Listed(e, c, coll, stack) && Stale(e.res, checksum) && o == Served(c, e) {
      var e :| e in objs && Listed(e, c, coll, stack) && o == Served(c, e);
      assert Stale(e.res, checksum);
    }
    forall e | e in objs && Listed(e, c, coll, stack) && Stale(e.res, checksum) ensures Served(c, e) in stale {
      assert Stale(Served(c, e), checksum);
    }
  }

  lemma PruneEntitiesStep(configs: map<string, string>, d: Discovery, w: World, host: string, stack: string, checksum: string,
                          gv: string, c: Client, es: seq<Entity>, pruned: seq<Resource>)
    requires |es| > 0 && !EndsWith(es[0].entityType, "_review")
    ensures var listed := GetEntitiesSpec(d, w.store, c, es[0].resourceName, stack);
      listed.Err? ==> PruneEntities(configs, d, w, host, stack, checksum, gv, c, es, pruned) == Out(Err(NotAllowed), w)
    ensures var stale := StaleOnes(ListSpec(w.store.objects, c, es[0].resourceName, stack), checksum);
      var p := PruneObjects(configs, d, w, host, gv, stale, pruned);
      GetEntitiesSpec(d, w.store, c, es[0].resourceName, stack).Ok? ==>
        PruneEntities(configs, d, w, host, stack, checksum, gv, c, es, pruned)
        == if p.result.Err? then p else PruneEntities(configs, d, p.world, host, stack, checksum, gv, c, es[1..], p.result.value)
  {
  }

  /**
   * One API group: the store only shrinks; an object survives unless it is a stale stack object
   * of the group under a visited entity type; after success no such object remains.
   */
  lemma {:induction false} PruneEntitiesExact(configs: map<string, string>, d: Discovery, w: World, host: string,
                                              stack: string, checksum: string, gv: string, c: Client,
                                              es: seq<Entity>, pruned: seq<Resource>)
    requires gv in w.clients && w.clients[gv] == c && c == MakeClient(c.endpoint, gv) && GroupVersionForm(gv)
    requires Valid(w.store) && NoRecurrence(w.store.objects, [gv])
    ensures var out := PruneEntities(configs, d, w, host, stack, checksum, gv, c, es, pruned);
      && out.world.clients == w.clients
      && Valid(out.world.store)
      && (forall e :: e in out.world.store.objects ==> e in w.store.objects)
      && (forall e :: e in w.store.objects && !(Doomed(e, stack, checksum) && e.key.api == ApiPath(c) && Visits(es, e.key.collection))
            ==> e in out.world.store.objects)
      && (out.result.Ok? ==>
            forall e :: e in w.store.objects && Doomed(e, stack, checksum) && e.key.api == ApiPath(c) && Visits(es, e.key.collection)
              ==> e !in out.world.store.objects)
      && (out.result.Ok? ==> forall p :: p in out.result.value ==>
            p in pruned || (p.apiVersion == gv && PrunedFrom(p, w.store.objects, out.world.store.objects, stack, checksum)))
    decreases |es|
  {
    if |es| > 0 {
      VisitsCons(es);
      if EndsWith(es[0].entityType, "_review") {
        PruneEntitiesExact(configs, d, w, host, stack, checksum, gv, c, es[1..], pruned);
      } else {
        var coll0 := es[0].resourceName;
        var objs := w.store.objects;
        var stale := StaleOnes(ListSpec(objs, c, coll0, stack), checksum);
        ListedStale(objs, c, coll0, stack, checksum);
        PruneObjectsExact(configs, d, w, host, gv, c, coll0, stack, checksum, objs, stale, pruned);
        PruneObjectsAppends(configs, d, w, host, gv, stale, pruned);
        PruneEntitiesStep(configs, d, w, host, stack, checksum, gv, c, es, pruned);
        var p := PruneObjects(configs, d, w, host, gv, stale, pruned);
        if p.result.Ok? {
          ReportedListed(c, gv, coll0, stack, checksum, objs, p.world.store.objects, stale, pruned, p.result.value);
          PruneEntitiesExact(configs, d, p.world, host, stack, checksum, gv, c, es[1..], p.result.value);
          var out := PruneEntities(configs, d, p.world, host, stack, checksum, gv, c, es[1..], p.result.value);
          if out.result.Ok? {
            forall q | q in out.result.value && q !in pruned
              ensures q.apiVersion == gv && PrunedFrom(q, objs, out.world.store.objects, stack, checksum)
            {
              if q in p.result.value {
                PrunedFromMono(q, objs, p.world.store.objects, objs, out.world.store.objects, stack, checksum);
              } else {
                PrunedFromMono(q, p.world.store.objects, out.world.store.objects, objs, out.world.store.objects, stack, checksum);
              }
            }
          }
        }
      }
    }
  }

  lemma ReachesCons(d: Discovery, gvs: seq<string>)
    requires |gvs| > 0
    ensures forall e :: Reaches(d, gvs, e) <==> (ReachesVia(d, gvs[0], e) || Reaches(d, gvs[1..], e))
  {
    assert gvs == [gvs[0]] + gvs[1..];
    forall e | Reaches(d, gvs, e) ensures ReachesVia(d, gvs[0], e) || Reaches(d, gvs[1..], e) {
      var gv :| gv in gvs && ReachesVia(d, gv, e);
      if gv != gvs[0] { assert gv in gvs[1..]; }
    }
    forall e | Reaches(d, gvs[1..], e) ensures Reaches(d, gvs, e) {
      var gv :| gv in gvs[1..] && ReachesVia(d, gv, e);
      assert gv in gvs;
    }
    assert gvs[0] in gvs;
  }

  lemma PruneGroupsStep(configs: map<string, string>, d: Discovery, w: World, host: string, stack: string, checksum: string,
                        gvs: seq<string>, pruned: seq<Resource>)
    requires |gvs| > 0
    ensures var conn := Connect(configs, w.clients, host, gvs[0]);
      var w1 := w.(clients := conn.clients);
      var out := PruneGroups(configs, d, w, host, stack, checksum, gvs, pruned);
      if conn.result.Err? || Entities(d, conn.result.value).Err? then out.result.Err? && out.world == w1
      else
        var p := PruneEntities(configs, d, w1, host, stack, checksum, gvs[0], conn.result.value, Entities(d, conn.result.value).value, pruned);
        out == if p.result.Err? then p else PruneGroups(configs, d, p.world, host, stack, checksum, gvs[1..], p.result.value)
  {
  }

  /** Every reported group in turn: the facts of `PruneEntitiesExact`, for the groups `gvs` reach. */
  lemma {:induction false} PruneGroupsExact(configs: map<string, string>, d: Discovery, w: World, host: string,
                                            stack: string, checksum: string, gvs: seq<string>, pruned: seq<Resource>)
    requires Valid(w.store) && CacheValid(w.clients)
    requires forall gv :: gv in gvs ==> GroupVersionForm(gv)
    requires NoRecurrence(w.store.objects, gvs)
    ensures var out := PruneGroups(configs, d, w, host, stack, checksum, gvs, pruned);
      && CacheValid(out.world.clients)
      && Valid(out.world.store)
      && (forall e :: e in out.world.store.objects ==> e in w.store.objects)
      && (forall e :: e in w.store.objects && !(Doomed(e, stack, checksum) && Reaches(d, gvs, e)) ==> e in out.world.store.objects)
      && (out.result.Ok? ==>
            forall e :: e in w.store.objects && Doomed(e, stack, checksum) && Reaches(d, gvs, e) ==> e !in out.world.store.objects)
      && (out.result.Ok? ==> forall p :: p in out.result.value ==>
            p in pruned || (p.apiVersion in gvs && PrunedFrom(p, w.store.objects, out.world.store.objects, stack, checksum)))
    decreases |gvs|
  {
    if |gvs| > 0 {
      ReachesCons(d, gvs);
      PruneGroupsStep(configs, d, w, host, stack, checksum, gvs, pruned);
      var gv := gvs[0];
      assert gv in gvs;
      var conn := Connect(configs, w.clients, host, gv);
      if conn.result.Ok? {
        var c := conn.result.value;
        assert c == MakeClient(c.endpoint, gv);
        EndpointFree(c.endpoint, gv);
        if Entities(d, c).Ok? {
          var es := Entities(d, c).value;
          var w1 := w.(clients := conn.clients);
          assert NoRecurrence(w1.store.objects, [gv]);
          PruneEntitiesExact(configs, d, w1, host, stack, checksum, gv, c, es, pruned);
          var p := PruneEntities(configs, d, w1, host, stack, checksum, gv, c, es, pruned);
          assert forall e :: ReachesVia(d, gv, e) <==> e.key.api == ApiPath(c) && Visits(es, e.key.collection);
          if p.result.Ok? {
            assert forall g :: g in gvs[1..] ==> g in gvs;
            assert NoRecurrence(p.world.store.objects, gvs[1..]);
            PruneGroupsExact(configs, d, p.world, host, stack, checksum, gvs[1..], p.result.value);
            var out := PruneGroups(configs, d, p.world, host, stack, checksum, gvs[1..], p.result.value);
            if out.result.Ok? {
              forall q | q in out.result.value && q !in pruned
                ensures q.apiVersion in gvs && PrunedFrom(q, w.store.objects, out.world.store.objects, stack, checksum)
              {
                if q in p.result.value {
                  PrunedFromMono(q, w.store.objects, p.world.store.objects, w.store.objects, out.world.store.objects, stack, checksum);
                } else {
                  PrunedFromMono(q, p.world.store.objects, out.world.store.objects, w.store.objects, out.world.store.objects, stack, checksum);
                }
              }
            }
          }
        }
      }
    }
  }

  /**
   * `prune_stack` deletes exactly the stale stack objects it can see. The store only shrinks;
   * every object that carries the run's checksum, lacks the stack label, or is not reached
   * through a reported group and a non-review entity type is kept; and after a successful prune
   * no stale stack object that prune reached remains.
   */
  lemma PruneStackExact(configs: map<string, string>, d: Discovery, w: World, host: string, stack: string, checksum: string)
    requires Valid(w.store) && CacheValid(w.clients)
    requires forall gv :: gv in d.groups ==> GroupVersionForm(gv)
    requires NoRecurrence(w.store.objects, d.groups)
    ensures var out := PruneStackSpec(configs, d, w, host, stack, checksum);
      && CacheValid(out.world.clients)
      && Valid(out.world.store)
      && (forall e :: e in out.world.store.objects ==> e in w.store.objects)
      && (forall e :: e in w.store.objects && !(Doomed(e, stack, checksum) && Reaches(d, d.groups, e)) ==> e in out.world.store.objects)
      && (out.result.Ok? ==>
            forall e :: e in w.store.objects && Doomed(e, stack, checksum) && Reaches(d, d.groups, e) ==> e !in out.world.store.objects)
  {
    var conn := Connect(configs, w.clients, host, "");
    if conn.result.Ok? {
      PruneGroupsExact(configs, d, w.(clients := conn.clients), host, stack, checksum, d.groups, []);
    }
  }

  // ---------------------------------------------------------------------------
  // what prune returns, against the deletions it logged

  /**
   * `p` reports the object of `before` stored under `k`: a stale stack object in the group
   * `p.apiVersion` names, as that group version serves it.
   */
  predicate Reports(p: Resource, k: Key, before: seq<Entry>, stack: string, checksum: string)
  {
    exists e :: e in before && e.key == k && Doomed(e, stack, checksum) && e.key.api == ApiPath(Probe(p.apiVersion))
      && p == Served(Probe(p.apiVersion), e).(apiVersion := p.apiVersion)
  }

  /** The deletions logged from `before` to `after`. */
  function Fresh(before: Store, after: Store): seq<Deletion>
    requires |before.deletions| <= |after.deletions|
  {
    after.deletions[|before.deletions|..]
  }

  /** `after`'s deletion log extends `before`'s by `n` entries. */
  predicate Extends(before: Store, after: Store, n: nat)
  {
    |before.deletions| <= |after.deletions| && after.deletions[..|before.deletions|] == before.deletions
    && |after.deletions| == |before.deletions| + n
  }

  /** The i-th entry of `rs` reports the object the i-th new deletion names. */
  predicate ReportsAll(before: Store, after: Store, rs: seq<Resource>, stack: string, checksum: string)
    requires Extends(before, after, |rs|)
  {
    forall i :: 0 <= i < |rs| ==> Reports(rs[i], Fresh(before, after)[i].key, before.objects, stack, checksum)
  }

  predicate Shrinks(before: Store, after: Store)
  {
    forall e :: e in after.objects ==> e in before.objects
  }

  /** Every object that went had its key among the `n` new deletions. */
  predicate Covered(before: Store, after: Store, n: nat)
    requires Extends(before, after, n)
  {
    forall e :: e in before.objects && e !in after.objects ==> exists i :: 0 <= i < n && Fresh(before, after)[i].key == e.key
  }

  /**
   * From `before` to `after` one deletion was logged per entry of `rs`, in order, the i-th of
   * the object the i-th entry reports; the store only shrank, and every object that went had
   * its key logged.
   */
  predicate Logged(before: Store, after: Store, rs: seq<Resource>, stack: string, checksum: string)
  {
    Extends(before, after, |rs|) && ReportsAll(before, after, rs, stack, checksum) && Shrinks(before, after) && Covered(before, after, |rs|)
  }

  lemma ReportsMono(p: Resource, k: Key, before: seq<Entry>, before2: seq<Entry>, stack: string, checksum: string)
    requires Reports(p, k, before, stack, checksum) && forall e :: e in before ==> e in before2
    ensures Reports(p, k, before2, stack, checksum)
  {
    var e :| e in before && e.key == k && Doomed(e, stack, checksum) && e.key.api == ApiPath(Probe(p.apiVersion))
             && p == Served(Probe(p.apiVersion), e).(apiVersion := p.apiVersion);
    assert e in before2;
  }

  lemma LoggedNothing(s: Store, stack: string, checksum: string)
    ensures Logged(s, s, [], stack, checksum)
  {
    assert Fresh(s, s) == [];
  }

  lemma ExtendsTrans(s1: Store, s2: Store, s3: Store, n1: nat, n2: nat)
    requires Extends(s1, s2, n1) && Extends(s2, s3, n2)
    ensures Extends(s1, s3, n1 + n2) && Fresh(s1, s3) == Fresh(s1, s2) + Fresh(s2, s3)
  {
    PrefixChain(s1.deletions, s2.deletions, s3.deletions);
  }

  lemma ReportsAllTrans(s1: Store, s2: Store, s3: Store, r1: seq<Resource>, r2: seq<Resource>, stack: string, checksum: string)
    requires Extends(s1, s2, |r1|) && Extends(s2, s3, |r2|) && Shrinks(s1, s2)
    requires ReportsAll(s1, s2, r1, stack, checksum) && ReportsAll(s2, s3, r2, stack, checksum)
    ensures Extends(s1, s3, |r1 + r2|) && ReportsAll(s1, s3, r1 + r2, stack, checksum)
  {
    ExtendsTrans(s1, s2, s3, |r1|, |r2|);
    var f1 := Fresh(s1, s2);
    var f2 := Fresh(s2, s3);
    var f := Fresh(s1, s3);
    var rs := r1 + r2;
    forall i | 0 <= i < |rs| ensures Reports(rs[i], f[i].key, s1.objects, stack, checksum) {
      if i < |r1| {
        assert rs[i] == r1[i] && f[i] == f1[i];
      } else {
        assert rs[i] == r2[i - |r1|] && f[i] == f2[i - |r1|];
        ReportsMono(r2[i - |r1|], f2[i - |r1|].key, s2.objects, s1.objects, stack, checksum);
      }
    }
  }

  lemma CoveredTrans(s1: Store, s2: Store, s3: Store, n1: nat, n2: nat)
    requires Extends(s1, s2, n1) && Extends(s2, s3, n2)
    requires Covered(s1, s2, n1) && Covered(s2, s3, n2)
    ensures Extends(s1, s3, n1 + n2) && Covered(s1, s3, n1 + n2)
  {
    ExtendsTrans(s1, s2, s3, n1, n2);
    var f1 := Fresh(s1, s2);
    var f2 := Fresh(s2, s3);
    var f := Fresh(s1, s3);
    forall e | e in s1.objects && e !in s3.objects ensures exists i :: 0 <= i < n1 + n2 && f[i].key == e.key {
      if e in s2.objects {
        var j :| 0 <= j < n2 && f2[j].key == e.key;
        assert f[n1 + j] == f2[j];
      } else {
        var j :| 0 <= j < n1 && f1[j].key == e.key;
        assert f[j] == f1[j];
      }
    }
  }

  /** Two logged stretches in a row make one. */
  lemma LoggedTrans(s1: Store, s2: Store, s3: Store, r1: seq<Resource>, r2: seq<Resource>, stack: string, checksum: string)
    requires Logged(s1, s2, r1, stack, checksum) && Logged(s2, s3, r2, stack, checksum)
    ensures Logged(s1, s3, r1 + r2, stack, checksum)
  {
    ReportsAllTrans(s1, s2, s3, r1, r2, stack, checksum);
    CoveredTrans(s1, s2, s3, |r1|, |r2|);
  }

  /** One successful deletion by key, reported by `p`. */
  lemma LoggedOne(d: Discovery, s: Store, k: Key, p: Resource, stack: string, checksum: string)
    requires DeleteKey(d, s, k, DefaultPolicy).result.Ok? && Reports(p, k, s.objects, stack, checksum)
    ensures Logged(s, DeleteKey(d, s, k, DefaultPolicy).store, [p], stack, checksum)
  {
    var t := DeleteKey(d, s, k, DefaultPolicy).store;
    assert t.deletions == s.deletions + [Deletion(k, DefaultPolicy)];
    AppendParts(s.deletions, [Deletion(k, DefaultPolicy)]);
    assert Fresh(s, t) == [Deletion(k, DefaultPolicy)];
    forall e | e in s.objects && e !in t.objects ensures Fresh(s, t)[0].key == e.key {
    }
  }

  /** A listed stale object, given its group version, reports itself. */
  lemma ReportsListed(c: Client, gv: string, e0: Entry, objs: seq<Entry>, stack: string, checksum: string)
    requires c == MakeClient(c.endpoint, gv)
    requires e0 in objs && Doomed(e0, stack, checksum) && e0.key.api == ApiPath(c)
    ensures Reports(Served(c, e0).(apiVersion := gv), e0.key, objs, stack, checksum)
  {
    EndpointFree(c.endpoint, gv);
    var p0 := Served(c, e0).(apiVersion := gv);
    assert p0 == Served(Probe(p0.apiVersion), e0).(apiVersion := p0.apiVersion);
  }

  /** `stale` is the listing of the stored stale stack objects `ents` through `c`, one for one, with distinct keys. */
  predicate StaleListing(objs: seq<Entry>, c: Client, stack: string, checksum: string, ents: seq<Entry>, stale: seq<Resource>)
  {
    && |ents| == |stale| && UniqueKeys(ents)
    && forall i :: 0 <= i < |ents| ==>
         ents[i] in objs && Doomed(ents[i], stack, checksum) && ents[i].key.api == ApiPath(c) && stale[i] == Served(c, ents[i])
  }

  /**
   * Deleting the first of the listed stale objects `ents`: the cache is kept; a failure keeps
   * the store; success logs that one object's deletion and keeps the others.
   */
  lemma DeleteFirstLogged(configs: map<string, string>, d: Discovery, w: World, host: string,
                          gv: string, c: Client, stack: string, checksum: string, ents: seq<Entry>, stale: seq<Resource>)
    requires gv in w.clients && w.clients[gv] == c && c == MakeClient(c.endpoint, gv) && GroupVersionForm(gv)
    requires Valid(w.store) && NoRecurrence(w.store.objects, [gv])
    requires |stale| > 0 && StaleListing(w.store.objects, c, stack, checksum, ents, stale)
    ensures var del := DeleteResourceSpec(configs, d, w, host, stale[0].(apiVersion := gv));
      && del.world.clients == w.clients
      && Valid(del.world.store)
      && (del.result.Err? ==> del.world.store == w.store)
      && (del.result.Ok? ==>
            && Logged(w.store, del.world.store, [stale[0].(apiVersion := gv)], stack, checksum)
            && NoRecurrence(del.world.store.objects, [gv])
            && StaleListing(del.world.store.objects, c, stack, checksum, ents[1..], stale[1..]))
  {
    var e0 := ents[0];
    var i0 :| 0 <= i0 < |w.store.objects| && w.store.objects[i0] == e0;
    assert Admissible(w.store.objects[i0].key);
    assert gv in [gv];
    DeleteListed(configs, d, w, host, gv, c, e0);
    var k := DeleteKey(d, w.store, e0.key, DefaultPolicy);
    if k.result.Ok? {
      DeleteKeyLogged(d, w.store, gv, c, stack, checksum, ents, stale);
    }
  }

  /** `DeleteFirstLogged` at the server: the deletion by the first listed object's key. */
  lemma DeleteKeyLogged(d: Discovery, s: Store, gv: string, c: Client, stack: string, checksum: string,
                        ents: seq<Entry>, stale: seq<Resource>)
    requires c == MakeClient(c.endpoint, gv)
    requires Valid(s) && NoRecurrence(s.objects, [gv])
    requires |stale| > 0 && StaleListing(s.objects, c, stack, checksum, ents, stale)
    requires DeleteKey(d, s, ents[0].key, DefaultPolicy).result.Ok?
    ensures var t := DeleteKey(d, s, ents[0].key, DefaultPolicy).store;
      && Logged(s, t, [stale[0].(apiVersion := gv)], stack, checksum)
      && NoRecurrence(t.objects, [gv])
      && StaleListing(t.objects, c, stack, checksum, ents[1..], stale[1..])
  {
    var e0 := ents[0];
    var t := DeleteKey(d, s, e0.key, DefaultPolicy).store;
    ReportsListed(c, gv, e0, s.objects, stack, checksum);
    LoggedOne(d, s, e0.key, stale[0].(apiVersion := gv), stack, checksum);
    StaleListingTail(s.objects, t.objects, c, stack, checksum, ents, stale);
  }

  /** After the first listed object's key is deleted, the others are still a stale listing. */
  lemma StaleListingTail(objs: seq<Entry>, objs2: seq<Entry>, c: Client, stack: string, checksum: string, ents: seq<Entry>, stale: seq<Resource>)
    requires |stale| > 0 && StaleListing(objs, c, stack, checksum, ents, stale)
    requires forall e :: e in objs && e.key != ents[0].key ==> e in objs2
    ensures StaleListing(objs2, c, stack, checksum, ents[1..], stale[1..])
  {
    var rest := ents[1..];
    forall i | 0 <= i < |rest|
      ensures rest[i] in objs2 && Doomed(rest[i], stack, checksum) && rest[i].key.api == ApiPath(c)
      ensures stale[1..][i] == Served(c, rest[i])
    {
      assert rest[i] == ents[i + 1] && stale[1..][i] == stale[i + 1];
      assert ents[0].key != ents[i + 1].key;
    }
    forall i, j | 0 <= i < j < |rest| ensures rest[i].key != rest[j].key {
      assert rest[i] == ents[i + 1] && rest[j] == ents[j + 1];
    }
  }

  /**
   * The innermost loop over listed stale objects `ents`, with distinct keys: on success it
   * logged one deletion per object, in order, each of that object.
   */
  lemma {:induction false} PruneObjectsLog(configs: map<string, string>, d: Discovery, w: World, host: string,
                                           gv: string, c: Client, stack: string, checksum: string,
                                           ents: seq<Entry>, stale: seq<Resource>, pruned: seq<Resource>)
    requires gv in w.clients && w.clients[gv] == c && c == MakeClient(c.endpoint, gv) && GroupVersionForm(gv)
    requires Valid(w.store) && NoRecurrence(w.store.objects, [gv])
    requires StaleListing(w.store.objects, c, stack, checksum, ents, stale)
    ensures var out := PruneObjects(configs, d, w, host, gv, stale, pruned);
      && out.world.clients == w.clients
      && Valid(out.world.store)
      && (out.result.Ok? ==> Logged(w.store, out.world.store, WithVersion(stale, gv), stack, checksum))
    decreases |stale|
  {
    if |stale| == 0 {
      LoggedNothing(w.store, stack, checksum);
    } else {
      var p0 := stale[0].(apiVersion := gv);
      DeleteFirstLogged(configs, d, w, host, gv, c, stack, checksum, ents, stale);
      PruneObjectsStep(configs, d, w, host, gv, stale, pruned);
      var del := DeleteResourceSpec(configs, d, w, host, p0);
      if del.result.Ok? {
        PruneObjectsLog(configs, d, del.world, host, gv, c, stack, checksum, ents[1..], stale[1..], pruned + [p0]);
        var out := PruneObjects(configs, d, del.world, host, gv, stale[1..], pruned + [p0]);
        if out.result.Ok? {
          LoggedTrans(w.store, del.world.store, out.world.store, [p0], WithVersion(stale[1..], gv), stack, checksum);
          assert WithVersion(stale, gv) == [p0] + WithVersion(stale[1..], gv);
        }
      }
    }
  }

  /** The entries behind a collection's stale listing, in listing order. */
  function StaleEntries(objs: seq<Entry>, c: Client, coll: string, stack: string, checksum: string): seq<Entry>
  {
    if |objs| == 0 then []
    else
      var rest := StaleEntries(objs[1..], c, coll, stack, checksum);
      if Listed(objs[0], c, coll, stack) && Stale(objs[0].res, checksum) then [objs[0]] + rest else rest
  }

  /** The stale listing of a nonempty store: its first object's share, then the rest's. */
  lemma StaleListedCons(objs: seq<Entry>, c: Client, coll: string, stack: string, checksum: string)
    requires |objs| > 0
    ensures StaleOnes(ListSpec(objs, c, coll, stack), checksum)
      == (if Listed(objs[0], c, coll, stack) && Stale(objs[0].res, checksum) then [Served(c, objs[0])] else [])
         + StaleOnes(ListSpec(objs[1..], c, coll, stack), checksum)
  {
    var rest := ListSpec(objs[1..], c, coll, stack);
    if Listed(objs[0], c, coll, stack) {
      var x := Served(c, objs[0]);
      assert ListSpec(objs, c, coll, stack) == [x] + rest;
      assert ([x] + rest)[1..] == rest;
      assert Stale(x, checksum) == Stale(objs[0].res, checksum);
    }
  }

  /** `stale` is the entries `ents`, each a listed stale object, served through `c`, one for one. */
  predicate ServedPairs(c: Client, coll: string, stack: string, checksum: string, ents: seq<Entry>, stale: seq<Resource>)
  {
    && |ents| == |stale|
    && forall i :: 0 <= i < |ents| ==>
         Listed(ents[i], c, coll, stack) && Stale(ents[i].res, checksum) && stale[i] == Served(c, ents[i])
  }

  lemma ServedPairsCons(c: Client, coll: string, stack: string, checksum: string, o: Entry, ents: seq<Entry>, stale: seq<Resource>)
    requires ServedPairs(c, coll, stack, checksum, ents, stale)
    requires Listed(o, c, coll, stack) && Stale(o.res, checksum)
    ensures ServedPairs(c, coll, stack, checksum, [o] + ents, [Served(c, o)] + stale)
  {
    var ents2 := [o] + ents;
    var stale2 := [Served(c, o)] + stale;
    forall i | 0 < i < |ents2| ensures ents2[i] == ents[i - 1] && stale2[i] == stale[i - 1] {
    }
  }

  lemma {:induction false} StaleEntriesPairs(objs: seq<Entry>, c: Client, coll: string, stack: string, checksum: string)
    ensures ServedPairs(c, coll, stack, checksum, StaleEntries(objs, c, coll, stack, checksum),
                        StaleOnes(ListSpec(objs, c, coll, stack), checksum))
    decreases |objs|
  {
    if |objs| > 0 {
      var o := objs[0];
      StaleEntriesPairs(objs[1..], c, coll, stack, checksum);
      StaleListedCons(objs, c, coll, stack, checksum);
      var ents1 := StaleEntries(objs[1..], c, coll, stack, checksum);
      var stale1 := StaleOnes(ListSpec(objs[1..], c, coll, stack), checksum);
      if Listed(o, c, coll, stack) && Stale(o.res, checksum) {
        ServedPairsCons(c, coll, stack, checksum, o, ents1, stale1);
      } else {
        assert [] + stale1 == stale1;
      }
    }
  }

  /** The stale listing of a collection is its stale entries, served, one for one. */
  lemma StaleEntriesListed(objs: seq<Entry>, c: Client, coll: string, stack: string, checksum: string)
    ensures var ents := StaleEntries(objs, c, coll, stack, checksum);
      var stale := StaleOnes(ListSpec(objs, c, coll, stack), checksum);
      && |ents| == |stale|
      && (forall i :: 0 <= i < |ents| ==>
            ents[i] in objs && Listed(ents[i], c, coll, stack) && Stale(ents[i].res, checksum) && stale[i] == Served(c, ents[i]))
  {
    StaleEntriesPairs(objs, c, coll, stack, checksum);
    StaleEntriesWithin(objs, c, coll, stack, checksum);
  }

  lemma {:induction false} StaleEntriesWithin(objs: seq<Entry>, c: Client, coll: string, stack: string, checksum: string)
    ensures forall e :: e in StaleEntries(objs, c, coll, stack, checksum) ==> e in objs
    decreases |objs|
  {
    if |objs| > 0 {
      StaleEntriesWithin(objs[1..], c, coll, stack, checksum);
      assert forall e :: e in objs[1..] ==> e in objs;
    }
  }

  /** The stale entries of a store with distinct keys have distinct keys. */
  lemma {:induction false} StaleEntriesUnique(objs: seq<Entry>, c: Client, coll: string, stack: string, checksum: string)
    requires UniqueKeys(objs)
    ensures UniqueKeys(StaleEntries(objs, c, coll, stack, checksum))
    decreases |objs|
  {
    if |objs| > 0 {
      var o := objs[0];
      var ents1 := StaleEntries(objs[1..], c, coll, stack, checksum);
      StaleEntriesUnique(objs[1..], c, coll, stack, checksum);
      StaleEntriesWithin(objs[1..], c, coll, stack, checksum);
      if Listed(o, c, coll, stack) && Stale(o.res, checksum) {
        var ents := [o] + ents1;
        forall j | 0 <= j < |ents1| ensures ents1[j].key != o.key {
          assert ents1[j] in objs[1..];
          var m :| 0 <= m < |objs[1..]| && objs[1..][m] == ents1[j];
          assert objs[m + 1] == ents1[j];
        }
        forall i, j | 0 <= i < j < |ents| ensures ents[i].key != ents[j].key {
          assert ents[j] == ents1[j - 1];
          if i > 0 { assert ents[i] == ents1[i - 1]; }
        }
      }
    }
  }

  /**
   * One API group: on success the objects appended to `pruned` are, in order, reports of the
   * deletions the group's loops logged.
   */
  lemma {:induction false} PruneEntitiesLog(configs: map<string, string>, d: Discovery, w: World, host: string,
                                            stack: string, checksum: string, gv: string, c: Client,
                                            es: seq<Entity>, pruned: seq<Resource>)
    requires gv in w.clients && w.clients[gv] == c && c == MakeClient(c.endpoint, gv) && GroupVersionForm(gv)
    requires Valid(w.store) && NoRecurrence(w.store.objects, [gv])
    ensures var out := PruneEntities(configs, d, w, host, stack, checksum, gv, c, es, pruned);
      && out.world.clients == w.clients
      && Valid(out.world.store)
      && (out.result.Ok? ==>
            && |pruned| <= |out.result.value| && out.result.value[..|pruned|] == pruned
            && Logged(w.store, out.world.store, out.result.value[|pruned|..], stack, checksum))
    decreases |es|
  {
    if |es| == 0 {
      LoggedNothing(w.store, stack, checksum);
    } else if EndsWith(es[0].entityType, "_review") {
      PruneEntitiesLog(configs, d, w, host, stack, checksum, gv, c, es[1..], pruned);
    } else {
      PruneEntitiesStep(configs, d, w, host, stack, checksum, gv, c, es, pruned);
      var coll := es[0].resourceName;
      if GetEntitiesSpec(d, w.store, c, coll, stack).Ok? {
        var objs := w.store.objects;
        var stale := StaleOnes(ListSpec(objs, c, coll, stack), checksum);
        var ents := StaleEntries(objs, c, coll, stack, checksum);
        StaleEntriesListed(objs, c, coll, stack, checksum);
        StaleEntriesUnique(objs, c, coll, stack, checksum);
        PruneObjectsLog(configs, d, w, host, gv, c, stack, checksum, ents, stale, pruned);
        PruneObjectsAppends(configs, d, w, host, gv, stale, pruned);
        var p := PruneObjects(configs, d, w, host, gv, stale, pruned);
        if p.result.Ok? {
          var mid := p.result.value;
          PruneEntitiesLog(configs, d, p.world, host, stack, checksum, gv, c, es[1..], mid);
          var out := PruneEntities(configs, d, p.world, host, stack, checksum, gv, c, es[1..], mid);
          if out.result.Ok? {
            AppendParts(pruned, WithVersion(stale, gv));
            PrefixChain(pruned, mid, out.result.value);
            LoggedTrans(w.store, p.world.store, out.world.store, WithVersion(stale, gv), out.result.value[|mid|..], stack, checksum);
          }
        }
      }
    }
  }

  /** Every reported group in turn: `PruneEntitiesLog` over the groups. */
  lemma {:induction false} PruneGroupsLog(configs: map<string, string>, d: Discovery, w: World, host: string,
                                          stack: string, checksum: string, gvs: seq<string>, pruned: seq<Resource>)
    requires Valid(w.store) && CacheValid(w.clients)
    requires forall gv :: gv in gvs ==> GroupVersionForm(gv)
    requires NoRecurrence(w.store.objects, gvs)
    ensures var out := PruneGroups(configs, d, w, host, stack, checksum, gvs, pruned);
      out.result.Ok? ==>
        && |pruned| <= |out.result.value| && out.result.value[..|pruned|] == pruned
        && Logged(w.store, out.world.store, out.result.value[|pruned|..], stack, checksum)
    decreases |gvs|
  {
    if |gvs| == 0 {
      LoggedNothing(w.store, stack, checksum);
    } else {
      PruneGroupsStep(configs, d, w, host, stack, checksum, gvs, pruned);
      var gv := gvs[0];
      assert gv in gvs;
      var conn := Connect(configs, w.clients, host, gv);
      if conn.result.Ok? && Entities(d, conn.result.value).Ok? {
        var c := conn.result.value;
        assert c == MakeClient(c.endpoint, gv);
        var es := Entities(d, c).value;
        var w1 := w.(clients := conn.clients);
        assert NoRecurrence(w1.store.objects, [gv]);
        PruneEntitiesLog(configs, d, w1, host, stack, checksum, gv, c, es, pruned);
        var p := PruneEntities(configs, d, w1, host, stack, checksum, gv, c, es, pruned);
        if p.result.Ok? {
          var mid := p.result.value;
          assert forall g :: g in gvs[1..] ==> g in gvs;
          assert NoRecurrence(p.world.store.objects, gvs[1..]);
          PruneGroupsLog(configs, d, p.world, host, stack, checksum, gvs[1..], mid);
          var out := PruneGroups(configs, d, p.world, host, stack, checksum, gvs[1..], mid);
          if out.result.Ok? {
            PrefixChain(pruned, mid, out.result.value);
            LoggedTrans(w.store, p.world.store, out.world.store, mid[|pruned|..], out.result.value[|mid|..], stack, checksum);
          }
        }
      }
    }
  }

  /**
   * `Logged`, spelled out against the deletion log: the i-th entry reports the object the
   * (n+i)-th deletion names, and, keys being unique, every object that went is the object an
   * entry reports, at the position of its deletion.
   */
  lemma LoggedSpelled(before: Store, after: Store, rs: seq<Resource>, stack: string, checksum: string)
    requires Logged(before, after, rs, stack, checksum) && UniqueKeys(before.objects)
    ensures var n := |before.deletions|;
      && |after.deletions| == n + |rs|
      && after.deletions[..n] == before.deletions
      && (forall i :: 0 <= i < |rs| ==> Reports(rs[i], after.deletions[n + i].key, before.objects, stack, checksum))
      && (forall e :: e in before.objects && e !in after.objects ==>
            exists i :: 0 <= i < |rs| && after.deletions[n + i].key == e.key
              && rs[i] == Served(Probe(rs[i].apiVersion), e).(apiVersion := rs[i].apiVersion))
  {
    var n := |before.deletions|;
    var f := Fresh(before, after);
    assert forall i :: 0 <= i < |rs| ==> after.deletions[n + i] == f[i];
    forall e | e in before.objects && e !in after.objects
      ensures exists i :: 0 <= i < |rs| && after.deletions[n + i].key == e.key
                && rs[i] == Served(Probe(rs[i].apiVersion), e).(apiVersion := rs[i].apiVersion)
    {
      var i :| 0 <= i < |rs| && f[i].key == e.key;
      var e' :| e' in before.objects && e'.key == f[i].key && Doomed(e', stack, checksum) && e'.key.api == ApiPath(Probe(rs[i].apiVersion))
                && rs[i] == Served(Probe(rs[i].apiVersion), e').(apiVersion := rs[i].apiVersion);
      SameKey(before.objects, e, e');
      assert after.deletions[n + i] == f[i];
    }
  }

  /**
   * What `prune_stack` returns: every entry is an object that was deleted, a stale object of
   * the stack, reported with its group's preferred version and the selfLink it was listed
   * with. The entries match the deletions logged one for one and in order: the i-th entry
   * reports the object, in the group its apiVersion names, whose key the i-th new deletion
   * carries; and every object that went is one of the entries.
   */
  lemma PrunedAreDeleted(configs: map<string, string>, d: Discovery, w: World, host: string, stack: string, checksum: string)
    requires Valid(w.store) && CacheValid(w.clients)
    requires forall gv :: gv in d.groups ==> GroupVersionForm(gv)
    requires NoRecurrence(w.store.objects, d.groups)
    ensures var out := PruneStackSpec(configs, d, w, host, stack, checksum);
      out.result.Ok? ==> forall p :: p in out.result.value ==>
        && p.apiVersion in d.groups
        && Labelled(p, stack) && Stale(p, checksum)
        && PrunedFrom(p, w.store.objects, out.world.store.objects, stack, checksum)
    ensures var out := PruneStackSpec(configs, d, w, host, stack, checksum);
      var n := |w.store.deletions|;
      out.result.Ok? ==>
        && |out.world.store.deletions| == n + |out.result.value|
        && out.world.store.deletions[..n] == w.store.deletions
        && (forall i :: 0 <= i < |out.result.value| ==>
              Reports(out.result.value[i], out.world.store.deletions[n + i].key, w.store.objects, stack, checksum))
        && (forall e :: e in w.store.objects && e !in out.world.store.objects ==>
              exists i :: 0 <= i < |out.result.value| && out.world.store.deletions[n + i].key == e.key
                && out.result.value[i] == Served(Probe(out.result.value[i].apiVersion), e).(apiVersion := out.result.value[i].apiVersion))
  {
    PruneStackReported(configs, d, w, host, stack, checksum);
    PruneStackLog(configs, d, w, host, stack, checksum);
    var out := PruneStackSpec(configs, d, w, host, stack, checksum);
    if out.result.Ok? {
      LoggedSpelled(w.store, out.world.store, out.result.value, stack, checksum);
    }
  }

  lemma PruneStackReported(configs: map<string, string>, d: Discovery, w: World, host: string, stack: string, checksum: string)
    requires Valid(w.store) && CacheValid(w.clients)
    requires forall gv :: gv in d.groups ==> GroupVersionForm(gv)
    requires NoRecurrence(w.store.objects, d.groups)
    ensures var out := PruneStackSpec(configs, d, w, host, stack, checksum);
      out.result.Ok? ==> forall p :: p in out.result.value ==>
        && p.apiVersion in d.groups
        && Labelled(p, stack) && Stale(p, checksum)
        && PrunedFrom(p, w.store.objects, out.world.store.objects, stack, checksum)
  {
    var conn := Connect(configs, w.clients, host, "");
    if conn.result.Ok? {
      PruneGroupsExact(configs, d, w.(clients := conn.clients), host, stack, checksum, d.groups, []);
      var out := PruneStackSpec(configs, d, w, host, stack, checksum);
      if out.result.Ok? {
        forall p | p in out.result.value ensures Labelled(p, stack) && Stale(p, checksum) {
          var e :| e in w.store.objects && e !in out.world.store.objects && Doomed(e, stack, checksum)
                   && p == Served(Probe(p.apiVersion), e).(apiVersion := p.apiVersion);
        }
      }
    }
  }

  lemma PruneStackLog(configs: map<string, string>, d: Discovery, w: World, host: string, stack: string, checksum: string)
    requires Valid(w.store) && CacheValid(w.clients)
    requires forall gv :: gv in d.groups ==> GroupVersionForm(gv)
    requires NoRecurrence(w.store.objects, d.groups)
    ensures var out := PruneStackSpec(configs, d, w, host, stack, checksum);
      out.result.Ok? ==> Logged(w.store, out.world.store, out.result.value, stack, checksum)
  {
    var conn := Connect(configs, w.clients, host, "");
    if conn.result.Ok? {
      PruneGroupsLog(configs, d, w.(clients := conn.clients), host, stack, checksum, d.groups, []);
      var out := PruneStackSpec(configs, d, w, host, stack, checksum);
      if out.result.Ok? {
        assert out.result.value[0..] == out.result.value;
      }
    }
  }
}
