# pharos-cluster: stack reconciliation and the version gate, in Dafny

This project models two parts of pharos-cluster.

**`Pharos::Kube` (lib/pharos/kube.rb).** This is the stack reconciler:
- `client` keeps a process-wide cache of API clients keyed by version string.
- `resource_files` puts a stack's manifests in text order.
- `apply_stack` stamps each manifest with the stack label and the run's checksum annotation, upserts it with `apply_resource`, and then calls `prune_stack`.
- `prune_stack` walks every API group and every non-`*_review` entity type, lists the objects carrying the stack label, and deletes every one whose checksum is missing or stale.
- `delete_resource` deletes either at the object's selfLink, rewritten with `gsub`, or through the entity API with foreground cascading. NotFound becomes `false`.

**The upgrade gate of the ValidateVersion phase**, as its nine examples in spec/pharos/phases/validate_version_spec.rb fix it. It uses Semantic Versioning 2.0.0 versions: a parser, a printer that the parser inverts, and the precedence order of section 11 of that standard.

Layout:
- `wrappers.dfy`: Option, Result, one sequence lemma.
- `strings.dfy`: Ruby's `split`, `gsub(pattern, '')`, `end_with?` and byte-wise `<=>`, over `seq<char>`.
- `semver.dfy` and `validate_version.dfy`: the version gate.
- `resources.dfy`: the object envelope, stack label and checksum annotation, and error kinds.
- `kube_client.dfy`: `client`.
- `api_server.dfy`: an in-memory API server that stands in for the Kubeclient calls.
  - `class Server` holds the stored objects and the deletion log.
  - A function per call says what the call does to that state.
- `kube.dfy`: the reconciler.
  - A function per operation says what the operation returns and which world (client cache plus server store) it leaves.
  - `class Kube` holds the configs, the cache and the server, and runs the Ruby loops with `while`. Each of its methods is proved to end exactly in the result and state its function gives.
- `kube_props.dfy`, `prune_props.dfy` and `stack_props.dfy`: the properties of `apply_resource` and `delete_resource`, of `prune_stack`, and of `apply_stack` as a whole.

## Model

| member | source | states |
|---|---|---|
| KubeClient.MakeClient | lib/pharos/kube.rb:20-27 | the prefix is `api` exactly when the version is "v1", and `apis` otherwise; the client keeps the config's endpoint |
| KubeClient.CoreClient | lib/pharos/kube.rb:20-24 | "v1" gives prefix `api`, no group and version "v1"; the client's URL is the endpoint followed by "/api/" |
| KubeClient.DiscoveryClient | lib/pharos/kube.rb:20-24 | "" (the discovery client of `prune_stack`) gives prefix `apis`, with no group and no version; the URL is the endpoint followed by "/apis/" |
| KubeClient.GroupClient | lib/pharos/kube.rb:21-24 | for "group/version" the group is the segment before the slash and the version the one after it; the URL is the endpoint followed by "/apis/" and the group |
| KubeClient.ServedBaseOfForm | lib/pharos/kube.rb:20-23 | a client made for a discovered group version addresses "/" + prefix + "/" + that group version |
| KubeClient.Connect | lib/pharos/kube.rb:16-30 | succeeds iff the version is cached or the host has a config; the config is read iff the version is not cached; cached clients are kept; the new client is cached under its version; a missing config is NoConfig(host) |
| KubeClient.CacheKeyedByVersion | lib/pharos/kube.rb:17-29 | once a version is cached, asking again with any host returns the same client, reads no config and leaves the cache as it is |
| Kube.Kube.ClientFor | lib/pharos/kube.rb:16-30 | the method updates the cache field and returns exactly what `Connect` gives |
| Kube.Kube.constructor | lib/pharos/kube.rb:17 | the cache starts empty |
| Resources.Stamp | lib/pharos/kube.rb:63-66 | the stack label and checksum annotation are set; every other label and annotation keeps its key and value; nil maps become maps; nothing else in the object changes |
| Resources.StampedIsCurrent | lib/pharos/kube.rb:63-66 | a stamped object is labelled with its stack, not stale for its own checksum, and stale for every other checksum |
| Kube.ResourceFiles | lib/pharos/kube.rb:50-52 | the result is sorted by `String#<=>` and is a permutation of the paths |
| KubeProperties.SortedUnique | lib/pharos/kube.rb:51 | two sorted orderings of the same paths are equal |
| KubeProperties.ResourceFilesDeterministic | lib/pharos/kube.rb:51 | the apply order depends only on the set of paths, not on the order the glob reports them in |
| Strings.TextLeTransitive | lib/pharos/kube.rb:51 | the byte-wise text order is transitive |
| Strings.TextLeTotal | lib/pharos/kube.rb:51 | the byte-wise text order is total |
| Strings.CompareText | lib/pharos/kube.rb:51 | byte-wise `String#<=>`; `TextLeTotal` and `TextLeTransitive` state that it orders all strings |
| Kube.Upsert | lib/pharos/kube.rb:105-109 | update first, create only after NotFound; a failure leaves the store as it was; nothing is deleted; key uniqueness is kept |
| KubeProperties.UpsertStores | lib/pharos/kube.rb:105-109 | never Conflict; on success the object is stored under its key, other keys are untouched, and the store grows by one exactly when the key was absent |
| KubeProperties.ApplyUpserts | lib/pharos/kube.rb:102-110 | `apply_resource` never ends in Conflict; it leaves the cache as `client` does and deletes nothing; a failure changes nothing stored; success returns the object served under its key, which is stored there in place of what was there, or appended |
| KubeProperties.ApplyIdempotent | lib/pharos/kube.rb:102-110 | applying the same resource again right after a successful apply returns the same object and leaves the world unchanged |
| Kube.ApplyResourceSpec | lib/pharos/kube.rb:102-110 | `apply_resource` over the world: the client comes from the cache as `client` gives it, then `Upsert` runs on the server; it has no contract of its own, and `ApplyUpserts` and `ApplyIdempotent` state what it does |
| ApiServer.UpdateSpec | lib/pharos/kube.rb:106 | `update_resource` at the server: a failure changes nothing; it never deletes and never changes the number of stored objects; key uniqueness is kept |
| ApiServer.CreateSpec | lib/pharos/kube.rb:108 | `create_resource` at the server: a failure changes nothing; it never deletes; key uniqueness is kept |
| Kube.Kube.ApplyResource | lib/pharos/kube.rb:102-110 | the method's result and new state are those of `ApplyResourceSpec` |
| Strings.FieldsJoin | lib/pharos/kube.rb:143 | `split` fields contain no separator, and joining them gives the string back |
| Strings.SecondFieldOfLink | lib/pharos/kube.rb:143 | `split("/")[1]` of "/seg/rest" is `seg` when `seg` has no slash |
| Strings.Split | lib/pharos/kube.rb:143 | `split(sep)`: no field holds the separator, the last field is not empty, and the fields are those of `split(sep, -1)` with only empty fields dropped from the end |
| Strings.DeleteAll | lib/pharos/kube.rb:144 | `gsub(p, '')` never lengthens the text, and an occurrence at the start is removed |
| Strings.DeleteAllPrefix | lib/pharos/kube.rb:144 | `gsub(p, '')` of p + rest is `rest` when `p` does not occur in `rest` |
| KubeProperties.LinkRewrite | lib/pharos/kube.rb:142-145 | a selfLink "/seg/apiVersion" + rest is deleted at `rest` when the pattern does not recur in `rest` |
| Kube.LinkPath | lib/pharos/kube.rb:143-144 | the path the selfLink is rewritten to; `LinkRewrite` states that it is the object's relative path when the pattern does not recur |
| Kube.DeleteByEntity | lib/pharos/kube.rb:147-154 | a failure leaves the store alone; success appends exactly one deletion with the Foreground policy |
| Kube.DeleteByLink | lib/pharos/kube.rb:142-145 | a failure leaves the store alone; success appends exactly one deletion with the server's default policy |
| KubeProperties.DeleteOutcomes | lib/pharos/kube.rb:139-159 | `delete_resource` never raises Kubeclient's NotFound; `false` comes only from the entity path, and RestClient's own 404 only from the selfLink path, which the rescue does not catch; `false` and every error leave the store as it was; `true` means one deletion was made, foreground exactly when there is no selfLink; the cache changes as `client` does |
| KubeProperties.LinkDeleteOfMissingFails | lib/pharos/kube.rb:142-157 | a delete at a selfLink when nothing is stored raises RestClient's 404 (or Forbidden); it does not return `false` |
| Kube.DeleteResourceSpec | lib/pharos/kube.rb:139-159 | `delete_resource` over the world; it has no contract of its own, and `DeleteOutcomes`, `LinkDeleteOfMissingFails` and `DeleteByEntityTarget` state what it does |
| KubeProperties.DeleteByEntityTarget | lib/pharos/kube.rb:147-154 | without a selfLink, `true` means the object named by the kind's entity, namespace and name existed, is gone, and nothing else was removed |
| Kube.Kube.DeleteResource | lib/pharos/kube.rb:139-159 | the method's result and new state are those of `DeleteResourceSpec` |
| ApiServer.DeleteKey | lib/pharos/kube.rb:145-154 | NotFound iff no object has the key and the key is not forbidden; success logs one deletion and removes exactly that key's object; nothing else is removed |
| ApiServer.DeleteEntitySpec | lib/pharos/kube.rb:149-154 | `delete_entity`: NotFound iff no object has the named key and the key is not forbidden; the only other error is Forbidden; an error changes nothing; success logs one deletion of that key with the given policy; objects under other keys stay |
| ApiServer.DeletePathSpec | lib/pharos/kube.rb:145 | `rest_client[path].delete`: never Kubeclient's NotFound; its errors are RestClient's 404 or Forbidden and change nothing; a path the server cannot resolve is the 404; success logs one deletion, with the default policy, of the key the path names |
| ApiServer.ParseRelPath | lib/pharos/kube.rb:144-145 | the server resolves an object's relative path back to its namespace, collection and name |
| ApiServer.ListSpec | lib/pharos/kube.rb:85 | the listing holds exactly the labelled objects of the collection in the client's group, each served with its selfLink |
| ApiServer.GetSpec | lib/pharos/kube.rb:148 | NotFound iff no object has the key |
| ApiServer.Server.Update | lib/pharos/kube.rb:106 | the server's new state and reply are those of `UpdateSpec` |
| ApiServer.Server.Create | lib/pharos/kube.rb:108 | the server's new state and reply are those of `CreateSpec` |
| ApiServer.Server.DeletePath | lib/pharos/kube.rb:145 | the server's new state and reply are those of `DeletePathSpec` |
| ApiServer.Server.DeleteEntity | lib/pharos/kube.rb:149-154 | the server's new state and reply are those of `DeleteEntitySpec` |
| ApiServer.GetEntitiesSpec | lib/pharos/kube.rb:85 | `get_entities` fails, with NotAllowed, exactly for a collection the server refuses to list; otherwise it returns `ListSpec` |
| ApiServer.Entities | lib/pharos/kube.rb:83 | `entities` succeeds exactly when the server reports the client's group version, and then returns what it reports; otherwise NotFound |
| ApiServer.Server.constructor | lib/pharos/kube.rb:81 | the server starts with the given objects and no deletions |
| Kube.StaleOnes | lib/pharos/kube.rb:86-87 | keeps exactly the listed objects whose annotations are nil or whose checksum annotation is missing or different |
| Kube.PruneObjects | lib/pharos/kube.rb:86-92 | the innermost loop over stale objects; it has no contract of its own, and `PruneObjectsAppends`, `PruneObjectsExact` and `PruneObjectsLog` state what it does |
| Kube.PruneEntities | lib/pharos/kube.rb:83-93 | the loop over one group's entity types; `PruneEntitiesExact` and `PruneEntitiesLog` state what it does |
| Kube.PruneGroups | lib/pharos/kube.rb:81-94 | the loop over the reported groups; `PruneGroupsExact` and `PruneGroupsLog` state what it does |
| Kube.PruneStackSpec | lib/pharos/kube.rb:79-97 | `prune_stack` over the world; `PruneStackExact` and `PrunedAreDeleted` state what it does |
| PruneProperties.PruneObjectsAppends | lib/pharos/kube.rb:88-92 | a successful inner loop appends every stale object, in listing order, with `apiVersion` set to the group's preferred version |
| PruneProperties.PruneObjectsExact | lib/pharos/kube.rb:88-92 | the inner loop keeps every object that is not a stale stack object of the listed collection; after success, every listed stale object is gone |
| PruneProperties.PruneEntitiesExact | lib/pharos/kube.rb:83-93 | one group: the store only shrinks; an object survives unless it is a stale stack object of the group in a collection served by an entity type not ending in `_review`; after success none of those remain; every object added to `pruned` was deleted and is reported with the group's version |
| PruneProperties.PruneGroupsExact | lib/pharos/kube.rb:81-94 | the same over the reported groups, in order |
| PruneProperties.PruneStackExact | lib/pharos/kube.rb:79-97 | `prune_stack` only removes objects; it keeps every object that carries the run's checksum, lacks the stack label, or is not reached through a reported group and a non-review entity type; after success no reached stale stack object remains |
| PruneProperties.PrunedAreDeleted | lib/pharos/kube.rb:79-97 | every object `prune_stack` returns was deleted by it, carries the stack label and a stale checksum, and is reported with its group's preferred version; the result matches the new deletions one for one and in order, the i-th entry reporting the object, in the group its apiVersion names, that the i-th new deletion removed; every object that went is in the result |
| PruneProperties.StaleEntriesListed | lib/pharos/kube.rb:85-87 | the stale listing of a collection is its stored stale stack objects, each served with its selfLink, one for one and in order |
| PruneProperties.StaleEntriesUnique | lib/pharos/kube.rb:85-87 | over a store with distinct keys, the stale objects listed have distinct keys |
| PruneProperties.DeleteFirstLogged | lib/pharos/kube.rb:89-91 | deleting the first listed stale object keeps the cache; a failure keeps the store; success logs exactly that object's deletion and leaves the rest a stale listing |
| PruneProperties.LoggedTrans | lib/pharos/kube.rb:88-92 | two stretches of logged deletions in a row, each reported in order, make one |
| PruneProperties.PruneObjectsLog | lib/pharos/kube.rb:86-92 | after success the inner loop logged one deletion per stale object, in order, each of that object |
| PruneProperties.PruneEntitiesLog | lib/pharos/kube.rb:83-93 | after success one group's loops kept `pruned` as a prefix and logged one deletion per object they appended, in order |
| PruneProperties.PruneGroupsLog | lib/pharos/kube.rb:81-94 | the same over the reported groups |
| PruneProperties.PruneStackLog | lib/pharos/kube.rb:79-97 | a successful `prune_stack` logged exactly one deletion per returned object, in order |
| PruneProperties.LoggedSpelled | lib/pharos/kube.rb:89-91 | over distinct keys, the logged deletions spelled out by position: the i-th returned object reports the i-th new deletion, and every object that went is returned at the position of its deletion |

| Kube.Kube.PruneObjectsLoop | lib/pharos/kube.rb:86-92 | the loop's result and new state are those of `PruneObjects` |
| Kube.Kube.PruneEntitiesLoop | lib/pharos/kube.rb:83-93 | the loop's result and new state are those of `PruneEntities` |
| Kube.Kube.PruneStack | lib/pharos/kube.rb:79-97 | the method's result and new state are those of `PruneStackSpec` |
| KubeProperties.ApplyFilesStamps | lib/pharos/kube.rb:61-69 | a successful loop parsed every file and returns what it had, followed by each file's resource stamped, in file order |
| KubeProperties.ApplyFilesDeletesNothing | lib/pharos/kube.rb:61-69 | the apply loop deletes nothing and keeps key uniqueness |
| KubeProperties.ApplyStackStamps | lib/pharos/kube.rb:58-73 | a successful `apply_stack` returns one resource per file, in sorted file order; each is that file's resource stamped, labelled with the stack and current for the run |
| KubeProperties.ApplyStackPrunesAfterApplies | lib/pharos/kube.rb:67-72 | success means every apply succeeded, then the one prune succeeded; the result is the applied list and the world is the one the prune left |
| KubeProperties.ApplyFailureSkipsPrune | lib/pharos/kube.rb:61-70 | when an apply fails, `apply_stack` fails and nothing is deleted: prune never ran |
| KubeProperties.UnparsableFails | lib/pharos/kube.rb:62 | a file that does not parse makes `apply_stack` fail |
| Kube.ApplyFiles | lib/pharos/kube.rb:61-69 | the apply loop over the sorted files; `ApplyFilesStamps`, `ApplyFilesDeletesNothing` and `ApplyFilesCurrent` state what it does |
| Kube.ApplyStackSpec | lib/pharos/kube.rb:58-73 | `apply_stack` over the world; `ApplyStackStamps`, `ApplyStackPrunesAfterApplies` and `ApplyStackConverges` state what it does |
| StackProperties.KeyOfEndpointFree | lib/pharos/kube.rb:20-23 | the key a resource is written under depends on its apiVersion, not on the host's endpoint |
| StackProperties.UpsertedKeepsCurrent | lib/pharos/kube.rb:105-109 | upserting a current stack object keeps every key that held a current object holding one |
| StackProperties.ApplyOneCurrent | lib/pharos/kube.rb:63-67 | a successful apply of a stamped resource leaves its key holding a current object, and every key written before too |
| StackProperties.ApplyFilesCurrent | lib/pharos/kube.rb:61-69 | after a successful apply loop, every resource it applied has its key holding an object labelled with the stack and carrying the run's checksum |
| StackProperties.CurrentKept | lib/pharos/kube.rb:70 | keys holding current objects stay so across a step that keeps every object that is not a stale stack object |
| StackProperties.ApplyStackConverges | lib/pharos/kube.rb:58-73 | after a successful `apply_stack`, every key a manifest was written under holds an object labelled with the stack and carrying the run's checksum, and no stale stack object that prune reaches is left |
| Kube.Kube.ApplyStack | lib/pharos/kube.rb:58-73 | the method's result and new state are those of `ApplyStackSpec` |
| SemVer.ParseFormat | spec/pharos/phases/validate_version_spec.rb:19-62 | parsing the printed text of a well-formed version gives the version back |
| SemVer.NatTextRoundTrip | spec/pharos/phases/validate_version_spec.rb:19-62 | a number's decimal text is a valid numeric field and reads back as the number |
| SemVer.Parse | spec/pharos/phases/validate_version_spec.rb:19-62 | every version it reads is well-formed, the set on which `ParseFormat` shows that printing and parsing invert each other |
| SemVer.Compare | spec/pharos/phases/validate_version_spec.rb:39-57 | the precedence of section 11 of Semantic Versioning 2.0.0; `CompareAntisymmetric` and `CompareTransitive` state its order properties |
| SemVer.CompareAntisymmetric | spec/pharos/phases/validate_version_spec.rb:39-57 | precedence is antisymmetric, and two versions compare Same exactly when they are equal |
| SemVer.CompareTransitive | spec/pharos/phases/validate_version_spec.rb:39-57 | precedence is transitive |
| ValidateVersion.Validate | spec/pharos/phases/validate_version_spec.rb:18-63 | a pass either leaves the context as it was or sets the flag; a Downgrade carries both version strings |
| ValidateVersion.DowngradeExactly | spec/pharos/phases/validate_version_spec.rb:39-57 | a Downgrade happens exactly when the cluster's version has higher precedence; otherwise the check passes |
| ValidateVersion.ContextOnlyGainsFlag | spec/pharos/phases/validate_version_spec.rb:21 | a pass changes no key but the flag, and a flag already set stays set |
| ValidateVersion.ReUpIsNoOp | spec/pharos/phases/validate_version_spec.rb:19-27 | any version checked against itself passes and leaves the context alone |
| ValidateVersion.FlagOnlyAcrossLines | spec/pharos/phases/validate_version_spec.rb:29-37 | the flag is set only when the tool's MAJOR.MINOR line is ahead of the cluster's |
| ValidateVersion.ReUpStable | spec/pharos/phases/validate_version_spec.rb:19-22 | 1.3.3 against 1.3.3 passes and leaves the context alone |
| ValidateVersion.ReUpDevelopment | spec/pharos/phases/validate_version_spec.rb:24-27 | 2.0.0-alpha.1 against itself passes and leaves the context alone |
| ValidateVersion.PatchUpgrade | spec/pharos/phases/validate_version_spec.rb:29-32 | tool 2.0.1 against cluster 2.0.0 passes and leaves the context alone |
| ValidateVersion.PatchUpgradeToDevelopment | spec/pharos/phases/validate_version_spec.rb:34-37 | tool 2.0.1-alpha.1 against cluster 2.0.0 passes and leaves the context alone |
| ValidateVersion.DowngradeDevelopment | spec/pharos/phases/validate_version_spec.rb:39-42 | tool 2.0.0-alpha.1 against cluster 2.0.0-alpha.2 is a Downgrade |
| ValidateVersion.DowngradeStable | spec/pharos/phases/validate_version_spec.rb:44-47 | tool 1.3.3 against cluster 2.0.0 is a Downgrade |
| ValidateVersion.DowngradeStableToPrerelease | spec/pharos/phases/validate_version_spec.rb:49-52 | tool 2.0.0-alpha.1 against cluster 2.0.0 is a Downgrade |
| ValidateVersion.DowngradePrereleaseToStable | spec/pharos/phases/validate_version_spec.rb:54-57 | tool 2.0.0 against cluster 2.0.1-alpha.1 is a Downgrade |
| ValidateVersion.MinorUpgradeFlagged | spec/pharos/phases/validate_version_spec.rb:59-62 | tool 2.1.0 against cluster 2.0.0 passes and changes the flag: absent before, true after |

## Left out

- Credentials: the config file read at lib/pharos/kube.rb:19 becomes the map `configs` from host to API endpoint. TLS and auth options are not modelled. `config_exists?` (line 34-36) and `resource_path` (line 43-45) are file-system helpers and are not part of this model.
- The glob at line 51 becomes the input sequence of paths. YAML and ERB parsing in `parse_resource_file` (line 163-165) becomes the map `docs` from file to resource; a file not in the map does not parse. `Pharos::YamlFile` is not part of this model.
- The checksum, `SecureRandom.hex(16)` at line 59, is a parameter of `ApplyStack`.
- `create_resource`, `update_resource` and `get_resource` (lines 115-134) are one-call wrappers that the reconciler does not use.
- `underscore_entity` (lines 169-171) is a Kubeclient function. It is the uninterpreted field `entityKey` of the discovery data.
- The Kubeclient transport is replaced by one in-memory API server.
  - Foreground cascading is recorded as the deletion's policy; dependents are not deleted.
  - HTTP errors other than NotFound are the kinds Conflict, Forbidden, Invalid and NotAllowed; Forbidden comes from a fixed set of refused keys.
  - RestNotFound is the 404 that RestClient raises itself on the `rest_client[path].delete` request of line 145. The rescue at line 156 names only Kubeclient's error, so this one propagates.
  - Group discovery, `apis.groups` at line 81, always succeeds: the groups are a fixed list of the discovery data. Only a group's entity discovery (line 83) can fail.
  - Which collections refuse listing (line 85) is the fixed set `unlistable` of the discovery data. A refusal is NotAllowed and aborts `prune_stack`.
- The cache is not thread-safe, and concurrent runs are not modelled.
- Labels and annotations are written into the parsed object in place. The model gives back an updated copy; no other reference to the object exists in `apply_stack`.
- The client cache is keyed by the version string alone (line 18), so a client made for one host is returned for every other host; `CacheKeyedByVersion` states this.
- PruneProperties.PruneStackExact: assumes that no group's link pattern recurs inside an object's relative path (`NoRecurrence`). `gsub` removes every occurrence, so a recurring pattern makes the delete address another path.
- PruneProperties.PrunedAreDeleted: under the same assumption.
- PruneProperties.PruneStackExact: covers the objects prune can reach. An object under a group the server does not report, or under a `*_review` type, is stated to be kept.
- StackProperties.ApplyStackConverges: assumes `NoRecurrence` of the store the applies leave, as `PruneStackExact` does. It states convergence per key, not per object: two manifests with the same key overwrite each other, and the one that stays carries the same label and checksum.
- ValidateVersion.Validate: the implementation file lib/pharos/phases/validate_version.rb is not part of this model. The decision rule is this:
  - a cluster version of higher precedence is a Downgrade;
  - otherwise, a tool whose MAJOR.MINOR line is ahead sets the flag;
  - otherwise the check passes unchanged.
  Only the nine examples and structural facts are proved. Cases the examples leave open, such as a major bump with a lower minor, are not asserted.
- SemVer.Parse: parses Semantic Versioning 2.0.0 text. Build metadata is checked and dropped. Leading "v" prefixes and the looser forms other version libraries accept are not modelled.
