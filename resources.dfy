/**
 * API objects as the reconciler sees them: a kind-agnostic envelope (apiVersion, kind,
 * metadata) around an opaque payload, the stack label and checksum annotation that
 * mark stack membership, and the errors the API calls can end with.
 */
module Resources {
  import opened Wrappers

  const ResourceLabel := "pharos.kontena.io/stack"
  const ResourceAnnotation := "pharos.kontena.io/stack-checksum"

  /** `namespace` is "" for a cluster-scoped object; `labels`/`annotations` are absent (nil) or a map. */
  datatype Metadata = Metadata(
    name: string,
    namespace: string,
    labels: Option<map<string, string>>,
    annotations: Option<map<string, string>>,
    selfLink: Option<string>)

  datatype Resource = Resource(apiVersion: string, kind: string, metadata: Metadata, payload: string)

  /**
   * NotFound is Kubeclient::ResourceNotFoundError; RestNotFound is the 404 that RestClient
   * raises itself on a request made through `rest_client` directly, which Kubeclient does not
   * translate; NotAllowed is the answer for a collection the server does not list; Conflict,
   * Forbidden and Invalid are the other HTTP errors; NoEntity is calling a method on the nil a
   * missing entity lookup yields; NoConfig is a missing credentials file; Unparsable a
   * manifest that is not a resource.
   */
  datatype ApiError =
    | NotFound | RestNotFound | NotAllowed | Conflict | Forbidden | Invalid
    | NoEntity(kind: string) | NoConfig(host: string) | Unparsable(file: string)

  /** The object carries the stack label with value `stack` (the label selector `label=stack`). */
  predicate Labelled(r: Resource, stack: string)
  {
    r.metadata.labels.Some? && ResourceLabel in r.metadata.labels.value && r.metadata.labels.value[ResourceLabel] == stack
  }

  /** Annotations nil, or the checksum annotation missing or different from `checksum`. */
  predicate Stale(r: Resource, checksum: string)
  {
    r.metadata.annotations.None?
    || ResourceAnnotation !in r.metadata.annotations.value
    || r.metadata.annotations.value[ResourceAnnotation] != checksum
  }

  /** `labels ||= {}`, `annotations ||= {}`, then the stack label and the run's checksum written in. */
  function Stamp(r: Resource, stack: string, checksum: string): (s: Resource)
    ensures s.apiVersion == r.apiVersion && s.kind == r.kind && s.payload == r.payload
    ensures s.metadata.name == r.metadata.name && s.metadata.namespace == r.metadata.namespace
    ensures s.metadata.selfLink == r.metadata.selfLink
    ensures s.metadata.labels.Some? && s.metadata.annotations.Some?
    ensures s.metadata.labels.value.Keys == GetOr(r.metadata.labels, map[]).Keys + {ResourceLabel}
    ensures s.metadata.annotations.value.Keys == GetOr(r.metadata.annotations, map[]).Keys + {ResourceAnnotation}
    ensures s.metadata.labels.value[ResourceLabel] == stack
    ensures s.metadata.annotations.value[ResourceAnnotation] == checksum
    ensures forall k :: k in GetOr(r.metadata.labels, map[]) && k != ResourceLabel ==>
      s.metadata.labels.value[k] == GetOr(r.metadata.labels, map[])[k]
    ensures forall k :: k in GetOr(r.metadata.annotations, map[]) && k != ResourceAnnotation ==>
      s.metadata.annotations.value[k] == GetOr(r.metadata.annotations, map[])[k]
  {
    var labels := GetOr(r.metadata.labels, map[]);
    var annotations := GetOr(r.metadata.annotations, map[]);
    r.(metadata := r.metadata.(
      labels := Some(labels[ResourceLabel := stack]),
      annotations := Some(annotations[ResourceAnnotation := checksum])))
  }

  /** A stamped resource belongs to its stack and is current for the run that stamped it, and for no other. */
  lemma StampedIsCurrent(r: Resource, stack: string, checksum: string, other: string)
    ensures Labelled(Stamp(r, stack, checksum), stack)
    ensures !Stale(Stamp(r, stack, checksum), checksum)
    ensures other != checksum ==> Stale(Stamp(r, stack, checksum), other)
  {
  }
}
