/** The part of a Kubernetes cluster that the controller reads and writes: objects with labels,
    annotations and (for deployments) a replica count, changed only by JSON merge patches. */
module Clusters {
  import opened Options
  import opened Decimal

  /** Label and annotation keys. The named ones are those the controller uses; the text of each
      stands beside it. Every other key is `Other`. */
  datatype Tag =
    | Idled              // idling.amazee.io/idled
    | Watch              // idling.amazee.io/watch
    | ForceIdled         // idling.amazee.io/force-idled
    | ForceScaled        // idling.amazee.io/force-scaled
    | UnidleNow          // idling.amazee.io/unidle
    | IdledAt            // idling.amazee.io/idled-at
    | UnidleReplicas     // idling.amazee.io/unidle-replicas
    | PodInterval        // idling.amazee.io/pod-interval
    | PrometheusInterval // idling.amazee.io/prometheus-interval
    | IpBlockList        // idling.amazee.io/ip-block-list
    | IpAllowList        // idling.amazee.io/ip-allow-list
    | BlockedAgents      // idling.amazee.io/blocked-agents
    | AllowedAgents      // idling.amazee.io/allowed-agents
    | DisableVerification // idling.amazee.io/disable-request-verification
    | HttpErrors         // nginx.ingress.kubernetes.io/custom-http-errors
    | Middlewares        // traefik.ingress.kubernetes.io/router.middlewares
    | Other(text: string)

  type Tags = map<Tag, string>

  /** `v, ok := m[k]; ok && v == value`. */
  predicate Has(m: Tags, key: Tag, value: string) {
    key in m && m[key] == value
  }

  /** Only deployments use `replicas` (spec.replicas, assumed non-nil); elsewhere it is 0. */
  datatype Object = Object(labels: Tags, annotations: Tags, replicas: int)

  /** The objects of one namespace: its deployments, its ingresses and the namespace itself. */
  datatype Key = Dep(name: string) | Ing(name: string) | Ns

  type Space = map<Key, Object>

  // ---------------------------------------------------------------- merge patches

  /** A merge patch for one string map: None is JSON null. */
  type TagPatch = map<Tag, Option<string>>

  datatype Patch = Patch(labels: TagPatch, annotations: TagPatch, replicas: Option<int>)

  /** Section 2 of RFC 7396: null deletes a member, another value replaces it, absent members stay. */
  function Merge(m: Tags, p: TagPatch): (r: Tags)
    ensures forall t :: t in p && p[t].Some? ==> t in r && r[t] == p[t].value
    ensures forall t :: t in p && p[t].None? ==> t !in r
    ensures forall t :: t !in p ==> Get(r, t) == Get(m, t)
  {
    map t | t in m.Keys + p.Keys && (t in p ==> p[t].Some?) :: if t in p then p[t].value else m[t]
  }

  function Apply(p: Patch, o: Object): Object {
    Object(Merge(o.labels, p.labels), Merge(o.annotations, p.annotations), p.replicas.GetOr(o.replicas))
  }

  /** The API server stores replicas as a non-negative int32 and rejects anything else. */
  predicate Accepted(p: Patch) {
    p.replicas.Some? ==> 0 <= p.replicas.value <= MAX_INT32
  }

  /** Two maps with the same lookups are equal. */
  lemma SameTags(a: Tags, b: Tags)
    requires forall t :: Get(a, t) == Get(b, t)
    ensures a == b
  {
    forall t
      ensures t in a <==> t in b
      ensures t in a ==> a[t] == b[t]
    {
      assert Get(a, t) == Get(b, t);
    }
  }

  lemma MergeTwice(m: Tags, p: TagPatch)
    ensures Merge(Merge(m, p), p) == Merge(m, p)
  {
    forall t
      ensures Get(Merge(Merge(m, p), p), t) == Get(Merge(m, p), t)
    {
      if t !in p {
        assert Get(Merge(Merge(m, p), p), t) == Get(Merge(m, p), t);
      }
    }
    SameTags(Merge(Merge(m, p), p), Merge(m, p));
  }

  /** Every merge patch is idempotent. */
  lemma ApplyTwice(p: Patch, o: Object)
    ensures Apply(p, Apply(p, o)) == Apply(p, o)
  {
    MergeTwice(o.labels, p.labels);
    MergeTwice(o.annotations, p.annotations);
  }

  // ---------------------------------------------------------------- label selectors

  datatype Operator = Equals | NotEquals | In | NotIn | Exists | DoesNotExist

  /** A label requirement built from the selectors file (internal/handlers/idler/helpers.go:9-21). */
  datatype Requirement = Requirement(key: Tag, op: Operator, values: seq<string>) {
    predicate Matches(labels: Tags) {
      match op
      case Equals | In => key in labels && labels[key] in values
      case NotEquals | NotIn => key !in labels || labels[key] !in values
      case Exists => key in labels
      case DoesNotExist => key !in labels
    }
  }

  /** The operators in terms of each other; In asks for one of the values, as labels are set. */
  lemma Operators(key: Tag, values: seq<string>, labels: Tags, v: string)
    ensures Requirement(key, NotIn, values).Matches(labels) <==> !Requirement(key, In, values).Matches(labels)
    ensures Requirement(key, NotEquals, values).Matches(labels) <==> !Requirement(key, Equals, values).Matches(labels)
    ensures Requirement(key, DoesNotExist, values).Matches(labels)
            <==> !Requirement(key, Exists, values).Matches(labels)
    ensures Requirement(key, Equals, values).Matches(labels) <==> Requirement(key, In, values).Matches(labels)
    ensures Requirement(key, In, values).Matches(labels[key := v]) <==> v in values
    ensures Requirement(key, Exists, values).Matches(labels[key := v])
    ensures key !in labels ==>
            !Requirement(key, In, values).Matches(labels) && !Requirement(key, Exists, values).Matches(labels)
  {
  }

  predicate MatchesAll(selector: seq<Requirement>, labels: Tags) {
    forall r :: r in selector ==> r.Matches(labels)
  }

  /** True of resources/selectors.yaml: no selector reads a key that the controller writes. */
  predicate Independent(selector: seq<Requirement>) {
    forall r :: r in selector ==> r.key.Other?
  }

  // ---------------------------------------------------------------- listing

  datatype Filter = Watched | Scaled | Deployments(selector: seq<Requirement>)
    | Ingresses(selector: seq<Requirement>) | AllIngresses
  {
    predicate Selects(key: Key, o: Object) {
      match this
      case Watched => key.Dep? && Has(o.labels, Watch, "true")
      case Scaled => key.Dep? && Has(o.labels, ForceScaled, "true")
      case Deployments(selector) => key.Dep? && MatchesAll(selector, o.labels)
      case Ingresses(selector) => key.Ing? && MatchesAll(selector, o.labels)
      case AllIngresses => key.Ing?
    }
  }

  /** A listing order of a namespace's objects: each of them once. */
  ghost predicate Enumerates(order: seq<Key>, space: Space) {
    NoDuplicates(order) && forall k :: k in order <==> k in space
  }

  /** List: the selected objects, in the given order. */
  function Select(space: Space, order: seq<Key>, f: Filter): (keys: seq<Key>)
    ensures forall k :: k in keys <==> k in order && k in space && f.Selects(k, space[k])
  {
    if order == [] then []
    else
      var rest := Select(space, order[1..], f);
      if order[0] in space && f.Selects(order[0], space[order[0]]) then [order[0]] + rest else rest
  }

  lemma {:induction false} SelectDistinct(space: Space, order: seq<Key>, f: Filter)
    requires NoDuplicates(order)
    ensures NoDuplicates(Select(space, order, f))
  {
    if order != [] {
      assert NoDuplicates(order[1..]) by {
        assert forall i :: 0 <= i < |order[1..]| ==> order[1..][i] == order[i + 1];
      }
      SelectDistinct(space, order[1..], f);
      forall k | k in order[1..]
        ensures k != order[0]
      {
        var i :| 0 <= i < |order[1..]| && order[1..][i] == k;
        assert order[i + 1] == k;
      }
    }
  }

  // ---------------------------------------------------------------- the shared cluster

  /** Replacing one namespace: the last replacement wins, and a replacement by itself changes nothing. */
  lemma Replaced(spaces: map<string, Space>, name: string, a: Space, b: Space)
    ensures spaces[name := a][name := b] == spaces[name := b]
    ensures name in spaces ==> spaces[name := spaces[name]] == spaces
  {
  }

  /** Whether a Patch call takes effect. `fault` stands for every failure outside the controller. */
  predicate Lands(spaces: map<string, Space>, namespace: string, key: Key, p: Patch, fault: bool) {
    !fault && Accepted(p) && namespace in spaces && key in spaces[namespace]
  }

  /** The cluster after a Patch call. */
  function Sent(spaces: map<string, Space>, namespace: string, key: Key, p: Patch, fault: bool): map<string, Space> {
    if Lands(spaces, namespace, key, p, fault)
    then spaces[namespace := spaces[namespace][key := Apply(p, spaces[namespace][key])]]
    else spaces
  }

  class Cluster {
    var spaces: map<string, Space>

    constructor (spaces: map<string, Space>)
      ensures this.spaces == spaces
    {
      this.spaces := spaces;
    }

    method PatchObject(namespace: string, key: Key, p: Patch, fault: bool) returns (ok: bool)
      modifies this
      ensures ok == Lands(old(spaces), namespace, key, p, fault)
      ensures spaces == Sent(old(spaces), namespace, key, p, fault)
    {
      ok := !fault && Accepted(p) && namespace in spaces && key in spaces[namespace];
      if ok {
        spaces := spaces[namespace := spaces[namespace][key := Apply(p, spaces[namespace][key])]];
      }
    }
  }
}
