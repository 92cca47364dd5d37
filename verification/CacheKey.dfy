/** The identity of configured objects that both caches rely on. */
module CacheKeys {
  import opened Options

  /** The kinds that can be configured; `Unsupported` are those a newer server may send. */
  datatype Kind =
    | CiliumNetworkPolicy
    | CiliumClusterwideNetworkPolicy
    | CiliumCIDRGroup
    | ClusterNetworkPolicy
    | Unsupported

  function KindName(kind: Kind): (r: Option<string>)
    ensures r.None? <==> kind.Unsupported?
    ensures r.Some? ==> SlashFree(r.value) && r.value != ""
  {
    match kind
    case CiliumNetworkPolicy => Some("CiliumNetworkPolicy")
    case CiliumClusterwideNetworkPolicy => Some("CiliumClusterwideNetworkPolicy")
    case CiliumCIDRGroup => Some("CiliumCIDRGroup")
    case ClusterNetworkPolicy => Some("ClusterNetworkPolicy")
    case Unsupported => None
  }

  predicate SlashFree(s: string) {
    forall i :: 0 <= i < |s| ==> s[i] != '/'
  }

  function CacheKey(kind: string, namespace: string, name: string): string {
    kind + "/" + namespace + "/" + name
  }

  /** The notification that stands for every key. */
  const SNAPSHOT_REPLACED: string := "*"

  lemma {:induction false} FirstSlash(a: string, x: string, b: string, y: string)
    requires SlashFree(a) && SlashFree(b) && a + "/" + x == b + "/" + y
    ensures a == b && x == y
  {
    NoneBefore(a, x, |b|);
    NoneBefore(b, y, |a|);
    var s := a + "/" + x;
    assert a == s[..|a|] && b == s[..|b|];
    assert x == s[|a| + 1..] && y == s[|b| + 1..];
  }

  lemma {:induction false} NoneBefore(a: string, x: string, k: nat)
    requires SlashFree(a)
    ensures k < |a| ==> (a + "/" + x)[k] != '/'
    ensures (a + "/" + x)[|a|] == '/'
  {
  }

  /** Different objects have different keys, and none is the notification for every key. A name
      may even hold slashes. */
  lemma {:induction false} CacheKeyInjective(kind: string, namespace: string, name: string,
                                             kind': string, namespace': string, name': string)
    requires SlashFree(kind) && SlashFree(namespace) && SlashFree(kind') && SlashFree(namespace')
    ensures CacheKey(kind, namespace, name) == CacheKey(kind', namespace', name') <==>
      kind == kind' && namespace == namespace' && name == name'
  {
    if CacheKey(kind, namespace, name) == CacheKey(kind', namespace', name') {
      Regroup(kind, namespace, name);
      Regroup(kind', namespace', name');
      FirstSlash(kind, namespace + "/" + name, kind', namespace' + "/" + name');
      FirstSlash(namespace, name, namespace', name');
    }
  }

  lemma {:induction false} Regroup(kind: string, namespace: string, name: string)
    ensures CacheKey(kind, namespace, name) == kind + "/" + (namespace + "/" + name)
  {
  }

  lemma {:induction false} CacheKeyIsNotAll(kind: string, namespace: string, name: string)
    ensures CacheKey(kind, namespace, name) != SNAPSHOT_REPLACED
  {
    assert |CacheKey(kind, namespace, name)| == |kind| + |namespace| + |name| + 2;
  }

  /** Kinds differ in the name that starts their keys. */
  lemma {:induction false} KindNamesDiffer(kind: Kind, kind': Kind)
    requires KindName(kind) == KindName(kind')
    ensures kind == kind'
  {
  }
}
