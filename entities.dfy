/**
 * The snapshot's own records (Container, Node, Service) and how each is derived
 * from the Docker record it mirrors.
 */
module Entities {
  import opened Wrappers
  import opened GoStrings
  import opened Docker

  /** The desired state that keeps a container out of the aggregate tree. */
  const Shutdown: string := "shutdown"

  /** The separator between repository and digest in a task's image reference. */
  const DigestSeparator: char := '@'

  datatype Container = Container(
    id: string,
    name: string,
    image: string,
    imageHash: string,
    error: string,
    state: string,
    serviceId: string,
    slot: int,
    nodeId: string,
    desiredState: string,
    createdAt: Time)

  /** A node; Manager is never assigned, so it is always false. */
  datatype Node = Node(
    id: string,
    hostname: string,
    state: string,
    manager: bool,
    ip: string,
    containers: seq<Container>,
    joinedAt: Time)

  datatype Service = Service(
    id: string,
    name: string,
    replicas: Option<nat>,
    containers: seq<Container>,
    createdAt: Time)

  /** A freshly listed node: scalar fields copied, no nested containers. */
  function NodeOf(info: NodeInfo): (n: Node)
    ensures NodeInfo(n.id, n.hostname, n.state, n.ip, n.joinedAt) == info
    ensures !n.manager && n.containers == []
  {
    Node(info.id, info.hostname, info.state, false, info.addr, [], info.createdAt)
  }

  /** A freshly listed service: scalar fields copied, no nested containers. */
  function ServiceOf(info: ServiceInfo): (sv: Service)
    ensures ServiceInfo(sv.id, sv.name, sv.replicas, sv.createdAt) == info
    ensures sv.containers == []
  {
    Service(info.id, info.name, info.replicas, [], info.createdAt)
  }

  /**
   * image and hash are the first two '@'-separated pieces of s: the text before
   * the first '@', and the text between the first '@' and the second '@' (or the end).
   */
  ghost predicate ImageSplit(s: string, image: string, hash: string) {
    var p := image + [DigestSeparator] + hash;
    && DigestSeparator !in image
    && DigestSeparator !in hash
    && |p| <= |s| && s[..|p|] == p
    && (|p| == |s| || s[|p|] == DigestSeparator)
  }

  /** The two pieces of ImageSplit are determined by the string. */
  lemma ImageSplitUnique(s: string, image: string, hash: string, image': string, hash': string)
    requires ImageSplit(s, image, hash) && ImageSplit(s, image', hash')
    ensures image == image' && hash == hash'
  {
    PrefixBeforeSeparator(s, image, image');
    var rest := s[|image| + 1..];
    RestStartsWith(s, image, hash);
    RestStartsWith(s, image, hash');
    assert |hash| == |rest| || rest[|hash|] == DigestSeparator;
    assert |hash'| == |rest| || rest[|hash'|] == DigestSeparator;
    PrefixBeforeSeparator(rest, hash, hash');
  }

  /** After image and its separator, s continues with hash. */
  lemma RestStartsWith(s: string, image: string, hash: string)
    requires var p := image + [DigestSeparator] + hash; |p| <= |s| && s[..|p|] == p
    ensures s[|image| + 1..][..|hash|] == hash
  {
    var p := image + [DigestSeparator] + hash;
    forall j | 0 <= j < |hash|
      ensures s[|image| + 1..][j] == hash[j]
    {
      assert s[|image| + 1 + j] == s[..|p|][|image| + 1 + j] == p[|image| + 1 + j];
    }
  }

  /** Two separator-free prefixes of s that each end s or are followed by the separator are equal. */
  lemma PrefixBeforeSeparator(s: string, a: string, b: string)
    requires DigestSeparator !in a && DigestSeparator !in b
    requires |a| <= |s| && s[..|a|] == a && (|a| == |s| || s[|a|] == DigestSeparator)
    requires |b| <= |s| && s[..|b|] == b && (|b| == |s| || s[|b|] == DigestSeparator)
    ensures a == b
  {
  }

  /** The tasks the snapshot can turn into a container without an index-out-of-range panic. */
  ghost predicate Convertible(t: TaskInfo) {
    |t.networks| > 0 && |t.networks[0].aliases| > 0 && DigestSeparator in t.image
  }

  /**
   * The container built from one task, or None where the source panics:
   * an empty Networks or Aliases list (Networks[0].Aliases[0]) or an image
   * without '@' (imageParts[1]).
   */
  function ContainerOf(t: TaskInfo): (r: Option<Container>)
    ensures r.Some? <==> Convertible(t)
    ensures r.Some? ==>
      && r.value.name == t.networks[0].aliases[0] + "." + Itoa(t.slot)
      && ImageSplit(t.image, r.value.image, r.value.imageHash)
      && r.value.id == t.containerId
      && r.value.error == t.err
      && r.value.state == t.state
      && r.value.serviceId == t.serviceId
      && r.value.slot == t.slot
      && r.value.nodeId == t.nodeId
      && r.value.desiredState == t.desiredState
      && r.value.createdAt == t.createdAt
  {
    var imageParts := Split(t.image, DigestSeparator);
    if |t.networks| == 0 || |t.networks[0].aliases| == 0 || |imageParts| < 2 then None
    else
      JoinFirstTwo(imageParts, DigestSeparator);
      Some(Container(
        id := t.containerId,
        name := t.networks[0].aliases[0] + "." + Itoa(t.slot),
        image := imageParts[0],
        imageHash := imageParts[1],
        error := t.err,
        state := t.state,
        serviceId := t.serviceId,
        slot := t.slot,
        nodeId := t.nodeId,
        desiredState := t.desiredState,
        createdAt := t.createdAt))
  }

  /** The owner ids and the desired state of a container are those of its task. */
  lemma OwnersCopied(t: TaskInfo, c: Container)
    requires ContainerOf(t) == Some(c)
    ensures c.nodeId == t.nodeId && c.serviceId == t.serviceId && c.desiredState == t.desiredState
  {
  }

  /** The slot can be read back from the container name: it is the text after the alias and '.'. */
  lemma NameEncodesSlot(t: TaskInfo)
    requires Convertible(t)
    ensures var name := ContainerOf(t).value.name;
            var alias := t.networks[0].aliases[0];
            |name| > |alias| + 1 && name[..|alias| + 1] == alias + "."
            && ParseInt(name[|alias| + 1..]) == t.slot
  {
    var name := ContainerOf(t).value.name;
    var alias := t.networks[0].aliases[0];
    assert name[|alias| + 1..] == Itoa(t.slot);
    ItoaRoundTrip(t.slot);
  }

  /** The example image reference splits into repository "nginx" and digest "sha256:abcd". */
  lemma DigestExample(t: TaskInfo)
    requires t.image == "nginx@sha256:abcd" && |t.networks| > 0 && |t.networks[0].aliases| > 0
    ensures ContainerOf(t).Some?
    ensures ContainerOf(t).value.image == "nginx" && ContainerOf(t).value.imageHash == "sha256:abcd"
  {
    var c := ContainerOf(t).value;
    NginxSplit();
    ImageSplitUnique(t.image, c.image, c.imageHash, "nginx", "sha256:abcd");
  }

  lemma NginxSplit()
    ensures ImageSplit("nginx@sha256:abcd", "nginx", "sha256:abcd")
  {
    assert "nginx" + [DigestSeparator] + "sha256:abcd" == "nginx@sha256:abcd";
  }

  /** An image reference without '@' is not turned into a container (the source panics on it). */
  lemma NoDigestExample(t: TaskInfo)
    requires t.image == "nginx"
    ensures ContainerOf(t).None?
  {
  }
}
