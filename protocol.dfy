/**
 * Service descriptors: RpcServiceInfo (one advertised service) and RpcProtocol
 * (one provider process), with Java's structural equals, hashCode and toString.
 */
module Protocol {
  import opened Wrappers
  import opened JavaLang
  import opened ServiceUtil

  datatype RpcServiceInfo = RpcServiceInfo(serviceName: JString, version: JString)

  /** A provider: host, port and the ordered list of services it advertises (the list may be null). */
  datatype RpcProtocol = RpcProtocol(host: JString, port: Int32, serviceInfoList: Option<seq<RpcServiceInfo>>)

  /** What `equals(Object o)` may receive: null, a descriptor, or an object of some other class. */
  datatype JObject =
    | NullRef
    | InfoRef(info: RpcServiceInfo)
    | ProtocolRef(protocol: RpcProtocol)
    | OtherRef(className: string)

  /** Objects.equals on two references: both null, or both present and equal. */
  function ObjectsEquals<T(==)>(a: Option<T>, b: Option<T>): bool {
    match a
    case None => b.None?
    case Some(x) => b.Some? && x == b.value
  }

  // ---------------------------------------------------------------- RpcServiceInfo

  /** RpcServiceInfo.equals: same class and null-safely equal name and version. */
  function InfoEquals(self: RpcServiceInfo, o: JObject): (r: bool)
    ensures r <==> o.InfoRef? && o.info.serviceName == self.serviceName && o.info.version == self.version
    ensures r <==> o == InfoRef(self)
  {
    match o
    case InfoRef(that) =>
      ObjectsEquals(self.serviceName, that.serviceName) && ObjectsEquals(self.version, that.version)
    case _ => false
  }

  lemma InfoEqualsReflexive(i: RpcServiceInfo, other: string)
    ensures InfoEquals(i, InfoRef(i))
    ensures !InfoEquals(i, NullRef) && !InfoEquals(i, OtherRef(other))
  {
  }

  lemma InfoEqualsSymmetricTransitive(a: RpcServiceInfo, b: RpcServiceInfo, c: RpcServiceInfo)
    ensures InfoEquals(a, InfoRef(b)) <==> InfoEquals(b, InfoRef(a))
    ensures InfoEquals(a, InfoRef(b)) && InfoEquals(b, InfoRef(c)) ==> InfoEquals(a, InfoRef(c))
  {
  }

  /** RpcServiceInfo.hashCode: Objects.hash(serviceName, version). */
  function InfoHashCode(i: RpcServiceInfo): (h: Int32)
    ensures h == Wrap32(31 * 31 + 31 * JStringHashCode(i.serviceName) + JStringHashCode(i.version))
    ensures i.serviceName.None? && i.version.None? ==> h == 961
  {
    var hs := [JStringHashCode(i.serviceName), JStringHashCode(i.version)];
    assert hs[..1][..0] == [] && hs[..1] == [hs[0]];
    assert ObjectsHash(hs[..1]) == Wrap32(31 + hs[0] as int);
    WrapStep(31 + hs[0] as int, hs[1] as int);
    ObjectsHash(hs)
  }

  lemma EqualInfosHashEqual(a: RpcServiceInfo, b: RpcServiceInfo)
    requires InfoEquals(a, InfoRef(b))
    ensures InfoHashCode(a) == InfoHashCode(b)
  {
  }

  const INFO_PREFIX: string := "RpcServiceInfo{serviceName='"
  const INFO_MIDDLE: string := "', version='"
  const INFO_SUFFIX: string := "'}"

  /** RpcServiceInfo.toString; a null field prints as `null`. */
  function InfoToString(i: RpcServiceInfo): (s: string)
    ensures |s| == 42 + |Text(i.serviceName)| + |Text(i.version)|
    ensures s[..28] == INFO_PREFIX
    ensures s[28..28 + |Text(i.serviceName)|] == Text(i.serviceName)
    ensures s[28 + |Text(i.serviceName)|..40 + |Text(i.serviceName)|] == INFO_MIDDLE
    ensures s[40 + |Text(i.serviceName)|..|s| - 2] == Text(i.version)
    ensures s[|s| - 2..] == INFO_SUFFIX
  {
    var name := Text(i.serviceName);
    var version := Text(i.version);
    var s := INFO_PREFIX + name + INFO_MIDDLE + version + INFO_SUFFIX;
    assert |INFO_PREFIX| == 28 && |INFO_MIDDLE| == 12 && |INFO_SUFFIX| == 2;
    var a := 28 + |name|;
    var b := a + 12;
    assert s[..28] == INFO_PREFIX;
    assert s[28..a] == name;
    assert s[a..b] == INFO_MIDDLE;
    assert s[b..|s| - 2] == version;
    assert s[|s| - 2..] == INFO_SUFFIX;
    s
  }

  /**
   * The service key a descriptor advertises for one of its services:
   * makeServiceKey(serviceName, version), which is a null key for a null name
   * without a version and begins with the text "null" for a null name with one.
   */
  function InfoKey(i: RpcServiceInfo): (k: JString)
    ensures i.serviceName.Some? ==> k == Some(MakeServiceKey(i.serviceName.value, i.version))
    ensures k.None? <==> i.serviceName.None? && !HasVersion(i.version)
  {
    ServiceKey(i.serviceName, i.version)
  }

  // ---------------------------------------------------------------- RpcProtocol

  /** List.equals over service infos: same length and element-wise equals, in order. */
  function InfoListEquals(a: seq<RpcServiceInfo>, b: seq<RpcServiceInfo>): bool {
    |a| == |b| && forall k :: 0 <= k < |a| ==> InfoEquals(a[k], InfoRef(b[k]))
  }

  /** RpcProtocol.equals: same class, equal port, null-safely equal host and service list. */
  function ProtocolEquals(self: RpcProtocol, o: JObject): (r: bool)
    ensures r <==> o.ProtocolRef? && o.protocol.port == self.port && o.protocol.host == self.host
                   && o.protocol.serviceInfoList == self.serviceInfoList
    ensures r <==> o == ProtocolRef(self)
  {
    match o
    case ProtocolRef(that) =>
      self.port == that.port && ObjectsEquals(self.host, that.host)
      && (match (self.serviceInfoList, that.serviceInfoList)
          case (Some(a), Some(b)) =>
            var same := InfoListEquals(a, b);
            assert same ==> a == b;
            same
          case (None, None) => true
          case _ => false)
    case _ => false
  }

  lemma ProtocolEqualsReflexive(p: RpcProtocol, other: string)
    ensures ProtocolEquals(p, ProtocolRef(p))
    ensures !ProtocolEquals(p, NullRef) && !ProtocolEquals(p, OtherRef(other))
  {
  }

  /** The service list is compared in order: the same two services listed the other way round give unequal descriptors. */
  lemma ServiceOrderMatters(host: JString, port: Int32, a: RpcServiceInfo, b: RpcServiceInfo)
    requires a != b
    ensures !ProtocolEquals(RpcProtocol(host, port, Some([a, b])), ProtocolRef(RpcProtocol(host, port, Some([b, a]))))
  {
    assert [a, b][0] != [b, a][0];
  }

  /** List.hashCode: 31 * h + element hash, starting from 1. */
  function InfoListHashCode(l: seq<RpcServiceInfo>): Int32
    decreases |l|
  {
    if |l| == 0 then 1 else Wrap32(31 * InfoListHashCode(l[..|l| - 1]) + InfoHashCode(l[|l| - 1]))
  }

  /** RpcProtocol.hashCode: Objects.hash(host, port, serviceInfoList). */
  function ProtocolHashCode(p: RpcProtocol): (h: Int32)
    ensures h == Wrap32(31 * 31 * 31 + 31 * 31 * JStringHashCode(p.host) + 31 * p.port
                        + (if p.serviceInfoList.Some? then InfoListHashCode(p.serviceInfoList.value) else 0))
    ensures p.serviceInfoList == Some([]) ==> h == Wrap32(29791 + 961 * JStringHashCode(p.host) + 31 * p.port + 1)
  {
    var listHash := match p.serviceInfoList
      case None => 0
      case Some(l) => InfoListHashCode(l);
    var hs := [JStringHashCode(p.host), p.port, listHash];
    assert hs[..2][..1][..0] == [] && hs[..2][..1] == [hs[0]] && hs[..2] == [hs[0], hs[1]];
    assert ObjectsHash(hs[..2][..1]) == Wrap32(31 + hs[0] as int);
    WrapStep(31 + hs[0] as int, hs[1] as int);
    assert ObjectsHash(hs[..2]) == Wrap32(31 * (31 + hs[0] as int) + hs[1] as int);
    WrapStep(31 * (31 + hs[0] as int) + hs[1] as int, hs[2] as int);
    ObjectsHash(hs)
  }

  lemma EqualProtocolsHashEqual(a: RpcProtocol, b: RpcProtocol)
    requires ProtocolEquals(a, ProtocolRef(b))
    ensures ProtocolHashCode(a) == ProtocolHashCode(b)
  {
  }

  /** The hash does not tell descriptors apart: hosts "Aa" and "BB" give one hash code for different descriptors. */
  lemma ProtocolHashCollision(port: Int32, services: Option<seq<RpcServiceInfo>>)
    ensures RpcProtocol(Some("Aa"), port, services) != RpcProtocol(Some("BB"), port, services)
    ensures ProtocolHashCode(RpcProtocol(Some("Aa"), port, services)) == ProtocolHashCode(RpcProtocol(Some("BB"), port, services))
  {
    StringHashCollision();
  }

  /** The descriptor advertises at least one service (its list is neither null nor empty). */
  predicate HasServices(p: RpcProtocol) {
    p.serviceInfoList.Some? && |p.serviceInfoList.value| > 0
  }
}
