/** The service key: the routing and lookup identity of a (service name, version) pair. */
module ServiceUtil {
  import opened Wrappers
  import opened JavaLang

  /** The separator between service name and version in a key. */
  const SERVICE_CONCAT_TOKEN: string := "#"

  /** `version != null && version.trim().length() > 0`. */
  predicate HasVersion(version: JString) {
    version.Some? && |Trim(version.value)| > 0
  }

  /** makeServiceKey: the interface name, followed by `#` and the version when there is one. */
  function MakeServiceKey(interfaceName: string, version: JString): (key: string)
    ensures |interfaceName| <= |key| && key[..|interfaceName|] == interfaceName
    ensures |key| == |interfaceName| <==> !HasVersion(version)
  {
    var serviceKey := interfaceName;
    if HasVersion(version) then serviceKey + SERVICE_CONCAT_TOKEN + version.value else serviceKey
  }

  /**
   * makeServiceKey on a reference that may be null: a null interface name is
   * concatenated as the text "null" when a version follows, and the key itself
   * stays null otherwise.
   */
  function ServiceKey(interfaceName: JString, version: JString): (key: JString)
    ensures interfaceName.Some? ==> key == Some(MakeServiceKey(interfaceName.value, version))
    ensures key.None? <==> interfaceName.None? && !HasVersion(version)
    ensures interfaceName.None? && HasVersion(version) ==> key == Some("null" + SERVICE_CONCAT_TOKEN + version.value)
  {
    if interfaceName.None? && !HasVersion(version) then None
    else Some(MakeServiceKey(Text(interfaceName), version))
  }

  /** A null version, or one made only of characters up to U+0020, leaves the bare interface name. */
  lemma KeyWithoutVersion(interfaceName: string, version: JString)
    requires version.None? || forall i :: 0 <= i < |version.value| ==> version.value[i] <= ' '
    ensures MakeServiceKey(interfaceName, version) == interfaceName
  {
    if version.Some? {
      TrimEmptyIffAllSpace(version.value);
    }
  }

  /** A version holding any character above U+0020 is appended after a single `#`, untrimmed. */
  lemma KeyWithVersion(interfaceName: string, version: string, i: nat)
    requires i < |version| && version[i] > ' '
    ensures SERVICE_CONCAT_TOKEN == ['#']
    ensures MakeServiceKey(interfaceName, Some(version)) == interfaceName + "#" + version
  {
    TrimEmptyIffAllSpace(version);
  }

  /**
   * Keys are collision-free for names without `#` (Java class names cannot hold
   * one) and versions that are present: equal keys mean equal pairs.
   */
  lemma KeyInjective(n1: string, v1: string, n2: string, v2: string)
    requires '#' !in n1 && '#' !in n2
    requires HasVersion(Some(v1)) && HasVersion(Some(v2))
    requires MakeServiceKey(n1, Some(v1)) == MakeServiceKey(n2, Some(v2))
    ensures n1 == n2 && v1 == v2
  {
    var k := MakeServiceKey(n1, Some(v1));
    assert k == n1 + "#" + v1 && k == n2 + "#" + v2;
    assert forall i :: 0 <= i < |n1| ==> k[i] == n1[i] != '#';
    assert forall i :: 0 <= i < |n2| ==> k[i] == n2[i] != '#';
    assert k[|n1|] == '#' && k[|n2|] == '#';
    assert |n1| == |n2|;
    assert n1 == k[..|n1|] == n2;
    assert v1 == k[|n1| + 1..] == v2;
  }
}
