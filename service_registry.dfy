/**
 * ServiceRegistry (server V2): turns the server's service keys back into
 * (name, version) pairs, publishes one descriptor node per registration and
 * deletes every published node on shutdown.
 */
module Registry {
  import opened Wrappers
  import opened JavaLang
  import opened Entities
  import opened ServiceUtil
  import opened Protocol

  const SEPARATOR: char := '#'

  /**
   * One key of the service table read back with key.split("#"): no parts
   * means no service; exactly two parts are name and version; one part, or
   * more than two, give part 0 as the name and an empty version.
   */
  function ParseServiceKey(key: string): (r: Option<RpcServiceInfo>)
    ensures r.Some? ==> r.value.serviceName.Some? && r.value.version.Some?
    ensures r.Some? ==> SEPARATOR !in r.value.serviceName.value && SEPARATOR !in r.value.version.value
    ensures SEPARATOR !in key ==> r == Some(RpcServiceInfo(Some(key), Some("")))
  {
    var serviceInfo := Split(key, SEPARATOR);
    if |serviceInfo| > 0 then
      var version := if |serviceInfo| == 2 then serviceInfo[1] else "";
      Some(RpcServiceInfo(Some(serviceInfo[0]), Some(version)))
    else
      None
  }

  /** The info list registerService collects: one info per key that parses, in key order. */
  function ParsedInfos(keys: seq<string>): (infos: seq<RpcServiceInfo>)
    ensures |infos| <= |keys|
    ensures forall i :: 0 <= i < |keys| && ParseServiceKey(keys[i]).Some? ==> ParseServiceKey(keys[i]).value in infos
    ensures forall x :: x in infos ==> exists i :: 0 <= i < |keys| && ParseServiceKey(keys[i]) == Some(x)
    decreases |keys|
  {
    if |keys| == 0 then []
    else
      var init := ParsedInfos(keys[..|keys| - 1]);
      assert forall i :: 0 <= i < |keys| - 1 ==> keys[..|keys| - 1][i] == keys[i];
      match ParseServiceKey(keys[|keys| - 1])
      case Some(info) => init + [info]
      case None => init
  }

  /** The infos of two runs of keys, one after the other, are the infos of the first run followed by those of the second. */
  lemma {:induction false} ParsedInfosConcat(a: seq<string>, b: seq<string>)
    ensures ParsedInfos(a + b) == ParsedInfos(a) + ParsedInfos(b)
    decreases |b|
  {
    if |b| == 0 {
      assert a + b == a;
    } else {
      var init, last := b[..|b| - 1], b[|b| - 1];
      var own := if ParseServiceKey(last).Some? then [ParseServiceKey(last).value] else [];
      ParsedInfosConcat(a, init);
      assert (a + b)[..|a + b| - 1] == a + init;
      assert (a + b)[|a + b| - 1] == last;
      assert ParsedInfos(b) == ParsedInfos(init) + own;
      assert ParsedInfos(a + b) == ParsedInfos(a + init) + own;
    }
  }

  /**
   * Each key contributes exactly its own parsed info, at its own place: the
   * keys before it contribute before it and the keys after it after it, so the
   * list holds one info per parsing key, in key order.
   */
  lemma ParsedInfosInKeyOrder(before: seq<string>, key: string, after: seq<string>)
    ensures ParsedInfos(before + [key] + after)
         == ParsedInfos(before) + (if ParseServiceKey(key).Some? then [ParseServiceKey(key).value] else []) + ParsedInfos(after)
  {
    ParsedInfosConcat(before + [key], after);
    ParsedInfosConcat(before, [key]);
    assert [key][..0] == [];
  }

  /** The node path for a descriptor: the data path, '-', and the descriptor's hash code in decimal. */
  function NodePath(rpcProtocol: RpcProtocol): (path: string)
    ensures |path| > |ZK_DATA_PATH| + 1 && path[..|ZK_DATA_PATH| + 1] == "/rpcregistry/data-"
    ensures path[|ZK_DATA_PATH| + 1..] == IntToString(ProtocolHashCode(rpcProtocol))
  {
    ZK_DATA_PATH + "-" + IntToString(ProtocolHashCode(rpcProtocol))
  }

  class ServiceRegistry {
    /** Every node path this registry created, in creation order. */
    var pathList: seq<string>
    /** Every delete this registry attempted, in order. */
    var deleteAttempts: seq<string>
    /** Whether the ZooKeeper client has been closed. */
    var closed: bool

    constructor ()
      ensures pathList == [] && deleteAttempts == [] && !closed
    {
      pathList := [];
      deleteAttempts := [];
      closed := false;
    }

    /**
     * registerService: the keys (in the table's iteration order) are parsed
     * into an info list, and the descriptor (host, port, list) is published as
     * an ephemeral sequential node requested at NodePath. `created` is what
     * creating that node yields: the sequence suffix ZooKeeper appends to the
     * requested path, so that the created path is recorded, or a failure. A
     * failure that is an Exception is caught and logged; any other escapes.
     */
    method RegisterService(host: string, port: Int32, keys: seq<string>, created: Result<string, Throwable>)
      returns (rpcProtocol: RpcProtocol, path: string, raised: Option<Throwable>)
      modifies this`pathList
      ensures rpcProtocol == RpcProtocol(Some(host), port, Some(ParsedInfos(keys)))
      ensures path == NodePath(rpcProtocol)
      ensures pathList == old(pathList) + (if created.Ok? then [path + created.value] else [])
      ensures raised == (if created.Err? && !IsException(created.error) then Some(created.error) else None)
    {
      var serviceInfoList: seq<RpcServiceInfo> := [];
      for i := 0 to |keys|
        invariant serviceInfoList == ParsedInfos(keys[..i])
      {
        assert keys[..i + 1][..i] == keys[..i];
        var rpcServiceInfo := ParseServiceKey(keys[i]);
        if rpcServiceInfo.Some? {
          serviceInfoList := serviceInfoList + [rpcServiceInfo.value];
        }
        // otherwise logged: "Can not get service name and version"
      }
      assert keys[..|keys|] == keys;
      rpcProtocol := RpcProtocol(Some(host), port, Some(serviceInfoList));
      path := NodePath(rpcProtocol);
      raised := None;
      match created {
        case Ok(suffix) =>
          pathList := pathList + [path + suffix];
        case Err(e) =>
          if !IsException(e) {
            raised := Some(e);
          }
          // otherwise logged: "Register service fail"
      }
    }

    /** unregisterService: a delete is attempted for every recorded path, whatever became of the earlier ones; then the client is closed. */
    method UnregisterService()
      modifies this`deleteAttempts, this`closed
      ensures deleteAttempts == old(deleteAttempts) + pathList
      ensures closed
    {
      for i := 0 to |pathList|
        invariant deleteAttempts == old(deleteAttempts) + pathList[..i]
      {
        assert pathList[..i + 1] == pathList[..i] + [pathList[i]];
        deleteAttempts := deleteAttempts + [pathList[i]];   // a failed delete is logged and the loop goes on
      }
      assert pathList[..|pathList|] == pathList;
      closed := true;
    }
  }

  /**
   * Reading back a key the server built: for a name and a version without
   * '#', parsing makeServiceKey(name, version) gives the name and the
   * version (or "" when there was none), and that info keys as the original.
   */
  lemma ParseServiceKeyRoundTrip(name: string, version: JString)
    requires SEPARATOR !in name
    requires version.Some? ==> SEPARATOR !in version.value
    ensures var info := ParseServiceKey(MakeServiceKey(name, version));
            && info == Some(RpcServiceInfo(Some(name), Some(if HasVersion(version) then version.value else "")))
            && InfoKey(info.value) == Some(MakeServiceKey(name, version))
  {
    if HasVersion(version) {
      SplitTwo(name, version.value, SEPARATOR);
      assert MakeServiceKey(name, version) == name + [SEPARATOR] + version.value;
    } else {
      assert !HasVersion(Some(""));
    }
  }

  /** A key that is the separator alone splits into no parts and is skipped. */
  lemma LoneSeparatorSkipped()
    ensures ParseServiceKey("#") == None
  {
    SplitLoneSeparator(SEPARATOR);
  }

  /** A key with three parts keeps its first part as the name and loses the rest. */
  lemma ThreePartsLoseVersion()
    ensures ParseServiceKey("a#b#c") == Some(RpcServiceInfo(Some("a"), Some("")))
  {
    var s := "a#b#c";
    SplitAllNoSep("c", SEPARATOR);
    assert "#c"[1..] == "c";
    assert SplitAll("#c", SEPARATOR) == ["", "c"];
    SplitAllPrefix("b", "#c", SEPARATOR);
    assert "b" + "#c" == "b#c" && "b" + "" == "b";
    assert "#b#c"[1..] == "b#c";
    assert SplitAll("#b#c", SEPARATOR) == ["", "b", "c"];
    SplitAllPrefix("a", "#b#c", SEPARATOR);
    assert "a" + "#b#c" == s && "a" + "" == "a";
    assert SplitAll(s, SEPARATOR) == ["a", "b", "c"];
    assert s[1] == SEPARATOR;
    assert Split(s, SEPARATOR) == ["a", "b", "c"];
  }

  /** Equal descriptors request the same node path (the created paths still differ in their sequence suffix). */
  lemma EqualDescriptorsSamePath(a: RpcProtocol, b: RpcProtocol)
    requires ProtocolEquals(a, ProtocolRef(b))
    ensures NodePath(a) == NodePath(b)
  {
    EqualProtocolsHashEqual(a, b);
  }
}
