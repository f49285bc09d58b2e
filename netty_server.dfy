/**
 * NettyServer (server V2): the table from service key to service bean that
 * the request handlers and the registry read, and the split of the
 * configured "host:port" address.
 */
module NettyServerModel {
  import opened Wrappers
  import opened JavaLang
  import opened Entities
  import opened ServiceUtil

  class NettyServer {
    /** "host:port" the server binds to and advertises. */
    const serverAddress: string
    /** serviceMap: service key to bean. */
    var serviceMap: map<string, Value>

    constructor (serverAddress: string)
      ensures this.serverAddress == serverAddress && serviceMap == map[]
    {
      this.serverAddress := serverAddress;
      serviceMap := map[];
    }

    /** addService: the bean is stored under makeServiceKey(interfaceName, version), replacing any bean there. */
    method AddService(interfaceName: string, version: JString, serviceBean: Value)
      modifies this`serviceMap
      ensures serviceMap == old(serviceMap)[MakeServiceKey(interfaceName, version) := serviceBean]
    {
      var serviceKey := MakeServiceKey(interfaceName, version);
      serviceMap := serviceMap[serviceKey := serviceBean];
    }
  }

  /**
   * The address step of start: split on ':', host = part 0, port =
   * Integer.parseInt(part 1). Too few parts index past the array; a bad
   * port throws NumberFormatException. (start catches and logs either.)
   */
  function ParseAddress(serverAddress: string): (r: Result<(string, Int32), Throwable>)
    ensures r.Ok? ==> |Split(serverAddress, ':')| >= 2 && r.value.0 == Split(serverAddress, ':')[0]
                      && ParseInt(Split(serverAddress, ':')[1]) == Ok(r.value.1)
    ensures |Split(serverAddress, ':')| < 2 ==> r.Err? && r.error.kind == ArrayIndexOutOfBoundsException
  {
    var parts := Split(serverAddress, ':');
    if |parts| == 0 then Err(Raise(ArrayIndexOutOfBoundsException, "Index 0 out of bounds for length 0"))
    else if |parts| == 1 then Err(Raise(ArrayIndexOutOfBoundsException, "Index 1 out of bounds for length 1"))
    else
      var host := parts[0];
      match ParseInt(parts[1])
      case Ok(port) => Ok((host, port))
      case Err(e) => Err(e)
  }

  /** An address written as host ':' port, for a host without ':', reads back as that host and port. */
  lemma ParseAddressRoundTrip(host: string, port: Int32)
    requires ':' !in host
    ensures ParseAddress(host + ":" + IntToString(port)) == Ok((host, port))
  {
    var p := IntToString(port);
    IntToStringAlphabet(port);
    assert ':' !in p by {
      forall i | 0 <= i < |p|
        ensures p[i] != ':'
      {
      }
    }
    SplitTwo(host, p, ':');
    assert host + ":" + p == host + [':'] + p;
    ParseIntOfIntToString(port);
  }

  /**
   * One interface under two different versions occupies two entries: keys
   * of present versions are distinct (interface names never hold '#').
   */
  lemma DistinctVersionsDistinctEntries(interfaceName: string, v1: string, v2: string, bean1: Value, bean2: Value)
    requires '#' !in interfaceName
    requires HasVersion(Some(v1)) && HasVersion(Some(v2)) && v1 != v2
    ensures var m := map[][MakeServiceKey(interfaceName, Some(v1)) := bean1][MakeServiceKey(interfaceName, Some(v2)) := bean2];
            |m| == 2 && m[MakeServiceKey(interfaceName, Some(v1))] == bean1 && m[MakeServiceKey(interfaceName, Some(v2))] == bean2
  {
    if MakeServiceKey(interfaceName, Some(v1)) == MakeServiceKey(interfaceName, Some(v2)) {
      KeyInjective(interfaceName, v1, interfaceName, v2);
    }
    var m := map[][MakeServiceKey(interfaceName, Some(v1)) := bean1][MakeServiceKey(interfaceName, Some(v2)) := bean2];
    assert m.Keys == {MakeServiceKey(interfaceName, Some(v1)), MakeServiceKey(interfaceName, Some(v2))};
  }
}
