/**
 * ServiceDiscovery (client V1): picks the address of one provider from the
 * current list of registry entries.
 */
module DiscoveryV1 {
  import opened Wrappers
  import opened JavaLang

  /**
   * discover: null when the list is empty, the only entry when there is one,
   * otherwise the entry at a random index (`draw` stands for the random
   * number; nextInt(size) is `draw % size`). The list is only read.
   */
  function Discover(dataList: seq<string>, draw: nat): (data: JString)
    ensures data.None? <==> |dataList| == 0
    ensures |dataList| == 1 ==> data == Some(dataList[0])
    ensures data.Some? ==> data.value in dataList
  {
    var size := |dataList|;
    if size > 0 then
      if size == 1 then Some(dataList[0])
      else Some(dataList[draw % size])
    else None
  }

  /** Every entry of the list is chosen by some draw. */
  lemma DiscoverReachesAll(dataList: seq<string>, i: nat)
    requires i < |dataList|
    ensures Discover(dataList, i) == Some(dataList[i])
  {
  }
}
