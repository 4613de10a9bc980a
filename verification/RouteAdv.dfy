// pkg/agent/routeadv/creator.go: one RouteAdvertisement per stretched CUDN.

module RouteAdv {
  datatype Advertisement = Advertisement(cluster: string, cudn: string, mcn: string)

  function AdvertisementName(cluster: string, cudn: string): string
  {
    "skynet-" + cluster + "-" + cudn
  }

  // Within a cluster different CUDNs never share an advertisement.
  lemma NamesDiffer(cluster: string, a: string, b: string)
    ensures AdvertisementName(cluster, a) == AdvertisementName(cluster, b) ==> a == b
  {
    var n := |"skynet-" + cluster + "-"|;
    assert AdvertisementName(cluster, a)[n..] == a && AdvertisementName(cluster, b)[n..] == b;
  }

  // What is there stays; what is missing is created.
  function WithAdvertisement(
    s: map<string, Advertisement>, cluster: string, cudn: string, mcn: string): map<string, Advertisement>
  {
    var name := AdvertisementName(cluster, cudn);
    if name in s then s else s[name := Advertisement(cluster, cudn, mcn)]
  }

  class Creator {
    // The RouteAdvertisements of the local cluster, by name.
    var stored: map<string, Advertisement>
    const clusterName: string
    // How many requests have failed so far.
    ghost var failures: nat

    constructor (clusterName: string, stored: map<string, Advertisement>)
      ensures this.clusterName == clusterName && this.stored == stored && failures == 0
    {
      this.clusterName, this.stored, failures := clusterName, stored, 0;
    }

    // A request that fails may or may not have taken effect.
    method CreateForCUDN(cudn: string, mcn: string) returns (ok: bool)
      modifies this
      ensures ok ==> stored == WithAdvertisement(old(stored), clusterName, cudn, mcn) && failures == old(failures)
      ensures ok ==> "skynet-" + clusterName + "-" + cudn in stored
      ensures !ok ==> failures == old(failures) + 1
      ensures stored == old(stored) || stored == WithAdvertisement(old(stored), clusterName, cudn, mcn)
    {
      var readable, writable, answered := *, *, *;
      var name := AdvertisementName(clusterName, cudn);
      if !readable {
        failures := failures + 1;
        return false;
      }
      if name in stored {
        return true;
      }
      if writable {
        stored := stored[name := Advertisement(clusterName, cudn, mcn)];
      }
      ok := writable && answered;
      failures := failures + if ok then 0 else 1;
    }

    method DeleteForCUDN(cudn: string) returns (ok: bool)
      modifies this
      ensures ok ==> stored == old(stored) - {AdvertisementName(clusterName, cudn)} && failures == old(failures)
      ensures !ok ==> failures == old(failures) + 1
      ensures stored == old(stored) || stored == old(stored) - {AdvertisementName(clusterName, cudn)}
    {
      var writable, answered := *, *;
      if writable {
        stored := stored - {AdvertisementName(clusterName, cudn)};
      }
      ok := writable && answered;
      failures := failures + if ok then 0 else 1;
    }
  }
}
