/** Giving every listen address at most one owner among the discovered services. */
module ListenConflict {
  import opened Common
  import opened DiscoveredServices

  /** The standard port of each service type; 0 for a type without one. */
  type Ports = map<string, int>

  function StandardPort(ports: Ports, serviceType: string): int {
    if serviceType in ports then ports[serviceType] else 0
  }

  /** Who lists an address: one entry per occurrence, so a service listing it twice counts
      twice. */
  type Claims = map<Address, seq<Key>>

  function ClaimsOn(claims: Claims, a: Address): seq<Key> {
    if a in claims then claims[a] else []
  }

  // ---------------------------------------------------------------------------
  // Collecting the claims
  // ---------------------------------------------------------------------------

  function Count(list: seq<Address>, a: Address): nat {
    if list == [] then 0 else Count(list[..|list| - 1], a) + if list[|list| - 1] == a then 1 else 0
  }

  /** How often a key claims an address. */
  function Claimed(claims: Claims, a: Address, k: Key): nat {
    multiset(ClaimsOn(claims, a))[k]
  }

  /** The claims list every service of a set of keys as often as it lists the address. */
  ghost predicate Collected(claims: Claims, services: Services, done: set<Key>) {
    forall a, k :: Claimed(claims, a, k)
                   == if k in done && k in services then Count(services[k].listen, a) else 0
  }

  /** The claims and, for one key, those of a list of addresses. */
  ghost predicate WithList(r: Claims, claims: Claims, key: Key, list: seq<Address>) {
    forall a, k :: Claimed(r, a, k)
                   == Claimed(claims, a, k) + if k == key then Count(list, a) else 0
  }

  lemma WithListSnoc(r: Claims, claims: Claims, key: Key, list: seq<Address>, x: Address)
    requires WithList(r, claims, key, list)
    ensures WithList(r[x := ClaimsOn(r, x) + [key]], claims, key, list + [x])
  {
    forall a, k
      ensures Claimed(r[x := ClaimsOn(r, x) + [key]], a, k)
              == Claimed(claims, a, k) + if k == key then Count(list + [x], a) else 0
    {
      ClaimedPut(r, x, key, a, k);
      assert Claimed(r, a, k) == Claimed(claims, a, k) + if k == key then Count(list, a) else 0;
      assert (list + [x])[..|list|] == list;
    }
  }

  lemma ClaimedPut(r: Claims, x: Address, key: Key, a: Address, k: Key)
    ensures Claimed(r[x := ClaimsOn(r, x) + [key]], a, k) == Claimed(r, a, k) + if a == x && k == key then 1 else 0
  {
  }

  method AddClaims(claims: Claims, key: Key, list: seq<Address>) returns (r: Claims)
    ensures WithList(r, claims, key, list)
  {
    r := claims;
    assert list[..0] == [] && forall a :: Count([], a) == 0;
    for i := 0 to |list|
      invariant WithList(r, claims, key, list[..i])
    {
      TakeSnoc(list, i);
      WithListSnoc(r, claims, key, list[..i], list[i]);
      r := r[list[i] := ClaimsOn(r, list[i]) + [key]];
    }
    assert list[..|list|] == list;
  }

  method CollectClaims(services: Services) returns (claims: Claims)
    ensures Collected(claims, services, services.Keys)
  {
    claims := map[];
    var todo := services.Keys;
    while todo != {}
      invariant todo <= services.Keys
      invariant Collected(claims, services, services.Keys - todo)
    {
      var k :| k in todo;
      claims := AddClaims(claims, k, services[k].listen);
      todo := todo - {k};
    }
  }

  // ---------------------------------------------------------------------------
  // Who keeps an address
  // ---------------------------------------------------------------------------

  /** Another entry of the claims has the address as its standard port. */
  predicate StandardElsewhere(services: Services, ports: Ports, claimants: seq<Key>, own: Key, a: Address) {
    exists k | k in claimants ::
      k != own && k in services && a.port == StandardPort(ports, services[k].serviceType)
  }

  predicate Keeps(services: Services, ports: Ports, claimants: seq<Key>, s: Service, a: Address) {
    || |claimants| == 1
    || (&& a.port == StandardPort(ports, s.serviceType)
        && !StandardElsewhere(services, ports, claimants, s.OwnKey(), a))
  }

  /** The order-preserving filter that the copy-on-first-conflict loop performs. */
  function Kept(services: Services, ports: Ports, claims: Claims, s: Service, list: seq<Address>): seq<Address> {
    if list == [] then []
    else
      var front, last := Kept(services, ports, claims, s, list[..|list| - 1]), list[|list| - 1];
      if Keeps(services, ports, ClaimsOn(claims, last), s, last) then front + [last] else front
  }

  /** The claimants are scanned up to the first one with that standard port. */
  method FindStandardElsewhere(services: Services, ports: Ports, claimants: seq<Key>, own: Key, a: Address)
    returns (found: bool)
    requires forall k | k in claimants :: k in services
    ensures found <==> StandardElsewhere(services, ports, claimants, own, a)
  {
    for i := 0 to |claimants|
      invariant !StandardElsewhere(services, ports, claimants[..i], own, a)
    {
      var other := claimants[i];
      if other != own && a.port == StandardPort(ports, services[other].serviceType) {
        assert claimants[i] in claimants;
        return true;
      }
    }
    assert claimants[..|claimants|] == claimants;
    return false;
  }

  /** The list without the addresses outside the set. */
  function Only(list: seq<Address>, keep: set<Address>): seq<Address> {
    if list == [] then []
    else
      var front, last := Only(list[..|list| - 1], keep), list[|list| - 1];
      if last in keep then front + [last] else front
  }

  /** The loop over the addresses. No copy is made before the first conflict; from then on a new list is
      built. */
  method KeepAddresses(s: Service, services: Services, ports: Ports, claims: Claims)
    returns (copied: Option<seq<Address>>)
    requires forall a, k | k in ClaimsOn(claims, a) :: k in services
    ensures Kept(services, ports, claims, s, s.listen) == if copied.None? then s.listen else copied.value
  {
    copied := None;
    for i := 0 to |s.listen|
      invariant copied.None? ==> Kept(services, ports, claims, s, s.listen[..i]) == s.listen[..i]
      invariant copied.Some? ==> Kept(services, ports, claims, s, s.listen[..i]) == copied.value
    {
      TakeSnoc(s.listen, i);
      var addr := s.listen[i];
      var claimants := ClaimsOn(claims, addr);
      if |claimants| == 1 && copied.None? {
        continue;
      }
      if |claimants| == 1 {
        copied := Some(copied.value + [addr]);
        continue;
      }
      if copied.None? {
        copied := Some(s.listen[..i]);
      }
      if addr.port != StandardPort(ports, s.serviceType) {
        continue;
      }
      var elsewhere := FindStandardElsewhere(services, ports, claimants, s.OwnKey(), addr);
      if elsewhere {
        continue;
      }
      copied := Some(copied.value + [addr]);
    }
    assert s.listen[..|s.listen|] == s.listen;
  }

  /** Only the list changes, and a service left with no address loses its netstat information. */
  method FilterConflictListenAddress(s: Service, services: Services, ports: Ports, claims: Claims)
    returns (r: Service)
    requires forall a, k | k in ClaimsOn(claims, a) :: k in services
    ensures r.listen == Kept(services, ports, claims, s, s.listen)
    ensures forall a :: a in r.listen <==> a in s.listen && Keeps(services, ports, ClaimsOn(claims, a), s, a)
    ensures r.listen == Only(s.listen, set a | a in r.listen)
    ensures r == if s.listen != [] && r.listen == [] then s.(listen := [], hasNetstatInfo := false, lastNetstatInfo := 0)
                 else s.(listen := r.listen)
  {
    var copied := KeepAddresses(s, services, ports, claims);
    KeptIsTheRest(services, ports, claims, s);
    if copied.None? {
      return s;
    }
    r := s;
    if s.listen != [] && copied.value == [] {
      r := r.(hasNetstatInfo := false, lastNetstatInfo := 0);
    }
    r := r.(listen := copied.value);
  }

  /** Every service is filtered against the claims of all. Afterwards no address is listed by two
      services. One survives at a service exactly when nobody else lists it and the service lists it
      once, or when it is the standard port of that claimant and of none of another name. The order is
      kept, and nothing else changes, save that a service left with no address loses its netstat
      information. */
  method FixListenAddressConflict(services: Services, ports: Ports) returns (fixed: map<Key, Service>)
    ensures fixed.Keys == services.Keys
    ensures forall a, k1, k2 | k1 in fixed && k2 in fixed && a in fixed[k1].listen && a in fixed[k2].listen :: k1 == k2
    ensures forall a, k | k in services ::
              a in fixed[k].listen <==> a in services[k].listen && Survives(services, ports, k, a)
    ensures forall k | k in services :: fixed[k].listen == Only(services[k].listen, set a | a in fixed[k].listen)
    ensures forall k | k in services ::
              fixed[k] == if services[k].listen != [] && fixed[k].listen == []
                          then services[k].(listen := [], hasNetstatInfo := false, lastNetstatInfo := 0)
                          else services[k].(listen := fixed[k].listen)
  {
    var claims := CollectClaims(services);
    ClaimantsAreServices(claims, services);
    fixed := map[];
    var todo := services.Keys;
    while todo != {}
      invariant todo <= services.Keys && fixed.Keys == services.Keys - todo
      invariant forall k | k in fixed :: IsFixed(fixed[k], services, ports, claims, k)
    {
      var k :| k in todo;
      var r := FilterConflictListenAddress(services[k], services, ports, claims);
      fixed := fixed[k := r];
      todo := todo - {k};
    }
    AllFixed(services, ports, claims, fixed);
  }

  /** What the filter makes of a service. */
  ghost predicate IsFixed(r: Service, services: Services, ports: Ports, claims: Claims, k: Key)
    requires k in services
  {
    var s := services[k];
    && r.listen == Kept(services, ports, claims, s, s.listen)
    && r.listen == Only(s.listen, set a | a in r.listen)
    && r == if s.listen != [] && r.listen == [] then s.(listen := [], hasNetstatInfo := false, lastNetstatInfo := 0)
            else s.(listen := r.listen)
  }

  lemma AllFixed(services: Services, ports: Ports, claims: Claims, fixed: map<Key, Service>)
    requires Collected(claims, services, services.Keys) && fixed.Keys == services.Keys
    requires forall k | k in fixed :: IsFixed(fixed[k], services, ports, claims, k)
    ensures forall a, k1, k2 | k1 in fixed && k2 in fixed && a in fixed[k1].listen && a in fixed[k2].listen :: k1 == k2
    ensures forall a, k | k in services ::
              a in fixed[k].listen <==> a in services[k].listen && Survives(services, ports, k, a)
  {
    forall a, k1, k2 | k1 in fixed && k2 in fixed && a in fixed[k1].listen && k1 != k2
      ensures a !in fixed[k2].listen
    {
      OneOwner(services, ports, claims, a, k1, k2);
    }
    forall a, k | k in services
      ensures a in fixed[k].listen <==> a in services[k].listen && Survives(services, ports, k, a)
    {
      SurvivesIff(services, ports, claims, k, a);
    }
  }

  lemma ClaimantsAreServices(claims: Claims, services: Services)
    requires Collected(claims, services, services.Keys)
    ensures forall a, k | k in ClaimsOn(claims, a) :: k in services
  {
    forall a, k | k in ClaimsOn(claims, a)
      ensures k in services
    {
      assert Claimed(claims, a, k) > 0;
    }
  }

  // ---------------------------------------------------------------------------
  // Properties
  // ---------------------------------------------------------------------------

  lemma {:induction false} KeptIffListedAndKeeps(services: Services, ports: Ports, claims: Claims, s: Service,
                                                 list: seq<Address>, a: Address)
    ensures a in Kept(services, ports, claims, s, list)
            <==> a in list && Keeps(services, ports, ClaimsOn(claims, a), s, a)
  {
    if list != [] {
      KeptIffListedAndKeeps(services, ports, claims, s, list[..|list| - 1], a);
      assert list == list[..|list| - 1] + [list[|list| - 1]];
    }
  }

  lemma {:induction false} KeptIsOnly(services: Services, ports: Ports, claims: Claims, s: Service,
                                      list: seq<Address>, keep: set<Address>)
    requires forall a | a in list :: a in keep <==> Keeps(services, ports, ClaimsOn(claims, a), s, a)
    ensures Kept(services, ports, claims, s, list) == Only(list, keep)
  {
    if list != [] {
      assert list == list[..|list| - 1] + [list[|list| - 1]];
      KeptIsOnly(services, ports, claims, s, list[..|list| - 1], keep);
    }
  }

  lemma KeptIsTheRest(services: Services, ports: Ports, claims: Claims, s: Service)
    ensures var kept := Kept(services, ports, claims, s, s.listen);
            && (forall a :: a in kept <==> a in s.listen && Keeps(services, ports, ClaimsOn(claims, a), s, a))
            && kept == Only(s.listen, set a | a in kept)
  {
    forall a {
      KeptIffListedAndKeeps(services, ports, claims, s, s.listen, a);
    }
    KeptIsOnly(services, ports, claims, s, s.listen, set a | a in Kept(services, ports, claims, s, s.listen));
  }

  lemma {:induction false} CountIs(list: seq<Address>, a: Address)
    ensures Count(list, a) == multiset(list)[a]
  {
    if list != [] {
      CountIs(list[..|list| - 1], a);
      assert list == list[..|list| - 1] + [list[|list| - 1]];
    }
  }

  lemma ClaimantIffLists(claims: Claims, services: Services, a: Address, k: Key)
    requires Collected(claims, services, services.Keys)
    ensures k in ClaimsOn(claims, a) <==> k in services && a in services[k].listen
  {
    if k in services {
      CountIs(services[k].listen, a);
    }
    assert k in ClaimsOn(claims, a) <==> Claimed(claims, a, k) > 0;
  }

  /** No address is listed by two services afterwards, even if map keys and names differ. */
  lemma OneOwner(services: Services, ports: Ports, claims: Claims, a: Address, k1: Key, k2: Key)
    requires Collected(claims, services, services.Keys)
    requires k1 in services && k2 in services && k1 != k2
    requires a in Kept(services, ports, claims, services[k1], services[k1].listen)
    ensures a !in Kept(services, ports, claims, services[k2], services[k2].listen)
  {
    var s1, s2 := services[k1], services[k2];
    KeptIffListedAndKeeps(services, ports, claims, s1, s1.listen, a);
    KeptIffListedAndKeeps(services, ports, claims, s2, s2.listen, a);
    ClaimantIffLists(claims, services, a, k1);
    ClaimantIffLists(claims, services, a, k2);
    var claimants := ClaimsOn(claims, a);
    assert a in s2.listen ==> k1 in claimants && k2 in claimants && |claimants| != 1;
    // If both had it as their standard port, each would be in the way of the other.
    assert a in s2.listen && a.port == StandardPort(ports, s2.serviceType) && k2 != s1.OwnKey()
           ==> StandardElsewhere(services, ports, claimants, s1.OwnKey(), a);
  }

  /** The services that list the address. */
  ghost function Claimants(services: Services, a: Address): set<Key> {
    set k | k in services && a in services[k].listen
  }

  ghost predicate Standard(services: Services, ports: Ports, k: Key, a: Address)
    requires k in services
  {
    a.port == if services[k].serviceType in ports then ports[services[k].serviceType] else 0
  }

  lemma {:induction false} SoleClaim(claimants: seq<Key>, k: Key)
    requires k in claimants
    ensures |claimants| == 1 <==> multiset(claimants)[k] == 1 && forall k' | k' in claimants :: k' == k
  {
    if |claimants| == 1 {
      assert claimants == [claimants[0]];
    } else if forall k' | k' in claimants :: k' == k {
      assert claimants == [claimants[0], claimants[1]] + claimants[2..];
      assert claimants[0] in claimants && claimants[1] in claimants;
      assert multiset(claimants) == multiset{claimants[0], claimants[1]} + multiset(claimants[2..]);
    }
  }

  /** Nobody but the k-th service lists the address, and it once; or the address is its standard port,
      and that of no claimant of another name. */
  ghost predicate Survives(services: Services, ports: Ports, k: Key, a: Address)
    requires k in services
  {
    || (Claimants(services, a) == {k} && multiset(services[k].listen)[a] == 1)
    || (Standard(services, ports, k, a)
        && forall k' | k' in Claimants(services, a) && k' != services[k].OwnKey() :: !Standard(services, ports, k', a))
  }

  lemma SurvivesIff(services: Services, ports: Ports, claims: Claims, k: Key, a: Address)
    requires Collected(claims, services, services.Keys) && k in services
    ensures a in Kept(services, ports, claims, services[k], services[k].listen)
            <==> a in services[k].listen && Survives(services, ports, k, a)
  {
    var s, claimants := services[k], ClaimsOn(claims, a);
    KeptIffListedAndKeeps(services, ports, claims, s, s.listen, a);
    if a in s.listen {
      forall k' {
        ClaimantIffLists(claims, services, a, k');
      }
      CountIs(s.listen, a);
      SoleClaim(claimants, k);
      SameClaimants(claimants, Claimants(services, a), k);
    }
  }

  lemma SameClaimants(claimants: seq<Key>, others: set<Key>, k: Key)
    requires forall k' :: k' in claimants <==> k' in others
    requires k in others
    ensures others == {k} <==> forall k' | k' in claimants :: k' == k
  {
    if forall k' | k' in claimants :: k' == k {
      assert forall k' | k' in others :: k' in claimants;
    }
  }

  /** An address listed by one service only is not always kept: listing it twice makes the
      service conflict with itself, and it keeps the address only as its standard port. */
  lemma SelfConflictDrops(services: Services, ports: Ports, claims: Claims, k: Key, a: Address)
    requires Collected(claims, services, services.Keys)
    requires KeysMatch(services)
    requires k in services && Claimants(services, a) == {k}
    ensures a in Kept(services, ports, claims, services[k], services[k].listen)
            <==> multiset(services[k].listen)[a] == 1 || Standard(services, ports, k, a)
  {
    assert k in Claimants(services, a);
    SurvivesIff(services, ports, claims, k, a);
  }
}
