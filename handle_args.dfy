/**
 * handle_args.go: building the resources to delete from command-line arguments, up to the
 * provider pool (lines 22-65).
 */
module HandleArgs {
  import opened Wrappers
  import opened Domain
  import opened ResourceUtil

  /**
   * Where handleInputFromArgs stands after building its input: it returned 1 because the type
   * is unsupported or the client pool failed, or it goes on with the resources and client keys.
   */
  datatype ArgsOutcome =
    | UnsupportedType(rType: string)
    | PoolFailed(profiles: seq<string>, regions: seq<string>)
    | Continue(rType: string, profiles: seq<string>, regions: seq<string>,
               resources: seq<Resource>, clientKeys: seq<ClientKey>)

  predicate Distinct(s: seq<ClientKey>) {
    forall i, j :: 0 <= i < j < |s| ==> s[i] != s[j]
  }

  /** s lists every key of the set exactly once, in some order (a map's iteration order). */
  predicate IsEnumeration(s: seq<ClientKey>, keys: set<ClientKey>) {
    Distinct(s) && (forall i :: 0 <= i < |s| ==> s[i] in keys) && (forall k :: k in keys ==> k in s)
  }

  /** Every key of the order names a client of the pool. */
  predicate InPool(order: seq<ClientKey>, clients: map<ClientKey, Client>) {
    forall i :: 0 <= i < |order| ==> order[i] in clients
  }

  /** The resources for one client: one per id. */
  function Row(rType: string, c: Client, ids: seq<string>): (rs: seq<Resource>)
    ensures |rs| == |ids|
  {
    seq(|ids|, i requires 0 <= i < |ids| => Resource(rType, ids[i], c.profile, c.region))
  }

  /** The nested loop over the clients (in the given order) and the ids. */
  function CrossProduct(rType: string, order: seq<ClientKey>, clients: map<ClientKey, Client>, ids: seq<string>): (rs: seq<Resource>)
    requires InPool(order, clients)
    ensures |rs| == |order| * |ids|
    decreases |order|
  {
    if order == [] then []
    else
      var init := order[..|order| - 1];
      var rest := CrossProduct(rType, init, clients, ids);
      assert |rest| + |ids| == (|init| + 1) * |ids|;
      rest + Row(rType, clients[order[|order| - 1]], ids)
  }

  /**
   * handleInputFromArgs up to the provider pool. The environment's AWS_PROFILE is envProfile;
   * isSupported is awsls's IsSupportedType; newClientPool is aws.NewClientPool (None on error).
   * The ghost order is the order in which the client map was ranged over.
   */
  method HandleInputFromArgs(args: seq<string>, profile: string, region: string, envProfile: Option<string>,
                             isSupported: string -> bool,
                             newClientPool: (seq<string>, seq<string>) -> Option<map<ClientKey, Client>>)
    returns (o: ArgsOutcome, ghost order: seq<ClientKey>)
    requires |args| >= 1
    ensures o.UnsupportedType? <==> !isSupported(PrefixResourceType(args[0]))
    ensures o.UnsupportedType? ==> o.rType == PrefixResourceType(args[0])
    ensures !o.UnsupportedType? ==>
      (profile != "" ==> o.profiles == [profile]) &&
      (profile == "" && envProfile.Some? ==> o.profiles == [envProfile.value]) &&
      (profile == "" && envProfile.None? ==> o.profiles == [])
    ensures !o.UnsupportedType? ==> (region != "" ==> o.regions == [region]) && (region == "" ==> o.regions == [])
    ensures !o.UnsupportedType? ==> (o.PoolFailed? <==> newClientPool(o.profiles, o.regions).None?)
    ensures o.Continue? ==>
      o.rType == PrefixResourceType(args[0]) && newClientPool(o.profiles, o.regions).Some? &&
      var clients := newClientPool(o.profiles, o.regions).value;
      IsEnumeration(order, clients.Keys) &&
      o.resources == CrossProduct(o.rType, order, clients, args[1..]) &&
      IsEnumeration(o.clientKeys, clients.Keys)
    ensures o.Continue? ==>
      var clients := newClientPool(o.profiles, o.regions).value;
      |o.resources| == |clients| * (|args| - 1) &&
      forall other :: IsEnumeration(other, clients.Keys) ==>
        multiset(o.resources) == multiset(CrossProduct(o.rType, other, clients, args[1..]))
  {
    order := [];
    var rType := PrefixResourceType(args[0]);
    if !isSupported(rType) {
      return UnsupportedType(rType), order;
    }

    var profiles: seq<string> := [];
    var regions: seq<string> := [];
    if profile != "" {
      profiles := [profile];
    } else {
      match envProfile {
        case Some(env) => profiles := [env];
        case None =>
      }
    }
    if region != "" {
      regions := [region];
    }

    var pool := newClientPool(profiles, regions);
    if pool.None? {
      return PoolFailed(profiles, regions), order;
    }
    var clients := pool.value;
    var ids := args[1..];

    assert |ids| == |args| - 1;
    var resources;
    resources, order := BuildResources(rType, clients, ids);
    var clientKeys := CollectClientKeys(clients);
    return Continue(rType, profiles, regions, resources, clientKeys), order;
  }

  /**
   * The nested loop of handle_args.go:51-60: for each client of the pool, in map order
   * (returned as the ghost order), one resource per id.
   */
  method BuildResources(rType: string, clients: map<ClientKey, Client>, ids: seq<string>)
    returns (resources: seq<Resource>, ghost order: seq<ClientKey>)
    ensures IsEnumeration(order, clients.Keys)
    ensures resources == CrossProduct(rType, order, clients, ids)
    ensures |resources| == |clients| * |ids|
    ensures forall other :: IsEnumeration(other, clients.Keys) ==>
      multiset(resources) == multiset(CrossProduct(rType, other, clients, ids))
  {
    resources := [];
    order := [];
    var remaining := clients.Keys;
    while remaining != {}
      invariant remaining <= clients.Keys
      invariant Distinct(order)
      invariant forall i :: 0 <= i < |order| ==> order[i] in clients && order[i] !in remaining
      invariant forall k :: k in clients.Keys ==> k in remaining || k in order
      invariant resources == CrossProduct(rType, order, clients, ids)
      decreases |remaining|
    {
      var k :| k in remaining;
      resources := AppendRow(resources, rType, clients[k], ids);
      assert (order + [k])[..|order|] == order;
      order := order + [k];
      remaining := remaining - {k};
    }
    CrossProductSize(rType, order, clients, ids);
    OrderFreeAll(rType, order, clients, ids);
  }

  /** The inner loop of handle_args.go:52-59: one resource per id for one client, appended in id order. */
  method AppendRow(resources: seq<Resource>, rType: string, client: Client, ids: seq<string>)
    returns (extended: seq<Resource>)
    ensures extended == resources + Row(rType, client, ids)
    ensures |extended| == |resources| + |ids| && extended[..|resources|] == resources
    ensures forall j :: 0 <= j < |ids| ==>
      extended[|resources| + j] == Resource(rType, ids[j], client.profile, client.region)
  {
    extended := resources;
    var j := 0;
    while j < |ids|
      invariant 0 <= j <= |ids|
      invariant extended == resources + Row(rType, client, ids[..j])
    {
      extended := extended + [Resource(rType, ids[j], client.profile, client.region)];
      j := j + 1;
    }
    assert ids[..j] == ids;
  }

  /** Every enumeration of the pool builds the same multiset as the given one. */
  lemma OrderFreeAll(rType: string, order: seq<ClientKey>, clients: map<ClientKey, Client>, ids: seq<string>)
    requires IsEnumeration(order, clients.Keys)
    ensures InPool(order, clients)
    ensures forall other :: IsEnumeration(other, clients.Keys) ==>
      multiset(CrossProduct(rType, order, clients, ids)) == multiset(CrossProduct(rType, other, clients, ids))
  {
    forall other | IsEnumeration(other, clients.Keys)
      ensures multiset(CrossProduct(rType, order, clients, ids)) == multiset(CrossProduct(rType, other, clients, ids))
    {
      CrossProductOrderFree(rType, order, other, clients.Keys, clients, ids);
    }
  }

  /** The loop of handle_args.go:62-65: the keys of the client map, each once, in map order. */
  method CollectClientKeys(clients: map<ClientKey, Client>) returns (clientKeys: seq<ClientKey>)
    ensures IsEnumeration(clientKeys, clients.Keys)
    ensures |clientKeys| == |clients|
  {
    clientKeys := [];
    var remaining := clients.Keys;
    while remaining != {}
      invariant remaining <= clients.Keys
      invariant Distinct(clientKeys)
      invariant forall i :: 0 <= i < |clientKeys| ==> clientKeys[i] in clients && clientKeys[i] !in remaining
      invariant forall k :: k in clients.Keys ==> k in remaining || k in clientKeys
      decreases |remaining|
    {
      var k :| k in remaining;
      clientKeys := clientKeys + [k];
      remaining := remaining - {k};
    }
    EnumerationSize(clientKeys, clients.Keys);
  }

  /** Concatenating client orders concatenates their resources. */
  lemma {:induction false} CrossProductAppend(rType: string, a: seq<ClientKey>, b: seq<ClientKey>,
                                              clients: map<ClientKey, Client>, ids: seq<string>)
    requires InPool(a, clients) && InPool(b, clients)
    ensures InPool(a + b, clients)
    ensures CrossProduct(rType, a + b, clients, ids) == CrossProduct(rType, a, clients, ids) + CrossProduct(rType, b, clients, ids)
    decreases |b|
  {
    forall i | 0 <= i < |a + b| ensures (a + b)[i] in clients {
      if i >= |a| { assert (a + b)[i] == b[i - |a|]; }
    }
    if b == [] {
      assert a + b == a;
    } else {
      var init := b[..|b| - 1];
      assert (a + b)[..|a + b| - 1] == a + init;
      assert (a + b)[|a + b| - 1] == b[|b| - 1];
      CrossProductAppend(rType, a, init, clients, ids);
    }
  }

  /**
   * Each resource comes from one client and one id, carrying the type, that id and the client's
   * profile and region; and every such combination is present.
   */
  lemma {:induction false} CrossProductMembers(rType: string, order: seq<ClientKey>, clients: map<ClientKey, Client>,
                                               ids: seq<string>, r: Resource)
    requires InPool(order, clients)
    ensures r in CrossProduct(rType, order, clients, ids) <==>
      exists i, j :: 0 <= i < |order| && 0 <= j < |ids| &&
        r == Resource(rType, ids[j], clients[order[i]].profile, clients[order[i]].region)
    decreases |order|
  {
    if order != [] {
      var init := order[..|order| - 1];
      var last := order[|order| - 1];
      CrossProductMembers(rType, init, clients, ids, r);
      var row := Row(rType, clients[last], ids);
      if r in row {
        var j :| 0 <= j < |ids| && row[j] == r;
        assert order[|order| - 1] == last;
      }
      if exists i, j :: 0 <= i < |order| && 0 <= j < |ids| &&
           r == Resource(rType, ids[j], clients[order[i]].profile, clients[order[i]].region) {
        var i, j :| 0 <= i < |order| && 0 <= j < |ids| &&
          r == Resource(rType, ids[j], clients[order[i]].profile, clients[order[i]].region);
        if i < |init| {
          assert init[i] == order[i];
        } else {
          assert row[j] == r;
        }
      }
    }
  }

  /** Taking one key out of an enumeration enumerates the remaining keys. */
  lemma RemoveFromEnumeration(b: seq<ClientKey>, p: nat, keys: set<ClientKey>)
    requires IsEnumeration(b, keys) && p < |b|
    ensures IsEnumeration(b[..p] + b[p + 1..], keys - {b[p]})
  {
    var b' := b[..p] + b[p + 1..];
    forall i | 0 <= i < |b'| ensures b'[i] == b[if i < p then i else i + 1] {
    }
    forall k | k in keys - {b[p]} ensures k in b' {
      var i :| 0 <= i < |b| && b[i] == k;
      if i < p { assert b'[i] == k; } else { assert b'[i - 1] == k; }
    }
  }

  /** Taking one client out of the order takes its row out of the resources. */
  lemma CrossProductSplice(rType: string, left: seq<ClientKey>, x: ClientKey, right: seq<ClientKey>,
                           clients: map<ClientKey, Client>, ids: seq<string>)
    requires InPool(left + [x] + right, clients)
    ensures InPool(left + right, clients) && x in clients
    ensures multiset(CrossProduct(rType, left + [x] + right, clients, ids)) ==
      multiset(CrossProduct(rType, left + right, clients, ids)) + multiset(Row(rType, clients[x], ids))
  {
    var b := left + [x] + right;
    assert b[|left|] == x;
    assert InPool(left, clients) by {
      forall i | 0 <= i < |left| ensures left[i] in clients { assert b[i] == left[i]; }
    }
    assert InPool(right, clients) by {
      forall i | 0 <= i < |right| ensures right[i] in clients { assert b[|left| + 1 + i] == right[i]; }
    }
    assert [x][..0] == [];
    CrossProductAppend(rType, left, [x], clients, ids);
    CrossProductAppend(rType, left + [x], right, clients, ids);
    CrossProductAppend(rType, left, right, clients, ids);
  }

  /** The order in which the client map is ranged over does not change which resources are built, nor how often. */
  lemma {:induction false} CrossProductOrderFree(rType: string, a: seq<ClientKey>, b: seq<ClientKey>,
                                                 keys: set<ClientKey>, clients: map<ClientKey, Client>, ids: seq<string>)
    requires keys <= clients.Keys
    requires IsEnumeration(a, keys) && IsEnumeration(b, keys)
    ensures multiset(CrossProduct(rType, a, clients, ids)) == multiset(CrossProduct(rType, b, clients, ids))
    decreases |a|
  {
    if a == [] {
      EnumerationSize(a, keys);
      EnumerationSize(b, keys);
    } else {
      var x := a[|a| - 1];
      var init := a[..|a| - 1];
      assert x in b;
      var p :| 0 <= p < |b| && b[p] == x;
      var left, right := b[..p], b[p + 1..];
      RemoveLast(a, keys);
      RemoveFromEnumeration(b, p, keys);
      assert b == left + [x] + right;
      EnumerationInPool(a, keys, clients);
      EnumerationInPool(b, keys, clients);
      CrossProductSnoc(rType, a, clients, ids);
      CrossProductSplice(rType, left, x, right, clients, ids);
      var rest := left + right;
      CrossProductOrderFree(rType, init, rest, keys - {x}, clients, ids);
      var row := multiset(Row(rType, clients[x], ids));
      assert multiset(CrossProduct(rType, a, clients, ids)) == multiset(CrossProduct(rType, init, clients, ids)) + row;
      assert multiset(CrossProduct(rType, b, clients, ids)) == multiset(CrossProduct(rType, rest, clients, ids)) + row;
    }
  }

  /** An enumeration of keys of the pool names only clients of the pool. */
  lemma EnumerationInPool(s: seq<ClientKey>, keys: set<ClientKey>, clients: map<ClientKey, Client>)
    requires keys <= clients.Keys && IsEnumeration(s, keys)
    ensures InPool(s, clients)
  {
  }

  /** The last client of the order contributes the last row. */
  lemma CrossProductSnoc(rType: string, a: seq<ClientKey>, clients: map<ClientKey, Client>, ids: seq<string>)
    requires InPool(a, clients) && a != []
    ensures InPool(a[..|a| - 1], clients) && a[|a| - 1] in clients
    ensures multiset(CrossProduct(rType, a, clients, ids)) ==
      multiset(CrossProduct(rType, a[..|a| - 1], clients, ids)) + multiset(Row(rType, clients[a[|a| - 1]], ids))
  {
  }

  lemma RemoveLast(a: seq<ClientKey>, keys: set<ClientKey>)
    requires IsEnumeration(a, keys) && a != []
    ensures IsEnumeration(a[..|a| - 1], keys - {a[|a| - 1]})
  {
    RemoveFromEnumeration(a, |a| - 1, keys);
    assert a[..|a| - 1] + a[|a|..] == a[..|a| - 1];
  }

  /** For every client and every id there is exactly one resource: |clients| * |ids| in all. */
  lemma CrossProductSize(rType: string, order: seq<ClientKey>, clients: map<ClientKey, Client>, ids: seq<string>)
    requires IsEnumeration(order, clients.Keys)
    ensures |CrossProduct(rType, order, clients, ids)| == |clients| * |ids|
  {
    EnumerationSize(order, clients.Keys);
  }

  /** The keys an enumeration lists are exactly the set. */
  lemma EnumerationElements(s: seq<ClientKey>, keys: set<ClientKey>)
    requires IsEnumeration(s, keys)
    ensures keys == set i | 0 <= i < |s| :: s[i]
  {
  }

  /** An enumeration has as many elements as the set. */
  lemma {:induction false} EnumerationSize(s: seq<ClientKey>, keys: set<ClientKey>)
    requires IsEnumeration(s, keys)
    ensures |s| == |keys|
    decreases |s|
  {
    EnumerationElements(s, keys);
    if s != [] {
      var x := s[|s| - 1];
      RemoveFromEnumeration(s, |s| - 1, keys);
      assert s[..|s| - 1] + s[|s|..] == s[..|s| - 1];
      EnumerationSize(s[..|s| - 1], keys - {x});
    }
  }
}
