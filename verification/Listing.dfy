/** Finding the load balancers that a machine's spec names in the paged cloud listing. */
module Listing {
  import opened Calls
  import opened LoadBalancers
  import opened Paging

  datatype LoadBalancer = LoadBalancer(id: string, name: string, status: string, pools: seq<PoolRef>)

  function OptionsOf(lb: LoadBalancer): LbOptions {
    LbOptions(lb.id, lb.pools, lb.status)
  }

  /** The last listed load balancer of a name wins, as in a map filled from a list. */
  function Collect(listed: seq<LoadBalancer>, names: set<string>): map<string, LbOptions> {
    if listed == [] then map[]
    else
      var n := |listed| - 1;
      var before := Collect(listed[..n], names);
      if listed[n].name in names then before[listed[n].name := OptionsOf(listed[n])] else before
  }

  function NameSet(names: seq<string>): set<string> {
    set n | n in names
  }

  /** `listing` is what paging delivered; None when it failed. */
  function Select(listing: Option<seq<LoadBalancer>>, names: seq<string>): Option<map<string, LbOptions>> {
    if listing.None? || listing.value == [] then None
    else
      var found := Collect(listing.value, NameSet(names));
      if |found| != |names| then None else Some(found)
  }

  ghost predicate Listed(listed: seq<LoadBalancer>, name: string) {
    exists lb :: lb in listed && lb.name == name
  }

  ghost predicate Distinct(names: seq<string>) {
    forall i, j :: 0 <= i < j < |names| ==> names[i] != names[j]
  }

  ghost predicate LastOfName(listed: seq<LoadBalancer>, i: int) {
    0 <= i < |listed| && forall j :: i < j < |listed| ==> listed[j].name != listed[i].name
  }

  lemma {:induction false} CollectKeys(listed: seq<LoadBalancer>, names: set<string>)
    ensures forall n :: n in Collect(listed, names) <==> n in names && Listed(listed, n)
  {
    if listed != [] {
      var k := |listed| - 1;
      CollectKeys(listed[..k], names);
      assert forall lb :: lb in listed <==> lb in listed[..k] || lb == listed[k];
    }
  }

  lemma {:induction false} CollectTakesLast(listed: seq<LoadBalancer>, names: set<string>, i: int)
    requires LastOfName(listed, i) && listed[i].name in names
    ensures listed[i].name in Collect(listed, names) && Collect(listed, names)[listed[i].name] == OptionsOf(listed[i])
  {
    var k := |listed| - 1;
    if i < k {
      assert listed[k].name != listed[i].name;
      CollectTakesLast(listed[..k], names, i);
    }
  }

  lemma {:induction false} NameSetSize(names: seq<string>)
    ensures |NameSet(names)| <= |names|
    ensures |NameSet(names)| == |names| <==> Distinct(names)
  {
    if names != [] {
      var n := |names| - 1;
      var init, last := names[..n], names[n];
      NameSetSize(init);
      assert NameSet(names) == NameSet(init) + {last};
      if last in init {
        assert NameSet(names) == NameSet(init);
        var i :| 0 <= i < n && init[i] == last;
        assert names[i] == names[n];
      } else {
        assert forall i :: 0 <= i < n ==> init[i] in init;
        assert |NameSet(names)| == |NameSet(init)| + 1;
      }
    }
  }

  /** Selection succeeds exactly when paging did, something was listed, no name was asked for twice
      and every name is in the cloud; its keys are then the requested names and each entry describes
      the last listed load balancer of that name. A spec that repeats a name can never succeed. */
  lemma SelectExact(listing: Option<seq<LoadBalancer>>, names: seq<string>)
    ensures Select(listing, names).Some? <==>
              && listing.Some? && listing.value != []
              && Distinct(names)
              && (forall n :: n in names ==> Listed(listing.value, n))
    ensures Select(listing, names).Some? ==>
              && Select(listing, names).value.Keys == NameSet(names)
              && (forall i :: LastOfName(listing.value, i) && listing.value[i].name in names ==>
                    && var lb := listing.value[i];
                       Select(listing, names).value[lb.name] == LbOptions(lb.id, lb.pools, lb.status))
  {
    if listing.Some? {
      forall i | LastOfName(listing.value, i) && listing.value[i].name in names
        ensures listing.value[i].name in Collect(listing.value, NameSet(names))
             && Collect(listing.value, NameSet(names))[listing.value[i].name] == OptionsOf(listing.value[i])
      {
        CollectTakesLast(listing.value, NameSet(names), i);
      }
      var want, found := NameSet(names), Collect(listing.value, NameSet(names));
      CollectKeys(listing.value, want);
      NameSetSize(names);
      assert found.Keys <= want;
      assert |found| == |found.Keys|;
      if |found.Keys| == |want| {
        SubsetEqual(found.Keys, want);
      } else {
        SubsetSize(found.Keys, want);
        assert found.Keys != want;
      }
    }
  }

  lemma SubsetEqual<A>(a: set<A>, b: set<A>)
    requires a <= b && |a| == |b|
    ensures a == b
  {
    if a != b {
      var x :| x in b && x !in a;
      SubsetSize(a, b - {x});
    }
  }

  /** The cloud's listing as one reconcile meets it, watched for a number of rounds of paging. */
  datatype Directory = Directory(server: Server<LoadBalancer>, token: StartToken, rounds: nat)

  function Watched(d: Directory): State<LoadBalancer> {
    After(d.server, d.token, d.rounds)
  }

  /** What a paging loop that has ended hands on. */
  function Delivered(s: State<LoadBalancer>): Option<seq<LoadBalancer>> {
    if s.Halted? && !s.failed then Some(s.acc) else None
  }

  /** Pages through the listing and picks the load balancers of the given names. */
  method GetLoadBalancers(d: Directory, names: seq<string>) returns (halted: bool, r: Option<map<string, LbOptions>>)
    ensures halted <==> Watched(d).Halted?
    ensures r == Select(Delivered(Watched(d)), names)
  {
    var wanted: set<string> := {};
    for i := 0 to |names|
      invariant wanted == NameSet(names[..i])
    {
      wanted := wanted + {names[i]};
    }
    assert names[..|names|] == names;
    var lister := new Lister(d.server);
    var failed;
    halted, failed := PagingHelper(lister, d.token, d.rounds);
    if !halted || failed || lister.acc == [] {
      return halted, None;
    }
    var found: map<string, LbOptions> := map[];
    for i := 0 to |lister.acc|
      invariant found == Collect(lister.acc[..i], wanted)
    {
      var lb := lister.acc[i];
      assert lister.acc[..i + 1][..i] == lister.acc[..i];
      if lb.name in wanted {
        found := found[lb.name := OptionsOf(lb)];
      }
    }
    assert lister.acc[..|lister.acc|] == lister.acc;
    r := if |found| != |names| then None else Some(found);
  }

  /** The number of rounds does not matter once the loop has ended, and the loop of a listing whose tokens
      do not repeat ends within one round per page, plus one. */
  lemma RoundsDoNotMatter(d: Directory, more: nat)
    requires Watched(d).Halted? || (NeverRepeats(d.server, d.token) && d.rounds > |d.server.pages|)
    ensures Watched(d).Halted? && Watched(d.(rounds := d.rounds + more)) == Watched(d)
  {
    if NeverRepeats(d.server, d.token) && d.rounds > |d.server.pages| {
      HaltsWithinPages(d.server, d.token);
      HaltedStays(d.server, d.token, |d.server.pages| + 1, d.rounds);
    }
    HaltedStays(d.server, d.token, d.rounds, d.rounds + more);
  }
}
