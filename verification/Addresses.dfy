/** Resolution of a machine's addresses from its VM, the DHCP leases and the cache of leased IPs. */
module Addresses {
  import opened Calls

  const SECOND := 1_000_000_000
  const CACHE_TTL := 20 * 60 * SECOND

  datatype AddressKind = InternalDNS | ExternalIP | InternalIP
  datatype NodeAddress = NodeAddress(kind: AddressKind, value: string)

  /** A network as attached to a VM. */
  datatype Network = Network(id: string, ip: string, externalIp: string, mac: string)

  datatype NetworkRef = NetworkRef(name: string, id: string)
  datatype DhcpServer = DhcpServer(id: string, networkId: string)
  datatype Lease = Lease(mac: string, ip: string)

  /** The answers of the network and DHCP services; None and absent keys are failed calls. */
  datatype Dhcp = Dhcp(
    networks: Option<seq<NetworkRef>>, servers: Option<seq<DhcpServer>>, details: map<string, seq<Lease>>)

  datatype Pattern = Pattern(compiles: bool, accepts: string -> bool)

  /** How a machine's spec refers to its network. */
  datatype NetworkSpec =
    | ById(id: Option<string>)
    | ByName(name: Option<string>)
    | ByRegEx(pattern: Option<Pattern>)
    | Unsupported

  datatype Entry = Entry(ip: string, at: int)
  type Cache = map<string, Entry>

  /******* Addresses recorded on the VM itself *******/

  predicate IsSpace(c: char) {
    || '\t' <= c <= '\r' || c == ' ' || c == '\U{85}' || c == '\U{A0}' || c == '\U{1680}'
    || '\U{2000}' <= c <= '\U{200A}' || c == '\U{2028}' || c == '\U{2029}'
    || c == '\U{202F}' || c == '\U{205F}' || c == '\U{3000}'
  }

  function TrimSpace(s: string): string {
    if s == [] then []
    else if IsSpace(s[0]) then TrimSpace(s[1..])
    else if IsSpace(s[|s| - 1]) then TrimSpace(s[..|s| - 1])
    else s
  }

  function NonBlank(kind: AddressKind, s: string): seq<NodeAddress> {
    if TrimSpace(s) == "" then [] else [NodeAddress(kind, TrimSpace(s))]
  }

  function AddressesOf(n: Network): seq<NodeAddress> {
    NonBlank(ExternalIP, n.externalIp) + NonBlank(InternalIP, n.ip)
  }

  function NetworkAddresses(networks: seq<Network>): seq<NodeAddress> {
    if networks == [] then []
    else
      var n := |networks| - 1;
      NetworkAddresses(networks[..n]) + AddressesOf(networks[n])
  }

  /******* The lookup through DHCP *******/

  function FirstNetwork(networks: seq<NetworkRef>, accepts: string -> bool): Option<string> {
    if networks == [] then None
    else if accepts(networks[0].name) then Some(networks[0].id)
    else FirstNetwork(networks[1..], accepts)
  }

  function NetworkId(spec: NetworkSpec, networks: Option<seq<NetworkRef>>): Option<string> {
    match spec
    case ById(id) => id
    case ByName(name) =>
      if name.None? || networks.None? then None else FirstNetwork(networks.value, n => n == name.value)
    case ByRegEx(pattern) =>
      if pattern.None? || networks.None? || !pattern.value.compiles then None
      else FirstNetwork(networks.value, pattern.value.accepts)
    case Unsupported => None
  }

  // The last attached network with the id; the loop in the source does not stop at the first.
  function Attached(networks: seq<Network>, id: string): Option<Network> {
    if networks == [] then None
    else
      var n := |networks| - 1;
      if networks[n].id == id then Some(networks[n]) else Attached(networks[..n], id)
  }

  function ServerOf(servers: seq<DhcpServer>, networkId: string): Option<DhcpServer> {
    if servers == [] then None
    else if servers[0].networkId == networkId then Some(servers[0])
    else ServerOf(servers[1..], networkId)
  }

  function LeasedIp(leases: seq<Lease>, mac: string): Option<string> {
    if leases == [] then None
    else if leases[0].mac == mac then Some(leases[0].ip)
    else LeasedIp(leases[1..], mac)
  }

  function ServerIp(networkId: string, mac: string, dhcp: Dhcp): Option<string> {
    if dhcp.servers.None? then None
    else
      var server := ServerOf(dhcp.servers.value, networkId);
      if server.None? || server.value.id !in dhcp.details then None
      else LeasedIp(dhcp.details[server.value.id], mac)
  }

  function DhcpIp(spec: NetworkSpec, networks: seq<Network>, dhcp: Dhcp): Option<string> {
    var id := NetworkId(spec, dhcp.networks);
    if id.None? then None
    else
      var network := Attached(networks, id.value);
      if network.None? then None else ServerIp(id.value, network.value.mac, dhcp)
  }

  /******* The cache *******/

  predicate Expired(e: Entry, now: int) {
    now - e.at > CACHE_TTL
  }

  function Cached(cache: Cache, key: string, now: int): Option<string> {
    if key in cache && !Expired(cache[key], now) then Some(cache[key].ip) else None
  }

  // Reading an expired entry drops it.
  function AfterRead(cache: Cache, key: string, now: int): Cache {
    if key in cache && Expired(cache[key], now) then cache - {key} else cache
  }

  /******* Resolution *******/

  /** `looked` is the IP that was looked up through DHCP, when that happened and succeeded. */
  datatype Resolution = Resolution(addresses: seq<NodeAddress>, cache: Cache, looked: Option<string>, failed: bool)

  /** From the cache, or else the IP that DHCP gives. */
  function Fallback(base: seq<NodeAddress>, name: string, cache: Cache, now: int, ip: Option<string>): Resolution {
    var hit, read := Cached(cache, name, now), AfterRead(cache, name, now);
    if hit.Some? then Resolution(base + [NodeAddress(InternalIP, hit.value)], read, None, false)
    else if ip.None? then Resolution(base, read, None, true)
    else Resolution(base + [NodeAddress(InternalIP, ip.value)], read[name := Entry(ip.value, now)], ip, false)
  }

  function Resolve(name: string, networks: seq<Network>, spec: NetworkSpec, dhcp: Dhcp, cache: Cache, now: int)
    : Resolution
  {
    var base := [NodeAddress(InternalDNS, name)] + NetworkAddresses(networks);
    if |base| > 1 then Resolution(base, cache, None, false)
    else Fallback(base, name, cache, now, DhcpIp(spec, networks, dhcp))
  }

  function InternalIpOf(addresses: seq<NodeAddress>): string {
    if addresses == [] then ""
    else if addresses[0].kind == InternalIP then addresses[0].value
    else InternalIpOf(addresses[1..])
  }

  /******* What resolution delivers *******/

  // The first network whose trimmed IP is not empty, and whether any network has an address at all.
  ghost function FirstIp(networks: seq<Network>): Option<string> {
    if networks == [] then None
    else if TrimSpace(networks[0].ip) != "" then Some(TrimSpace(networks[0].ip))
    else FirstIp(networks[1..])
  }

  ghost predicate NoAddresses(networks: seq<Network>) {
    forall n :: n in networks ==> Blank(n)
  }

  ghost predicate Blank(n: Network) {
    TrimSpace(n.ip) == "" && TrimSpace(n.externalIp) == ""
  }

  /** White space, by code point: the controls from tab to carriage return, the spaces, and the separators. */
  lemma IsSpaceExactly(c: char)
    ensures IsSpace(c) <==>
            var n := c as int;
            || 9 <= n <= 13 || n == 32 || n == 0x85 || n == 0xA0 || n == 0x1680 || 0x2000 <= n <= 0x200A
            || n == 0x2028 || n == 0x2029 || n == 0x202F || n == 0x205F || n == 0x3000
  {
  }

  lemma Widened(c: char, front: string, mid: string, back: string)
    ensures [c] + (front + mid + back) == ([c] + front) + mid + back
    ensures (front + mid + back) + [c] == front + mid + (back + [c])
  {
  }

  /** Trimming cuts white space, all of it, and nothing else. */
  lemma {:induction false} TrimSpaceIs(s: string) returns (front: string, back: string)
    ensures s == front + TrimSpace(s) + back
    ensures forall c :: c in front || c in back ==> IsSpace(c)
    ensures var t := TrimSpace(s); t != "" ==> !IsSpace(t[0]) && !IsSpace(t[|t| - 1])
  {
    var n := |s| - 1;
    if s != [] && IsSpace(s[0]) {
      var rest;
      rest, back := TrimSpaceIs(s[1..]);
      front := [s[0]] + rest;
      assert s == [s[0]] + s[1..];
      Widened(s[0], rest, TrimSpace(s[1..]), back);
    } else if s != [] && IsSpace(s[n]) {
      var rest;
      front, rest := TrimSpaceIs(s[..n]);
      back := rest + [s[n]];
      assert s == s[..n] + [s[n]];
      Widened(s[n], front, TrimSpace(s[..n]), rest);
    } else {
      front, back := "", "";
    }
  }

  ghost predicate FirstWithName(networks: seq<NetworkRef>, accepts: string -> bool, i: int) {
    0 <= i < |networks| && accepts(networks[i].name) && forall j :: 0 <= j < i ==> !accepts(networks[j].name)
  }

  ghost predicate LastAttached(networks: seq<Network>, id: string, i: int) {
    0 <= i < |networks| && networks[i].id == id && forall j :: i < j < |networks| ==> networks[j].id != id
  }

  ghost predicate FirstServer(servers: seq<DhcpServer>, networkId: string, i: int) {
    && 0 <= i < |servers| && servers[i].networkId == networkId
    && forall j :: 0 <= j < i ==> servers[j].networkId != networkId
  }

  ghost predicate FirstLease(leases: seq<Lease>, mac: string, i: int) {
    0 <= i < |leases| && leases[i].mac == mac && forall j :: 0 <= j < i ==> leases[j].mac != mac
  }

  lemma {:induction false} FirstNetworkIs(networks: seq<NetworkRef>, accepts: string -> bool, id: string)
    ensures FirstNetwork(networks, accepts) == Some(id) <==>
            exists i :: FirstWithName(networks, accepts, i) && networks[i].id == id
  {
    if networks != [] {
      var rest := networks[1..];
      FirstNetworkIs(rest, accepts, id);
      if accepts(networks[0].name) {
        assert FirstWithName(networks, accepts, 0);
      } else {
        forall i | 0 <= i < |rest|
          ensures FirstWithName(rest, accepts, i) <==> FirstWithName(networks, accepts, i + 1)
        {
          assert forall j :: 0 <= j < |rest| ==> networks[j + 1] == rest[j];
          assert forall j :: 0 < j < |networks| ==> networks[j] == rest[j - 1];
        }
        if i :| FirstWithName(networks, accepts, i) && networks[i].id == id {
          assert FirstWithName(rest, accepts, i - 1);
        }
      }
    }
  }

  lemma {:induction false} AttachedIs(networks: seq<Network>, id: string, n: Network)
    ensures Attached(networks, id) == Some(n) <==> exists i :: LastAttached(networks, id, i) && networks[i] == n
  {
    if networks != [] {
      var k := |networks| - 1;
      var init := networks[..k];
      AttachedIs(init, id, n);
      if networks[k].id == id {
        assert LastAttached(networks, id, k);
      } else {
        forall i | 0 <= i < k ensures LastAttached(init, id, i) <==> LastAttached(networks, id, i) {}
        if i :| LastAttached(networks, id, i) && networks[i] == n {
          assert LastAttached(init, id, i);
        }
      }
    }
  }

  lemma {:induction false} ServerOfIs(servers: seq<DhcpServer>, networkId: string, s: DhcpServer)
    ensures ServerOf(servers, networkId) == Some(s) <==>
            exists i :: FirstServer(servers, networkId, i) && servers[i] == s
  {
    if servers != [] {
      var rest := servers[1..];
      ServerOfIs(rest, networkId, s);
      if servers[0].networkId == networkId {
        assert FirstServer(servers, networkId, 0);
      } else {
        forall i | 0 <= i < |rest| ensures FirstServer(rest, networkId, i) <==> FirstServer(servers, networkId, i + 1) {
          assert forall j :: 0 <= j < |rest| ==> servers[j + 1] == rest[j];
          assert forall j :: 0 < j < |servers| ==> servers[j] == rest[j - 1];
        }
        if i :| FirstServer(servers, networkId, i) && servers[i] == s {
          assert FirstServer(rest, networkId, i - 1);
        }
      }
    }
  }

  lemma {:induction false} LeasedIpIs(leases: seq<Lease>, mac: string, ip: string)
    ensures LeasedIp(leases, mac) == Some(ip) <==> exists i :: FirstLease(leases, mac, i) && leases[i].ip == ip
  {
    if leases != [] {
      var rest := leases[1..];
      LeasedIpIs(rest, mac, ip);
      if leases[0].mac == mac {
        assert FirstLease(leases, mac, 0);
      } else {
        forall i | 0 <= i < |rest| ensures FirstLease(rest, mac, i) <==> FirstLease(leases, mac, i + 1) {
          assert forall j :: 0 <= j < |rest| ==> leases[j + 1] == rest[j];
          assert forall j :: 0 < j < |leases| ==> leases[j] == rest[j - 1];
        }
        if i :| FirstLease(leases, mac, i) && leases[i].ip == ip {
          assert FirstLease(rest, mac, i - 1);
        }
      }
    }
  }

  ghost predicate FirstOfName(networks: seq<NetworkRef>, name: string, i: int) {
    0 <= i < |networks| && networks[i].name == name && forall j :: 0 <= j < i ==> networks[j].name != name
  }

  /** The network a spec refers to: the id it gives, the first listed network of the name it gives, or the
      first listed network whose name its pattern accepts. */
  ghost predicate RefersTo(spec: NetworkSpec, networks: Option<seq<NetworkRef>>, id: string) {
    || spec == ById(Some(id))
    || (&& spec.ByName? && spec.name.Some? && networks.Some?
        && exists i :: FirstOfName(networks.value, spec.name.value, i) && networks.value[i].id == id)
    || (&& spec.ByRegEx? && spec.pattern.Some? && spec.pattern.value.compiles && networks.Some?
        && exists i :: FirstWithName(networks.value, spec.pattern.value.accepts, i) && networks.value[i].id == id)
  }

  lemma NetworkIdExactly(spec: NetworkSpec, networks: Option<seq<NetworkRef>>, id: string)
    ensures NetworkId(spec, networks) == Some(id) <==> RefersTo(spec, networks, id)
  {
    match spec {
      case ById(_) =>
      case ByName(name) =>
        if name.Some? && networks.Some? {
          var accepts := n => n == name.value;
          FirstNetworkIs(networks.value, accepts, id);
          forall i ensures FirstWithName(networks.value, accepts, i) <==> FirstOfName(networks.value, name.value, i) {}
        }
      case ByRegEx(pattern) =>
        if pattern.Some? && networks.Some? {
          FirstNetworkIs(networks.value, pattern.value.accepts, id);
        }
      case Unsupported =>
    }
  }

  /** The lookup through DHCP, without the searches: the network the spec refers to is attached to the VM,
      its first DHCP server answers, and the first lease for the MAC of the last attachment of that network
      is for `ip`. */
  lemma DhcpIpExactly(spec: NetworkSpec, networks: seq<Network>, dhcp: Dhcp, ip: string)
    ensures DhcpIp(spec, networks, dhcp) == Some(ip) <==>
            exists id, a, b, c ::
              && RefersTo(spec, dhcp.networks, id) && LastAttached(networks, id, a)
              && dhcp.servers.Some? && FirstServer(dhcp.servers.value, id, b)
              && dhcp.servers.value[b].id in dhcp.details
              && FirstLease(dhcp.details[dhcp.servers.value[b].id], networks[a].mac, c)
              && dhcp.details[dhcp.servers.value[b].id][c].ip == ip
  {
    if DhcpIp(spec, networks, dhcp) == Some(ip) {
      var id := NetworkId(spec, dhcp.networks).value;
      NetworkIdExactly(spec, dhcp.networks, id);
      var network := Attached(networks, id).value;
      AttachedIs(networks, id, network);
      var server := ServerOf(dhcp.servers.value, id).value;
      ServerOfIs(dhcp.servers.value, id, server);
      LeasedIpIs(dhcp.details[server.id], network.mac, ip);
    }
    forall id, a, b, c |
      && RefersTo(spec, dhcp.networks, id) && LastAttached(networks, id, a)
      && dhcp.servers.Some? && FirstServer(dhcp.servers.value, id, b)
      && dhcp.servers.value[b].id in dhcp.details
      && FirstLease(dhcp.details[dhcp.servers.value[b].id], networks[a].mac, c)
      && dhcp.details[dhcp.servers.value[b].id][c].ip == ip
      ensures DhcpIp(spec, networks, dhcp) == Some(ip)
    {
      NetworkIdExactly(spec, dhcp.networks, id);
      AttachedIs(networks, id, networks[a]);
      ServerOfIs(dhcp.servers.value, id, dhcp.servers.value[b]);
      LeasedIpIs(dhcp.details[dhcp.servers.value[b].id], networks[a].mac, ip);
    }
  }

  ghost predicate FirstInternal(addresses: seq<NodeAddress>, i: int) {
    && 0 <= i < |addresses| && addresses[i].kind == InternalIP
    && forall j :: 0 <= j < i ==> addresses[j].kind != InternalIP
  }

  /** The internal IP is the value of the first internal IP address; without one it is empty. */
  lemma {:induction false} InternalIpExactly(addresses: seq<NodeAddress>, ip: string)
    ensures InternalIpOf(addresses) == ip <==>
            || (exists i :: FirstInternal(addresses, i) && addresses[i].value == ip)
            || ((forall a :: a in addresses ==> a.kind != InternalIP) && ip == "")
  {
    if addresses != [] {
      var rest := addresses[1..];
      InternalIpExactly(rest, ip);
      assert forall a :: a in addresses <==> a == addresses[0] || a in rest;
      if addresses[0].kind == InternalIP {
        assert FirstInternal(addresses, 0);
      } else {
        forall i | 0 <= i < |rest| ensures FirstInternal(rest, i) <==> FirstInternal(addresses, i + 1) {
          assert forall j :: 0 <= j < |rest| ==> addresses[j + 1] == rest[j];
          assert forall j :: 0 < j < |addresses| ==> addresses[j] == rest[j - 1];
        }
        if i :| FirstInternal(addresses, i) && addresses[i].value == ip {
          assert FirstInternal(rest, i - 1);
        }
      }
    }
  }

  /** The addresses of the networks, in their order, and for each the external address before the internal
      one, without those that are blank. */
  lemma {:induction false} NetworkAddressesExactly(a: seq<Network>, b: seq<Network>, n: Network)
    ensures NetworkAddresses(a + b) == NetworkAddresses(a) + NetworkAddresses(b)
    ensures NetworkAddresses([n]) ==
            (if TrimSpace(n.externalIp) == "" then [] else [NodeAddress(ExternalIP, TrimSpace(n.externalIp))])
            + (if TrimSpace(n.ip) == "" then [] else [NodeAddress(InternalIP, TrimSpace(n.ip))])
    decreases |b|
  {
    assert [n][..0] == [];
    if b == [] {
      assert a + b == a;
    } else {
      var k := |b| - 1;
      NetworkAddressesExactly(a, b[..k], n);
      assert (a + b)[..|a + b| - 1] == a + b[..k];
    }
  }

  /** A cached IP is used exactly for twenty minutes after it was looked up, in nanoseconds, and dropped when
      it is read later. */
  lemma CacheHitExactly(cache: Cache, key: string, now: int, ip: string)
    ensures Cached(cache, key, now) == Some(ip) <==>
            key in cache && cache[key].ip == ip && now <= cache[key].at + 1_200_000_000_000
    ensures AfterRead(cache, key, now) ==
            map k | k in cache && (k == key ==> now <= cache[k].at + 1_200_000_000_000) :: cache[k]
  {
  }

  ghost predicate HasInternal(addresses: seq<NodeAddress>) {
    exists a :: a in addresses && a.kind == InternalIP
  }

  lemma {:induction false} InternalIpOfConcat(a: seq<NodeAddress>, b: seq<NodeAddress>)
    ensures InternalIpOf(a + b) == if HasInternal(a) then InternalIpOf(a) else InternalIpOf(b)
  {
    if a == [] {
      assert a + b == b;
    } else {
      InternalIpOfConcat(a[1..], b);
      assert (a + b)[1..] == a[1..] + b;
      assert forall x :: x in a <==> x == a[0] || x in a[1..];
    }
  }

  lemma {:induction false} FirstIpAppend(networks: seq<Network>, n: Network)
    ensures FirstIp(networks + [n]) == if FirstIp(networks).Some? then FirstIp(networks) else FirstIp([n])
  {
    if networks == [] {
      assert networks + [n] == [n];
    } else {
      FirstIpAppend(networks[1..], n);
      assert (networks + [n])[1..] == networks[1..] + [n];
    }
  }

  lemma {:induction false} NetworkAddressesEmpty(networks: seq<Network>)
    ensures NetworkAddresses(networks) == [] <==> NoAddresses(networks)
  {
    if networks != [] {
      var k := |networks| - 1;
      var init, n := networks[..k], networks[k];
      NetworkAddressesEmpty(init);
      OwnAddresses(n);
      assert NetworkAddresses(networks) == NetworkAddresses(init) + AddressesOf(n);
      assert networks == init + [n] && n in networks;
    }
  }

  lemma {:induction false} NetworkInternalIp(networks: seq<Network>)
    ensures HasInternal(NetworkAddresses(networks)) <==> FirstIp(networks).Some?
    ensures FirstIp(networks).Some? ==> InternalIpOf(NetworkAddresses(networks)) == FirstIp(networks).value
    ensures FirstIp(networks).None? ==> InternalIpOf(NetworkAddresses(networks)) == ""
  {
    if networks != [] {
      var k := |networks| - 1;
      var init, n := networks[..k], networks[k];
      NetworkInternalIp(init);
      assert networks == init + [n];
      FirstIpAppend(init, n);
      var a, b := NetworkAddresses(init), AddressesOf(n);
      assert NetworkAddresses(networks) == a + b;
      InternalIpOfConcat(a, b);
      OwnAddresses(n);
      assert forall x :: x in a + b <==> x in a || x in b;
    }
  }

  lemma OwnAddresses(n: Network)
    ensures var b := AddressesOf(n);
            && (b == [] <==> Blank(n))
            && (HasInternal(b) <==> FirstIp([n]).Some?)
            && InternalIpOf(b) == (if FirstIp([n]).Some? then FirstIp([n]).value else "")
  {
  }

  lemma ResolveFromNetworks(name: string, networks: seq<Network>, spec: NetworkSpec, dhcp: Dhcp, cache: Cache, now: int)
    requires !NoAddresses(networks)
    ensures var r := Resolve(name, networks, spec, dhcp, cache, now);
            && r == Resolution([NodeAddress(InternalDNS, name)] + NetworkAddresses(networks), cache, None, false)
            && InternalIpOf(r.addresses) == (if FirstIp(networks).Some? then FirstIp(networks).value else "")
  {
    NetworkAddressesEmpty(networks);
    NetworkInternalIp(networks);
    InternalIpOfConcat([NodeAddress(InternalDNS, name)], NetworkAddresses(networks));
  }

  lemma FallbackIs(name: string, cache: Cache, now: int, ip: Option<string>)
    ensures var dns := NodeAddress(InternalDNS, name);
            var r, hit := Fallback([dns], name, cache, now, ip), Cached(cache, name, now);
            && r.addresses[0] == dns
            && InternalIpOf(r.addresses) == (if hit.Some? then hit.value else if ip.Some? then ip.value else "")
            && |r.addresses| == (if hit.Some? || ip.Some? then 2 else 1)
            && (r.failed <==> hit.None? && ip.None?)
            && r.looked == (if hit.Some? then None else ip)
            && r.cache == (if r.looked.Some? then cache[name := Entry(ip.value, now)] else AfterRead(cache, name, now))
  {
  }

  lemma ResolveWithoutNetworks(name: string, networks: seq<Network>, spec: NetworkSpec, dhcp: Dhcp,
                               cache: Cache, now: int)
    requires NoAddresses(networks)
    ensures FirstIp(networks).None?
    ensures Resolve(name, networks, spec, dhcp, cache, now)
            == Fallback([NodeAddress(InternalDNS, name)], name, cache, now, DhcpIp(spec, networks, dhcp))
  {
    NetworkAddressesEmpty(networks);
    NetworkInternalIp(networks);
  }

  /** Address resolution: the list starts with the VM's name as internal DNS name. The internal IP is
      the first non-blank one among the VM's networks; when the networks carry no address at all, the
      unexpired cached IP; failing that, the IP leased to the VM; otherwise empty. The cache changes
      only by dropping an expired entry of this VM or by recording a fresh lookup for it. */
  lemma ResolveSpec(name: string, networks: seq<Network>, spec: NetworkSpec, dhcp: Dhcp, cache: Cache, now: int)
    ensures var r := Resolve(name, networks, spec, dhcp, cache, now);
            && r.addresses != [] && r.addresses[0] == NodeAddress(InternalDNS, name)
            && InternalIpOf(r.addresses) ==
               (if FirstIp(networks).Some? then FirstIp(networks).value
                else if !NoAddresses(networks) then ""
                else if Cached(cache, name, now).Some? then Cached(cache, name, now).value
                else if DhcpIp(spec, networks, dhcp).Some? then DhcpIp(spec, networks, dhcp).value
                else "")
            && (!NoAddresses(networks) ==> r.addresses == [NodeAddress(InternalDNS, name)] + NetworkAddresses(networks))
            && (NoAddresses(networks) ==>
                  |r.addresses| ==
                  if Cached(cache, name, now).Some? || DhcpIp(spec, networks, dhcp).Some? then 2 else 1)
            && (r.failed <==>
                  NoAddresses(networks) && Cached(cache, name, now).None? && DhcpIp(spec, networks, dhcp).None?)
            && r.looked == (if NoAddresses(networks) && Cached(cache, name, now).None?
                            then DhcpIp(spec, networks, dhcp) else None)
            && (r.looked.Some? ==> r.cache == cache[name := Entry(r.looked.value, now)])
            && (r.looked.None? ==> r.cache == cache || (r.cache == cache - {name} && Cached(cache, name, now).None?))
  {
    if NoAddresses(networks) {
      ResolveWithoutNetworks(name, networks, spec, dhcp, cache, now);
      FallbackIs(name, cache, now, DhcpIp(spec, networks, dhcp));
    } else {
      ResolveFromNetworks(name, networks, spec, dhcp, cache, now);
    }
  }

  /** As long as the lookup that filled the cache would still give the same IP, resolving with the
      cache and resolving without it give the same addresses. */
  lemma CacheIsTransparent(name: string, networks: seq<Network>, spec: NetworkSpec, dhcp: Dhcp, cache: Cache, now: int)
    requires name in cache && DhcpIp(spec, networks, dhcp) == Some(cache[name].ip)
    ensures Resolve(name, networks, spec, dhcp, cache, now).addresses
            == Resolve(name, networks, spec, dhcp, map[], now).addresses
  {
  }

  /** Resolving again at once, with the cache that resolving left, gives the same addresses. */
  lemma ResolveAgain(name: string, networks: seq<Network>, spec: NetworkSpec, dhcp: Dhcp, cache: Cache, now: int)
    ensures var r := Resolve(name, networks, spec, dhcp, cache, now);
            Resolve(name, networks, spec, dhcp, r.cache, now).addresses == r.addresses
  {
    if NoAddresses(networks) {
      ResolveWithoutNetworks(name, networks, spec, dhcp, cache, now);
      var ip := DhcpIp(spec, networks, dhcp);
      var r := Fallback([NodeAddress(InternalDNS, name)], name, cache, now, ip);
      FallbackIs(name, cache, now, ip);
      ResolveWithoutNetworks(name, networks, spec, dhcp, r.cache, now);
    } else {
      ResolveFromNetworks(name, networks, spec, dhcp, cache, now);
    }
  }

  /******* The lookups and the store, step by step *******/

  class TtlStore {
    var entries: Cache

    constructor ()
      ensures entries == map[]
    {
      entries := map[];
    }

    method GetByKey(key: string, now: int) returns (ip: Option<string>)
      modifies this
      ensures ip == Cached(old(entries), key, now)
      ensures entries == AfterRead(old(entries), key, now)
    {
      if key !in entries {
        return None;
      }
      if Expired(entries[key], now) {
        entries := entries - {key};
        return None;
      }
      ip := Some(entries[key].ip);
    }

    method Add(key: string, ip: string, now: int)
      modifies this
      ensures entries == old(entries)[key := Entry(ip, now)]
    {
      entries := entries[key := Entry(ip, now)];
    }

    method Delete(key: string)
      modifies this
      ensures entries == old(entries) - {key}
    {
      entries := entries - {key};
    }
  }

  method GetNetworkId(spec: NetworkSpec, networks: Option<seq<NetworkRef>>) returns (id: Option<string>)
    ensures id == NetworkId(spec, networks)
  {
    var accepts: string -> bool;
    match spec {
      case ById(i) => return i;
      case Unsupported => return None;
      case ByName(name) =>
        if name.None? || networks.None? {
          return None;
        }
        accepts := n => n == name.value;
      case ByRegEx(pattern) =>
        if pattern.None? || networks.None? || !pattern.value.compiles {
          return None;
        }
        accepts := pattern.value.accepts;
    }
    for i := 0 to |networks.value|
      invariant FirstNetwork(networks.value, accepts) == FirstNetwork(networks.value[i..], accepts)
    {
      if accepts(networks.value[i].name) {
        return Some(networks.value[i].id);
      }
    }
    id := None;
  }

  method FindAttached(networks: seq<Network>, id: string) returns (r: Option<Network>)
    ensures r == Attached(networks, id)
  {
    r := None;
    for i := 0 to |networks|
      invariant r == Attached(networks[..i], id)
    {
      assert networks[..i + 1][..i] == networks[..i];
      if networks[i].id == id {
        r := Some(networks[i]);
      }
    }
    assert networks[..|networks|] == networks;
  }

  method FindServerIp(networkId: string, mac: string, dhcp: Dhcp) returns (ip: Option<string>)
    ensures ip == ServerIp(networkId, mac, dhcp)
  {
    if dhcp.servers.None? {
      return None;
    }
    var servers := dhcp.servers.value;
    var leases: Option<seq<Lease>> := None;
    var i := 0;
    while i < |servers| && leases.None?
      invariant 0 <= i <= |servers|
      invariant leases.None? ==> ServerOf(servers, networkId) == ServerOf(servers[i..], networkId)
      invariant leases.Some? ==>
                  && ServerOf(servers, networkId).Some?
                  && ServerOf(servers, networkId).value.id in dhcp.details
                  && leases.value == dhcp.details[ServerOf(servers, networkId).value.id]
      decreases |servers| - i
    {
      if servers[i].networkId == networkId {
        if servers[i].id !in dhcp.details {
          return None;
        }
        leases := Some(dhcp.details[servers[i].id]);
      }
      i := i + 1;
    }
    if leases.None? {
      return None;
    }
    for j := 0 to |leases.value|
      invariant LeasedIp(leases.value, mac) == LeasedIp(leases.value[j..], mac)
    {
      if leases.value[j].mac == mac {
        return Some(leases.value[j].ip);
      }
    }
    ip := None;
  }

  method FindDhcpIp(spec: NetworkSpec, networks: seq<Network>, dhcp: Dhcp) returns (ip: Option<string>)
    ensures ip == DhcpIp(spec, networks, dhcp)
  {
    var id := GetNetworkId(spec, dhcp.networks);
    if id.None? {
      return None;
    }
    var network := FindAttached(networks, id.value);
    if network.None? {
      return None;
    }
    ip := FindServerIp(id.value, network.value.mac, dhcp);
  }

  lemma NetworkAddressesAppend(dns: NodeAddress, networks: seq<Network>, i: nat)
    requires i < |networks|
    ensures [dns] + NetworkAddresses(networks[..i + 1]) ==
            [dns] + NetworkAddresses(networks[..i])
            + NonBlank(ExternalIP, networks[i].externalIp) + NonBlank(InternalIP, networks[i].ip)
  {
    assert networks[..i + 1][..i] == networks[..i];
  }

  method AddNonBlank(addresses: seq<NodeAddress>, kind: AddressKind, s: string) returns (r: seq<NodeAddress>)
    ensures r == addresses + NonBlank(kind, s)
  {
    r := addresses;
    if TrimSpace(s) != "" {
      r := r + [NodeAddress(kind, TrimSpace(s))];
    }
  }

  method ListAddresses(name: string, networks: seq<Network>) returns (addresses: seq<NodeAddress>)
    ensures addresses == [NodeAddress(InternalDNS, name)] + NetworkAddresses(networks)
  {
    addresses := [NodeAddress(InternalDNS, name)];
    for i := 0 to |networks|
      invariant addresses == [NodeAddress(InternalDNS, name)] + NetworkAddresses(networks[..i])
    {
      NetworkAddressesAppend(NodeAddress(InternalDNS, name), networks, i);
      addresses := AddNonBlank(addresses, ExternalIP, networks[i].externalIp);
      addresses := AddNonBlank(addresses, InternalIP, networks[i].ip);
    }
    assert networks[..|networks|] == networks;
  }

  method ResolveAddresses(store: TtlStore, name: string, networks: seq<Network>, spec: NetworkSpec, dhcp: Dhcp,
                          now: int)
    returns (addresses: seq<NodeAddress>, looked: Option<string>, failed: bool)
    modifies store
    ensures Resolution(addresses, store.entries, looked, failed)
            == Resolve(name, networks, spec, dhcp, old(store.entries), now)
  {
    addresses := ListAddresses(name, networks);
    looked, failed := None, false;
    if |addresses| > 1 {
      return;
    }
    var hit := store.GetByKey(name, now);
    if hit.Some? {
      addresses := addresses + [NodeAddress(InternalIP, hit.value)];
      return;
    }
    looked := FindDhcpIp(spec, networks, dhcp);
    if looked.None? {
      failed := true;
      return;
    }
    addresses := addresses + [NodeAddress(InternalIP, looked.value)];
    store.Add(name, looked.value, now);
  }

  method GetMachineInternalIp(addresses: seq<NodeAddress>) returns (ip: string)
    ensures ip == InternalIpOf(addresses)
  {
    for i := 0 to |addresses|
      invariant InternalIpOf(addresses) == InternalIpOf(addresses[i..])
    {
      if addresses[i].kind == InternalIP {
        return addresses[i].value;
      }
    }
    ip := "";
  }
}
