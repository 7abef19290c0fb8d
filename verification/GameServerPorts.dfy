/** The player-facing Service of a GameServer and the endpoints it publishes. */
module GameServerPorts {
  import opened Common

  datatype PortSpec = PortSpec(name: string, port: int, protocol: string, exposed: Option<bool>)

  datatype Profile = Profile(ports: seq<PortSpec>, sftp: bool)

  datatype ServicePort = ServicePort(name: string, port: int, protocol: string)

  datatype Endpoint = Endpoint(name: string, address: string, port: int)

  /** A LoadBalancer ingress: an IP, or a hostname. */
  datatype Ingress = Ingress(ip: string, hostname: string)

  /** A port number under a protocol: what a Service must not have twice. */
  datatype Slot = Slot(port: int, protocol: string)

  const TCP := "TCP"
  const SFTP := ServicePort("sftp", 2022, TCP)

  predicate Exposed(p: PortSpec) {
    p.exposed.None? || p.exposed.value
  }

  /** An empty protocol means TCP. */
  function SlotOf(p: PortSpec): Slot {
    Slot(p.port, if p.protocol == "" then TCP else p.protocol)
  }

  function SlotUsed(p: ServicePort): Slot {
    Slot(p.port, p.protocol)
  }

  function AsService(p: PortSpec): ServicePort {
    ServicePort(p.name, SlotOf(p).port, SlotOf(p).protocol)
  }

  /** An exposed port whose slot no exposed port before it has. */
  predicate Leads(ports: seq<PortSpec>, i: int)
    requires 0 <= i < |ports|
  {
    Exposed(ports[i]) && forall j :: 0 <= j < i && Exposed(ports[j]) ==> SlotOf(ports[j]) != SlotOf(ports[i])
  }

  /** One service port per leading port, in order. */
  function Leaders(ports: seq<PortSpec>): seq<ServicePort> {
    if ports == [] then []
    else
      var k := |ports| - 1;
      Leaders(ports[..k]) + if Leads(ports, k) then [AsService(ports[k])] else []
  }

  function Slots(ports: seq<PortSpec>): set<Slot> {
    set p | p in ports && Exposed(p) :: SlotOf(p)
  }

  function ServicePorts(profile: Profile): seq<ServicePort> {
    Leaders(profile.ports) + if profile.sftp && SlotUsed(SFTP) !in Slots(profile.ports) then [SFTP] else []
  }

  /** Each exposed port, duplicates and all, then SFTP. */
  function Published(ports: seq<PortSpec>, address: string): seq<Endpoint> {
    if ports == [] then []
    else
      var k := |ports| - 1;
      Published(ports[..k], address) + if Exposed(ports[k]) then [Endpoint(ports[k].name, address, ports[k].port)] else []
  }

  function Endpoints(profile: Profile, address: string): seq<Endpoint> {
    if address == "" then []
    else Published(profile.ports, address) + if profile.sftp then [Endpoint(SFTP.name, address, SFTP.port)] else []
  }

  /** Where players reach the server: its DNS name, or what the load balancer assigned. */
  function Address(server: string, zone: string, ingress: Option<Ingress>): string {
    if zone != "" then server + "." + zone
    else if ingress.None? then ""
    else if ingress.value.ip != "" then ingress.value.ip
    else ingress.value.hostname
  }

  // --------------------------------------------------------------- the loops

  method BuildGameService(profile: Profile) returns (ports: seq<ServicePort>)
    ensures ports == ServicePorts(profile)
  {
    var seen: set<Slot> := {};
    ports := [];
    for i := 0 to |profile.ports|
      invariant seen == Slots(profile.ports[..i])
      invariant ports == Leaders(profile.ports[..i])
    {
      var p := profile.ports[i];
      ServiceStep(profile.ports, i);
      if Exposed(p) {
        var protocol := p.protocol;
        if protocol == "" {
          protocol := TCP;
        }
        var key := Slot(p.port, protocol);
        if key !in seen {
          seen := seen + {key};
          ports := ports + [ServicePort(p.name, p.port, protocol)];
        }
      }
    }
    assert profile.ports[..|profile.ports|] == profile.ports;
    if profile.sftp && SlotUsed(SFTP) !in seen {
      ports := ports + [SFTP];
    }
  }

  method ResolveEndpoints(profile: Profile, server: string, zone: string, ingress: Option<Ingress>) returns (endpoints: seq<Endpoint>)
    ensures endpoints == Endpoints(profile, Address(server, zone, ingress))
  {
    var address := "";
    if zone != "" {
      address := server + "." + zone;
    } else {
      if ingress.None? {
        return [];
      }
      address := ingress.value.ip;
      if address == "" {
        address := ingress.value.hostname;
      }
    }
    if address == "" {
      return [];
    }
    endpoints := [];
    for i := 0 to |profile.ports|
      invariant endpoints == Published(profile.ports[..i], address)
    {
      assert profile.ports[..i + 1][..i] == profile.ports[..i];
      if Exposed(profile.ports[i]) {
        endpoints := endpoints + [Endpoint(profile.ports[i].name, address, profile.ports[i].port)];
      }
    }
    assert profile.ports[..|profile.ports|] == profile.ports;
    if profile.sftp {
      endpoints := endpoints + [Endpoint(SFTP.name, address, SFTP.port)];
    }
  }

  // ----------------------------------------------------------------- theorems

  /** The slots grow by the last port's, which is new exactly when that port leads. */
  lemma SlotsStep(ports: seq<PortSpec>)
    requires ports != []
    ensures var k := |ports| - 1;
      && Slots(ports) == Slots(ports[..k]) + (if Exposed(ports[k]) then {SlotOf(ports[k])} else {})
      && (Leads(ports, k) <==> Exposed(ports[k]) && SlotOf(ports[k]) !in Slots(ports[..k]))
  {
    var k := |ports| - 1;
    assert ports == ports[..k] + [ports[k]];
    forall j | 0 <= j < k && Exposed(ports[j]) ensures SlotOf(ports[j]) in Slots(ports[..k]) {
      assert ports[..k][j] in ports[..k];
    }
  }

  /** One port further: nothing new, or one more slot and one more service port. */
  lemma ServiceStep(ports: seq<PortSpec>, i: nat)
    requires i < |ports|
    ensures var opens := Exposed(ports[i]) && SlotOf(ports[i]) !in Slots(ports[..i]);
      && Slots(ports[..i + 1]) == Slots(ports[..i]) + (if opens then {SlotOf(ports[i])} else {})
      && Leaders(ports[..i + 1]) == Leaders(ports[..i]) + (if opens then [AsService(ports[i])] else [])
  {
    SlotsStep(ports[..i + 1]);
    assert ports[..i + 1][..i] == ports[..i];
  }

  ghost predicate DistinctSlots(s: seq<ServicePort>) {
    forall i, j :: 0 <= i < j < |s| ==> SlotUsed(s[i]) != SlotUsed(s[j])
  }

  ghost function UsedSlots(s: seq<ServicePort>): set<Slot> {
    set p | p in s :: SlotUsed(p)
  }

  lemma AppendSlot(s: seq<ServicePort>, p: ServicePort)
    ensures UsedSlots(s + [p]) == UsedSlots(s) + {SlotUsed(p)}
    ensures DistinctSlots(s) && SlotUsed(p) !in UsedSlots(s) ==> DistinctSlots(s + [p])
  {
    assert forall i :: 0 <= i < |s| ==> SlotUsed(s[i]) in UsedSlots(s);
  }

  lemma {:induction false} LeadersCoverSlots(ports: seq<PortSpec>)
    ensures DistinctSlots(Leaders(ports)) && UsedSlots(Leaders(ports)) == Slots(ports)
  {
    if ports != [] {
      var k := |ports| - 1;
      LeadersCoverSlots(ports[..k]);
      SlotsStep(ports);
      AppendSlot(Leaders(ports[..k]), AsService(ports[k]));
    }
  }

  /** No port number and protocol twice; exactly those of the exposed ports, and SFTP's if enabled. */
  lemma ServiceHasNoDuplicates(profile: Profile)
    ensures DistinctSlots(ServicePorts(profile))
    ensures UsedSlots(ServicePorts(profile)) == Slots(profile.ports) + if profile.sftp then {SlotUsed(SFTP)} else {}
  {
    LeadersCoverSlots(profile.ports);
    AppendSlot(Leaders(profile.ports), SFTP);
  }

  ghost function Numbers(s: seq<ServicePort>): set<int> {
    set p | p in s :: p.port
  }

  ghost function PublishedNumbers(s: seq<Endpoint>): set<int> {
    set e | e in s :: e.port
  }

  ghost function SlotNumbers(s: set<Slot>): set<int> {
    set x | x in s :: x.port
  }

  lemma NumbersAreSlotNumbers(s: seq<ServicePort>)
    ensures Numbers(s) == SlotNumbers(UsedSlots(s))
  {
    forall n | n in Numbers(s) ensures n in SlotNumbers(UsedSlots(s)) {
      var p :| p in s && p.port == n;
      assert SlotUsed(p) in UsedSlots(s);
    }
  }

  lemma {:induction false} PublishedCoversSlots(ports: seq<PortSpec>, address: string)
    ensures PublishedNumbers(Published(ports, address)) == SlotNumbers(Slots(ports))
  {
    if ports != [] {
      var k := |ports| - 1;
      PublishedCoversSlots(ports[..k], address);
      SlotsStep(ports);
      assert PublishedNumbers(Published(ports, address)) ==
        PublishedNumbers(Published(ports[..k], address)) + if Exposed(ports[k]) then {ports[k].port} else {};
      assert SlotNumbers(Slots(ports)) ==
        SlotNumbers(Slots(ports[..k])) + if Exposed(ports[k]) then {ports[k].port} else {};
    }
  }

  /** Players are told exactly the port numbers the Service serves, SFTP included, or nothing. */
  lemma EndpointsMatchService(profile: Profile, address: string)
    ensures address != "" ==> PublishedNumbers(Endpoints(profile, address)) == Numbers(ServicePorts(profile))
    ensures forall e :: e in Endpoints(profile, address) ==> e.address == address
    ensures Endpoints(profile, address) == [] <==> address == "" || ServicePorts(profile) == []
  {
    ServiceHasNoDuplicates(profile);
    NumbersAreSlotNumbers(ServicePorts(profile));
    PublishedCoversSlots(profile.ports, address);
    PublishedAt(profile.ports, address);
    var sftp := if profile.sftp then {SFTP.port} else {};
    if address != "" {
      assert PublishedNumbers(Endpoints(profile, address)) == PublishedNumbers(Published(profile.ports, address)) + sftp;
      assert SlotNumbers(UsedSlots(ServicePorts(profile))) == SlotNumbers(Slots(profile.ports)) + sftp;
      EmptyTogether(Endpoints(profile, address), ServicePorts(profile));
    }
  }

  lemma EmptyTogether(e: seq<Endpoint>, s: seq<ServicePort>)
    requires PublishedNumbers(e) == Numbers(s)
    ensures e == [] <==> s == []
  {
    if e != [] { assert e[0].port in PublishedNumbers(e); }
    if s != [] { assert s[0].port in Numbers(s); }
  }

  lemma {:induction false} PublishedAt(ports: seq<PortSpec>, address: string)
    ensures forall e :: e in Published(ports, address) ==> e.address == address
  {
    if ports != [] {
      PublishedAt(ports[..|ports| - 1], address);
    }
  }

  // ------------------------------------------------------------ in the fields

  /** Port i of the profile is shown to players: it says so, or says nothing. */
  predicate Shown(ports: seq<PortSpec>, i: int) {
    0 <= i < |ports| && (ports[i].exposed == None || ports[i].exposed == Some(true))
  }

  /** A service port made for port i of the profile: its name and number, and its protocol, TCP unless it names one. */
  predicate MadeFor(sp: ServicePort, ports: seq<PortSpec>, i: int)
    requires 0 <= i < |ports|
  {
    && sp.name == ports[i].name && sp.port == ports[i].port
    && sp.protocol == if ports[i].protocol == "" then "TCP" else ports[i].protocol
  }

  /** Some shown port of the profile is what the service port was made for, and no shown port before it has its number and protocol. */
  ghost predicate Made(sp: ServicePort, ports: seq<PortSpec>) {
    exists i :: MadeFirst(sp, ports, i)
  }

  ghost predicate MadeFirst(sp: ServicePort, ports: seq<PortSpec>, i: int) {
    && Shown(ports, i) && MadeFor(sp, ports, i)
    && forall j :: 0 <= j < i && Shown(ports, j) ==>
         ports[j].port != sp.port || (if ports[j].protocol == "" then "TCP" else ports[j].protocol) != sp.protocol
  }

  lemma MadeForLonger(sp: ServicePort, ports: seq<PortSpec>)
    requires ports != [] && Made(sp, ports[..|ports| - 1])
    ensures Made(sp, ports)
  {
    var front := ports[..|ports| - 1];
    var i :| MadeFirst(sp, front, i);
    forall j | 0 <= j < i && Shown(ports, j)
      ensures ports[j].port != sp.port || (if ports[j].protocol == "" then "TCP" else ports[j].protocol) != sp.protocol
    {
      assert Shown(front, j);
    }
    assert MadeFirst(sp, ports, i);
  }

  lemma {:induction false} LeadersAreMade(ports: seq<PortSpec>, sp: ServicePort)
    requires sp in Leaders(ports)
    ensures Made(sp, ports)
  {
    var k := |ports| - 1;
    if sp in Leaders(ports[..k]) {
      LeadersAreMade(ports[..k], sp);
      MadeForLonger(sp, ports);
    } else {
      assert Leads(ports, k) && sp == AsService(ports[k]);
      forall j | 0 <= j < k && Shown(ports, j)
        ensures ports[j].port != sp.port || (if ports[j].protocol == "" then "TCP" else ports[j].protocol) != sp.protocol
      {
        assert Exposed(ports[j]) && SlotOf(ports[j]) != SlotOf(ports[k]);
      }
      assert MadeFirst(sp, ports, k);
    }
  }

  /** The Service has a port of that number and protocol. */
  ghost predicate Serves(s: seq<ServicePort>, port: int, protocol: string) {
    exists i :: 0 <= i < |s| && s[i].port == port && s[i].protocol == protocol
  }

  lemma UsedIsServed(s: seq<ServicePort>, x: Slot)
    requires x in UsedSlots(s)
    ensures Serves(s, x.port, x.protocol)
  {
    var sp :| sp in s && SlotUsed(sp) == x;
    var i :| 0 <= i < |s| && s[i] == sp;
    assert s[i].port == x.port && s[i].protocol == x.protocol;
  }

  /** Each port of the Service is made for a shown port of the profile, or is SFTP's, if that is enabled. */
  lemma ServiceComesFrom(profile: Profile, sp: ServicePort)
    requires sp in ServicePorts(profile)
    ensures Made(sp, profile.ports) || (profile.sftp && sp == ServicePort("sftp", 2022, "TCP"))
  {
    if sp in Leaders(profile.ports) {
      LeadersAreMade(profile.ports, sp);
    }
  }

  /** The Service serves each shown port under its protocol, TCP unless it names one. */
  lemma ServesShown(profile: Profile, i: nat)
    requires Shown(profile.ports, i)
    ensures Serves(ServicePorts(profile), profile.ports[i].port, if profile.ports[i].protocol == "" then "TCP" else profile.ports[i].protocol)
  {
    ServiceHasNoDuplicates(profile);
    assert profile.ports[i] in profile.ports && Exposed(profile.ports[i]);
    UsedIsServed(ServicePorts(profile), SlotOf(profile.ports[i]));
  }

  /** It serves SFTP on 2022 if enabled, and nothing twice. */
  lemma ServesSftpOnce(profile: Profile)
    ensures profile.sftp ==> Serves(ServicePorts(profile), 2022, "TCP")
    ensures var s := ServicePorts(profile);
      forall i, j :: 0 <= i < j < |s| ==> s[i].port != s[j].port || s[i].protocol != s[j].protocol
  {
    ServiceHasNoDuplicates(profile);
    if profile.sftp {
      UsedIsServed(ServicePorts(profile), SlotUsed(SFTP));
    }
    var s := ServicePorts(profile);
    forall i, j | 0 <= i < j < |s| ensures s[i].port != s[j].port || s[i].protocol != s[j].protocol {
      assert SlotUsed(s[i]) != SlotUsed(s[j]);
    }
  }

  lemma {:induction false} PublishedMeans(ports: seq<PortSpec>, address: string)
    ensures forall e :: e in Published(ports, address) <==> exists i :: Shown(ports, i) && e == Endpoint(ports[i].name, address, ports[i].port)
  {
    if ports != [] {
      var k := |ports| - 1;
      PublishedMeans(ports[..k], address);
      forall e ensures e in Published(ports, address) <==> exists i :: Shown(ports, i) && e == Endpoint(ports[i].name, address, ports[i].port) {
        if i :| Shown(ports[..k], i) && e == Endpoint(ports[..k][i].name, address, ports[..k][i].port) {
          assert Shown(ports, i) && e == Endpoint(ports[i].name, address, ports[i].port);
        }
        if Shown(ports, k) && e == Endpoint(ports[k].name, address, ports[k].port) {
          assert e in Published(ports, address);
        }
        if i :| Shown(ports, i) && e == Endpoint(ports[i].name, address, ports[i].port) && i < k {
          assert Shown(ports[..k], i);
        }
      }
    }
  }

  /**
   The endpoints, once there is an address: the DNS name if a zone is set, else the ingress IP, else its
   host name.  One for each shown port under its own name, and SFTP's if enabled; none without an address.
   */
  lemma EndpointsMean(profile: Profile, server: string, zone: string, ingress: Option<Ingress>, e: Endpoint)
    ensures var address :=
        if zone != "" then server + "." + zone
        else if ingress == None then ""
        else if ingress.value.ip == "" then ingress.value.hostname else ingress.value.ip;
      e in Endpoints(profile, Address(server, zone, ingress)) <==>
        && address != ""
        && ((exists i :: Shown(profile.ports, i) && e == Endpoint(profile.ports[i].name, address, profile.ports[i].port))
            || (profile.sftp && e == Endpoint("sftp", address, 2022)))
  {
    PublishedMeans(profile.ports, Address(server, zone, ingress));
  }
}
