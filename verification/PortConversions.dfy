/** The shapes a port mapping takes on its way from the command line to the network layer:
    runtime, wire, store, wire, runtime, CNI. */
module PortConversions {
  import opened Types

  function ToApi(p: Port): ApiPort {
    ApiPort(p.hostPort, p.containerPort, p.protocol)
  }

  function FromApi(p: ApiPort): Port {
    Port(p.hostPort, p.containerPort, p.protocol)
  }

  function Widen(p: ApiPort): StorePort {
    StorePort(p.hostPort, p.containerPort, p.protocol)
  }

  /** Go's uint16(n): the low sixteen bits. */
  function Truncate(n: int): U16 {
    n % 0x1_0000
  }

  function Narrow(p: StorePort): ApiPort {
    ApiPort(Truncate(p.hostPort), Truncate(p.containerPort), p.protocol)
  }

  /** Narrowing loses nothing exactly when both ports fit in sixteen bits. */
  lemma NarrowingLossless(p: StorePort)
    ensures Widen(Narrow(p)) == p <==> Fits(p)
    ensures (p.hostPort - Narrow(p).hostPort) % 0x1_0000 == 0 && (p.containerPort - Narrow(p).containerPort) % 0x1_0000 == 0
    ensures Narrow(p).protocol == p.protocol
  {
  }

  /** cmd/ambudctl toAPIPortMappings, and the agent's toAPIPorts. */
  method ToApiPorts(ports: seq<Port>) returns (out: seq<ApiPort>)
    ensures out == Map(ToApi, ports)
    ensures Map(FromApi, out) == ports
    ensures forall i :: 0 <= i < |ports| ==> out[i].hostPort == ports[i].hostPort && out[i].protocol == ports[i].protocol
  {
    out := [];
    for i := 0 to |ports|
      invariant out == Map(ToApi, ports[..i])
    {
      out := out + [ApiPort(ports[i].hostPort, ports[i].containerPort, ports[i].protocol)];
    }
    assert ports[..|ports|] == ports;
  }

  /** The agent's fromAPIPorts. */
  method FromApiPorts(ports: seq<ApiPort>) returns (out: seq<Port>)
    ensures out == Map(FromApi, ports)
    ensures Map(ToApi, out) == ports
    ensures forall i :: 0 <= i < |ports| ==> out[i].hostPort == ports[i].hostPort && out[i].protocol == ports[i].protocol
  {
    out := [];
    for i := 0 to |ports|
      invariant out == Map(FromApi, ports[..i])
    {
      out := out + [Port(ports[i].hostPort, ports[i].containerPort, ports[i].protocol)];
    }
    assert ports[..|ports|] == ports;
  }

  /** The control plane's fromAPIPorts: every port it hands to the store fits. */
  method WidenPorts(ports: seq<ApiPort>) returns (out: seq<StorePort>)
    ensures out == Map(Widen, ports)
    ensures forall i :: 0 <= i < |out| ==> Fits(out[i]) && out[i].hostPort == ports[i].hostPort
    ensures Map(Narrow, out) == ports
  {
    out := [];
    for i := 0 to |ports|
      invariant out == Map(Widen, ports[..i])
    {
      out := out + [StorePort(ports[i].hostPort, ports[i].containerPort, ports[i].protocol)];
    }
    assert ports[..|ports|] == ports;
  }

  /** The control plane's toAPIPorts: undone by widening when every port fits. */
  method NarrowPorts(ports: seq<StorePort>) returns (out: seq<ApiPort>)
    ensures out == Map(Narrow, ports)
    ensures (forall i :: 0 <= i < |ports| ==> Fits(ports[i])) ==> Map(Widen, out) == ports
  {
    out := [];
    for i := 0 to |ports|
      invariant out == Map(Narrow, ports[..i])
    {
      out := out + [ApiPort(Truncate(ports[i].hostPort), Truncate(ports[i].containerPort), ports[i].protocol)];
    }
    assert ports[..|ports|] == ports;
  }
}
