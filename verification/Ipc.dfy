/** The daemon state shown to clients. */
module Ipc {
  import opened MapRange
  import opened NameOrder

  /** One active forward. Process id, start time and command line are not modelled. */
  datatype Entry = Entry(
    port: int,
    remoteHost: string,
    remotePort: int,
    resource: string,
    ip: string,
    proxyPort: int,
    domain: string,
    tool: string,
    tls: bool
  )

  class StateStore {
    var entries: map<int, Entry>

    constructor ()
      ensures entries == map[]
    {
      entries := map[];
    }

    method Set(e: Entry)
      modifies this
      ensures entries == old(entries)[e.port := e]
    {
      entries := entries[e.port := e];
    }

    method Delete(port: int)
      modifies this
      ensures entries == old(entries) - {port}
    {
      entries := entries - {port};
    }

    /** Lists each entry exactly once, in the order `ports` in which the map was ranged over. */
    method All() returns (out: seq<Entry>, ghost ports: seq<int>)
      ensures Enumerates(ports, entries.Keys)
      ensures |out| == |entries| && forall e :: e in out <==> e in entries.Values
      ensures |out| == |ports|
      ensures forall i :: 0 <= i < |ports| ==> ports[i] in entries && out[i] == entries[ports[i]]
    {
      out, ports := [], [];
      var rest := entries.Keys;
      while rest != {}
        invariant rest <= entries.Keys
        invariant NoDuplicates(ports)
        invariant forall p :: p in ports <==> p in entries && p !in rest
        invariant |out| == |ports| && |ports| + |rest| == |entries|
        invariant forall i :: 0 <= i < |ports| ==> ports[i] in entries && out[i] == entries[ports[i]]
        decreases rest
      {
        var port := Pick(rest);
        rest := rest - {port};
        out, ports := out + [entries[port]], ports + [port];
      }
    }
  }
}
