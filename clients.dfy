/** Client identity: the network endpoint a request came from. */
module Clients {

  /** A caller, identified by host and port. The source stores the port as a
      64-bit unsigned integer filled from a 16-bit socket port, so it is never
      negative and never wraps. */
  datatype Client = Client(host: string, port: nat)

  /** The source's own equality on clients: the host and the port both match.
      It coincides with structural equality, so `in` on a sequence of clients
      is the membership test the source performs with `position`. */
  function Eq(a: Client, b: Client): (r: bool)
    ensures r <==> a == b
  {
    a.host == b.host && a.port == b.port
  }
}
