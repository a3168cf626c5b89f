/** Session protocols of a server connection. */
module SessionProtocols {

  /** HTTP/1 over TLS, HTTP/1 cleartext, HTTP/2 over TLS, HTTP/2 cleartext. */
  datatype SessionProtocol = H1 | H1C | H2 | H2C {

    /** Whether many streams share the connection (the HTTP/2 protocols). */
    predicate IsMultiplex() {
      this == H2 || this == H2C
    }

    predicate IsTls() {
      this == H1 || this == H2
    }
  }

  /** The protocol after an HTTP/2 settings frame arrives: HTTP/1 moves to
      HTTP/2 over the same transport, HTTP/2 stays as it is. */
  function Upgraded(p: SessionProtocol): (r: SessionProtocol)
    ensures r.IsMultiplex()
    ensures r.IsTls() == p.IsTls()
    ensures p.IsMultiplex() ==> r == p
  {
    match p
    case H1 => H2
    case H1C => H2C
    case _ => p
  }

  /** The properties of `Upgraded` determine it: any protocol that is
      multiplexed and keeps the transport's TLS-ness is the upgrade. */
  lemma UpgradedUnique(p: SessionProtocol, q: SessionProtocol)
    requires q.IsMultiplex() && q.IsTls() == p.IsTls()
    ensures q == Upgraded(p)
  {
  }
}
