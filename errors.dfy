/** The error kinds of pkg/error: every error the application reports carries one kind. */
module Errors {
  import opened GoTypes

  const DatasourceError: int := 0
  const DomainError: int := 1
  const TransportError: int := 2

  /** The unexported `err` struct behind the `Contract` interface. */
  datatype Contract = Err(err: GoError, errType: int)
  {
    function GetType(): int { errType }
    function GetError(): GoError { err }
    function GetMessage(): string { err.message }
    predicate IsTransportLevelErr() { errType == TransportError }
    predicate IsDomainError() { errType == DomainError }
    predicate IsDatasourceErr() { errType == DatasourceError }
  }

  /** Whatever the kind number, at most one of the three predicates holds. */
  lemma AtMostOneKind(c: Contract)
    ensures !(c.IsDatasourceErr() && c.IsDomainError())
    ensures !(c.IsDatasourceErr() && c.IsTransportLevelErr())
    ensures !(c.IsDomainError() && c.IsTransportLevelErr())
  {
  }

  function NewDatasource(e: GoError): (r: Contract)
    ensures r.IsDatasourceErr() && !r.IsDomainError() && !r.IsTransportLevelErr()
    ensures r.GetError() == e && r.GetMessage() == e.message
  {
    Err(e, DatasourceError)
  }

  function NewDomain(e: GoError): (r: Contract)
    ensures r.IsDomainError() && !r.IsDatasourceErr() && !r.IsTransportLevelErr()
    ensures r.GetError() == e && r.GetMessage() == e.message
  {
    Err(e, DomainError)
  }

  function NewTransport(e: GoError): (r: Contract)
    ensures r.IsTransportLevelErr() && !r.IsDatasourceErr() && !r.IsDomainError()
    ensures r.GetError() == e && r.GetMessage() == e.message
  {
    Err(e, TransportError)
  }

  /** An error built by one of the three constructors. */
  predicate Constructed(c: Contract)
  {
    c == NewDatasource(c.err) || c == NewDomain(c.err) || c == NewTransport(c.err)
  }

  /** Every constructed error answers exactly one of the three kind predicates. */
  lemma ExactlyOneKind(c: Contract)
    requires Constructed(c)
    ensures c.IsDatasourceErr() || c.IsDomainError() || c.IsTransportLevelErr()
    ensures !(c.IsDatasourceErr() && c.IsDomainError())
    ensures !(c.IsDatasourceErr() && c.IsTransportLevelErr())
    ensures !(c.IsDomainError() && c.IsTransportLevelErr())
  {
  }
}
