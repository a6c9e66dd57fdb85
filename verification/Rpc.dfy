/** Typed failures of the wire (rpc.ts). */
module Rpc {
  import opened Json

  datatype RpcError = RpcError(code: int, message: string, data: Option<Fields>)

  datatype FailureKind = Auth | Protocol | RpcKind | Transport

  datatype WireFailure = WireFailure(kind: FailureKind, reason: Option<string>, rpcError: Option<RpcError>)

  /** Failures that back-off cannot heal: they lock the transport instead. */
  predicate IsLockCandidate(kind: FailureKind) { kind.Auth? || kind.Protocol? }

  function ReasonOf(e: RpcError): Option<string> {
    if e.data.Some? then StrAt(e.data.value, "reason") else None
  }

  /** The engine refuses authentication inside a JSON-RPC error, not by HTTP status. */
  function ClassifyRpcError(e: RpcError): WireFailure {
    var reason := ReasonOf(e);
    if e.code == -32000 && (reason == Some("auth_required") || reason == Some("ZERO_CHECK_FAILED"))
    then WireFailure(Auth, None, Some(e))
    else WireFailure(RpcKind, None, Some(e))
  }

  function ProtocolFailure(reason: string): WireFailure { WireFailure(Protocol, Some(reason), None) }

  function TransportFailure(reason: string): WireFailure { WireFailure(Transport, Some(reason), None) }
}
