/** What travels between the gateway, the Bridge and its MCP child.

    JSON is abstract: a frame is an optional id plus its content. An `Origin`
    names the request a frame belongs to. Routing code looks at ids only, never
    at an origin; origins exist so that the theorems can say whose answer a
    frame carries.
  */
module Wire {
  import opened Common

  type GatewayId = nat

  /** A JSON-RPC id; the number 1 and the string "1" are different ids. */
  datatype JsonId = Num(n: int) | Text(t: nat)

  datatype Origin = BringUp(step: int) | Call(gatewayId: GatewayId)

  /** `Outcome` is a result or a structured error; `Method` is a request or
      notification of the child's own. */
  datatype Content = Outcome(origin: Origin, failed: bool, body: int) | Method

  datatype Frame = Frame(id: Option<JsonId>, content: Content)

  /** A request frame written to the child's stdin. */
  datatype ChildRequest = ChildRequest(id: Option<JsonId>, origin: Origin)

  /** Envelopes the gateway sends down and the Bridge sends back. */
  datatype Down =
    | RequestEnv(gatewayId: GatewayId, id: Option<JsonId>, deadline: Option<int>)
    | CancelEnv(gatewayId: GatewayId)

  datatype Response = Response(gatewayId: GatewayId, payload: Frame)
}
