/** What the provider raises: its own exception classes, the remote API's
    failures, and the Python runtime errors some paths end in. */
module Errors {
  import opened Json
  import opened Hosts

  /** The reason carried by a ValidationError. */
  datatype Issue =
    | FlavorNotFound(flavor: Json, flavorRef: Json)
    | ImageNotFound(image: Json, imageRef: Json)
    | NetworkNotFound(spec: Json)
    | NotEnoughResources

  /** A Python built-in exception raised by the provider's own code. */
  datatype Fault =
    | UnboundLocal(variable: string)     // UnboundLocalError
    | NoneNotSubscriptable               // TypeError: None[...]
    | MissingAttribute(attribute: string) // AttributeError

  /** A remote call whose failure propagates out of the provider. */
  datatype RemoteCall = CreateCall | PollCall(uuid: string) | DeleteCall(uuid: string)

  datatype Error =
    | ValidationError(issue: Issue)
    | ServerNotFoundError(uuid: string)
    | ProvisioningError(records: seq<ServerRecord>)
    | RemoteError(call: RemoteCall)
    | RuntimeFault(fault: Fault)
}
