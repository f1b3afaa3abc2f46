/** Stand-ins for the collaborators of the dispatcher whose classes are not
    part of this model (`CallRequest`, `CallConfig`, `Throwable`, the
    protocol-specific result object, a `Runnable`). Each is an abstract record carrying
    only what the core reads from it. */
module Calls {
  import opened Wrappers

  /** A `CallConfig`: the core reads only `isFailOverAllowed()`. */
  datatype CallConfig = CallConfig(name: string, failOverAllowed: bool)

  /** A `CallRequest`: an opaque payload plus `getCallConfig()`, which may
      be null. */
  datatype CallRequest = CallRequest(payload: nat, callConfig: Option<CallConfig>)

  /** Any Java exception or error, identified by its class name. */
  datatype Throwable = Throwable(className: string, message: Option<string>)

  /** The object a successful call returns. */
  datatype Value = Value(payload: nat)

  /** A task handed to `controlTimeOut`. */
  datatype Runnable = Runnable(id: nat)
}
