/** The closed family of call exceptions a dispatcher records: the
    connection failures (`ConnectionCallException` and its five final
    subclasses), after which the call was certainly not processed, and the
    other generic failures, after which it possibly was. */
module CallExceptions {
  import opened Wrappers
  import opened Calls
  import opened TargetDescriptors

  /** The concrete exception classes. */
  datatype Kind =
    | ConnectionRefused
    | ConnectionTimeOut
    | UnknownHost
    | NoRouteToHost
    | SSLConnect
    | SocketTimeOut
    | TotalTimeOut
    | IOError
    | UnexpectedException

  /** The kinds that extend `ConnectionCallException`. */
  predicate IsConnectionKind(k: Kind)
  {
    k.ConnectionRefused? || k.ConnectionTimeOut? || k.UnknownHost? || k.NoRouteToHost? || k.SSLConnect?
  }

  /** `isCallPossiblyProcessed()`: fixed per class, final `false` for every
      connection failure and `true` for the other kinds. */
  function PossiblyProcessed(k: Kind): (p: bool)
    ensures p <==> !IsConnectionKind(k)
  {
    match k
    case ConnectionRefused => false
    case ConnectionTimeOut => false
    case UnknownHost => false
    case NoRouteToHost => false
    case SSLConnect => false
    case SocketTimeOut => true
    case TotalTimeOut => true
    case IOError => true
    case UnexpectedException => true
  }

  /** The short reason each class passes to its superclass constructor. */
  function ShortReason(k: Kind): string
  {
    match k
    case ConnectionRefused => "Connection refused"
    case ConnectionTimeOut => "Connection time-out"
    case UnknownHost => "Unknown host"
    case NoRouteToHost => "No route to host"
    case SSLConnect => "SSL-level connect failed"
    case SocketTimeOut => "Socket time-out"
    case TotalTimeOut => "Total time-out"
    case IOError => "I/O error"
    case UnexpectedException => "Unexpected exception caught"
  }

  /** The short reason identifies the kind. */
  lemma ShortReasonInjective(k1: Kind, k2: Kind)
    ensures ShortReason(k1) == ShortReason(k2) <==> k1 == k2
  {
  }

  /** A constructed call exception. The `setNext` link is not a field here:
      the dispatcher's chain is modelled as the sequence of its failures. */
  datatype CallException = CallException(
    kind: Kind,
    shortReason: string,
    request: CallRequest,
    target: TargetDescriptor,
    duration: int,
    detail: Option<string>,
    cause: Option<Throwable>)

  /** `IllegalArgumentException` from an argument check. */
  datatype ArgumentError = IllegalArgument

  /** What every kind constructor guarantees about the exception it builds. */
  predicate WellFormed(e: CallException)
  {
    && e.shortReason == ShortReason(e.kind)
    && e.duration >= 0
    && (e.kind.SSLConnect? || e.kind.UnexpectedException? ==> e.cause.Some?)
    && (!e.kind.UnexpectedException? ==> e.detail.None?)
    && (!(e.kind.SSLConnect? || e.kind.IOError? || e.kind.UnexpectedException?) ==> e.cause.None?)
  }

  /** The package-private `GenericCallException` constructor: the short
      reason, request and target must be non-null and the duration
      non-negative; every argument is passed on unchanged. */
  function NewGeneric(kind: Kind, shortReason: Option<string>, request: Option<CallRequest>,
                      target: Option<TargetDescriptor>, duration: int,
                      detail: Option<string>, cause: Option<Throwable>)
    : (r: Result<CallException, ArgumentError>)
    ensures r.Success? <==> shortReason.Some? && request.Some? && target.Some? && duration >= 0
    ensures r.Success? ==>
      && r.value.kind == kind
      && Some(r.value.shortReason) == shortReason
      && Some(r.value.request) == request
      && Some(r.value.target) == target
      && r.value.duration == duration
      && r.value.detail == detail
      && r.value.cause == cause
  {
    if shortReason.None? || request.None? || target.None? || duration < 0 then
      Failure(IllegalArgument)
    else
      Success(CallException(kind, shortReason.value, request.value, target.value, duration, detail, cause))
  }

  /** The `ConnectionCallException` constructor: a pass-through to
      `NewGeneric`, open only to the connection kinds. */
  function NewConnection(kind: Kind, shortReason: Option<string>, request: Option<CallRequest>,
                         target: Option<TargetDescriptor>, duration: int,
                         detail: Option<string>, cause: Option<Throwable>)
    : (r: Result<CallException, ArgumentError>)
    requires IsConnectionKind(kind)
    ensures r == NewGeneric(kind, shortReason, request, target, duration, detail, cause)
    ensures r.Success? ==> !PossiblyProcessed(r.value.kind)
  {
    NewGeneric(kind, shortReason, request, target, duration, detail, cause)
  }

  /** The constructor shared by the kinds that take only a request, a target
      and a duration. */
  function NewPlain(kind: Kind, request: Option<CallRequest>, target: Option<TargetDescriptor>, duration: int)
    : (r: Result<CallException, ArgumentError>)
    requires !(kind.SSLConnect? || kind.IOError? || kind.UnexpectedException?)
    ensures r.Success? <==> request.Some? && target.Some? && duration >= 0
    ensures r.Success? ==> WellFormed(r.value) && r.value.kind == kind
    ensures r.Success? ==> r.value.detail.None? && r.value.cause.None?
    ensures r.Success? ==> Some(r.value.request) == request && Some(r.value.target) == target
    ensures r.Success? ==> r.value.duration == duration
  {
    if IsConnectionKind(kind) then NewConnection(kind, Some(ShortReason(kind)), request, target, duration, None, None)
    else NewGeneric(kind, Some(ShortReason(kind)), request, target, duration, None, None)
  }

  /** `new ConnectionRefusedCallException(request, target, duration)`. */
  function NewConnectionRefused(request: Option<CallRequest>, target: Option<TargetDescriptor>, duration: int)
    : (r: Result<CallException, ArgumentError>)
    ensures r.Success? <==> request.Some? && target.Some? && duration >= 0
    ensures r.Success? ==> WellFormed(r.value) && r.value.shortReason == "Connection refused"
    ensures r.Success? ==> !PossiblyProcessed(r.value.kind)
  {
    NewPlain(ConnectionRefused, request, target, duration)
  }

  /** `new ConnectionTimeOutCallException(request, target, duration)`. */
  function NewConnectionTimeOut(request: Option<CallRequest>, target: Option<TargetDescriptor>, duration: int)
    : (r: Result<CallException, ArgumentError>)
    ensures r.Success? <==> request.Some? && target.Some? && duration >= 0
    ensures r.Success? ==> WellFormed(r.value) && r.value.shortReason == "Connection time-out"
    ensures r.Success? ==> !PossiblyProcessed(r.value.kind)
  {
    NewPlain(ConnectionTimeOut, request, target, duration)
  }

  /** `new UnknownHostCallException(request, target, duration)`. */
  function NewUnknownHost(request: Option<CallRequest>, target: Option<TargetDescriptor>, duration: int)
    : (r: Result<CallException, ArgumentError>)
    ensures r.Success? <==> request.Some? && target.Some? && duration >= 0
    ensures r.Success? ==> WellFormed(r.value) && r.value.shortReason == "Unknown host"
    ensures r.Success? ==> !PossiblyProcessed(r.value.kind)
  {
    NewPlain(UnknownHost, request, target, duration)
  }

  /** `new NoRouteToHostCallException(request, target, duration)`. */
  function NewNoRouteToHost(request: Option<CallRequest>, target: Option<TargetDescriptor>, duration: int)
    : (r: Result<CallException, ArgumentError>)
    ensures r.Success? <==> request.Some? && target.Some? && duration >= 0
    ensures r.Success? ==> WellFormed(r.value) && r.value.shortReason == "No route to host"
    ensures r.Success? ==> !PossiblyProcessed(r.value.kind)
  {
    NewPlain(NoRouteToHost, request, target, duration)
  }

  /** `new SocketTimeOutCallException(request, target, duration)`: not a
      connection failure, so the call may have been processed. */
  function NewSocketTimeOut(request: Option<CallRequest>, target: Option<TargetDescriptor>, duration: int)
    : (r: Result<CallException, ArgumentError>)
    ensures r.Success? <==> request.Some? && target.Some? && duration >= 0
    ensures r.Success? ==> WellFormed(r.value) && r.value.shortReason == "Socket time-out"
    ensures r.Success? ==> PossiblyProcessed(r.value.kind)
  {
    NewPlain(SocketTimeOut, request, target, duration)
  }

  /** `new TotalTimeOutCallException(request, target, duration)`. */
  function NewTotalTimeOut(request: Option<CallRequest>, target: Option<TargetDescriptor>, duration: int)
    : (r: Result<CallException, ArgumentError>)
    ensures r.Success? <==> request.Some? && target.Some? && duration >= 0
    ensures r.Success? ==> WellFormed(r.value) && r.value.shortReason == "Total time-out"
    ensures r.Success? ==> PossiblyProcessed(r.value.kind)
  {
    NewPlain(TotalTimeOut, request, target, duration)
  }

  /** `new SSLConnectCallException(request, target, duration, cause)`: the
      superclass checks come first, then the cause must be non-null. */
  function NewSSLConnect(request: Option<CallRequest>, target: Option<TargetDescriptor>, duration: int,
                         cause: Option<Throwable>)
    : (r: Result<CallException, ArgumentError>)
    ensures r.Success? <==> request.Some? && target.Some? && duration >= 0 && cause.Some?
    ensures r.Success? ==> WellFormed(r.value) && r.value.kind == SSLConnect
    ensures r.Success? ==> r.value.shortReason == "SSL-level connect failed" && r.value.cause == cause
    ensures r.Success? ==> !PossiblyProcessed(r.value.kind)
  {
    var e := NewConnection(SSLConnect, Some(ShortReason(SSLConnect)), request, target, duration, None, cause);
    if e.Failure? then e
    else if cause.None? then Failure(IllegalArgument)
    else e
  }

  /** `new IOCallException(request, target, duration, ioException)`. The
      null check its documentation promises for `ioException` is not in
      the code, so a missing cause is accepted. */
  function NewIOError(request: Option<CallRequest>, target: Option<TargetDescriptor>, duration: int,
                      ioException: Option<Throwable>)
    : (r: Result<CallException, ArgumentError>)
    ensures r.Success? <==> request.Some? && target.Some? && duration >= 0
    ensures r.Success? ==> WellFormed(r.value) && r.value.kind == IOError
    ensures r.Success? ==> r.value.shortReason == "I/O error" && r.value.cause == ioException
    ensures r.Success? ==> PossiblyProcessed(r.value.kind)
  {
    NewGeneric(IOError, Some(ShortReason(IOError)), request, target, duration, None, ioException)
  }

  /** `new UnexpectedExceptionCallException(request, target, duration,
      detail, cause)`: the detail is kept, the cause is mandatory. */
  function NewUnexpected(request: Option<CallRequest>, target: Option<TargetDescriptor>, duration: int,
                         detail: Option<string>, cause: Option<Throwable>)
    : (r: Result<CallException, ArgumentError>)
    ensures r.Success? <==> request.Some? && target.Some? && duration >= 0 && cause.Some?
    ensures r.Success? ==> WellFormed(r.value) && r.value.kind == UnexpectedException
    ensures r.Success? ==> r.value.shortReason == "Unexpected exception caught"
    ensures r.Success? ==> r.value.detail == detail && r.value.cause == cause
    ensures r.Success? ==> PossiblyProcessed(r.value.kind)
  {
    var e := NewGeneric(UnexpectedException, Some(ShortReason(UnexpectedException)), request, target,
                        duration, detail, cause);
    if e.Failure? then e
    else if cause.None? then Failure(IllegalArgument)
    else e
  }
}
