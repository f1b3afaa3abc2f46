# jcaller in Dafny

A Dafny model of the core of jcaller (`org.znerd.jcaller`), a fail-over call
dispatcher. A `Caller` holds a `Descriptor`: either one `TargetDescriptor`,
a service URL with its time-outs and checksum, or a group of them. On
`doCall` it tries the targets in order. Each failure is recorded as a
`CallException`, and the caller fails over to the next target when the
fail-over policy allows it. It returns the first success, or throws the
first recorded exception once it gives up.

The model has these modules:

- `Wrappers` (`wrappers.dfy`): `Option`, `Result` and `Outcome`. A Java
  `null` argument is `None`, and a thrown exception is a `Failure`/`Fail`.
- `Strings` (`strings.dfy`): `indexOf`, ASCII lower-casing and decimal
  rendering of `int`s, with a parser that reads the rendering back.
- `Checksum` (`checksum.dfy`): the CRC-32 that `java.util.zip.CRC32`
  computes. It uses the reflected polynomial 0xEDB88320, and its input is
  the US-ASCII bytes of the URL. `computeCRC32` is an imperative method
  proved equal to the specification function.
- `Calls` (`calls.dfy`): the records the core only passes around
  (`CallRequest`, `CallConfig`, a thrown `Throwable`, a returned value).
- `TargetDescriptors` (`target_descriptors.dfy`): the URL test
  `testURL` with its sub-protocol fallback, and the four constructors with
  their time-out normalisation. It also covers `getProtocol`, `equals`,
  `hashCode`, `getTargetByCRC` and `toString`.
- `Descriptors` (`descriptors.dfy`): `Descriptor` as a single target or a
  group of leaves.
- `CallExceptions` (`call_exceptions.dfy`): the nine concrete call
  exception classes. For each it gives the argument checks, the short
  reason and `isCallPossiblyProcessed`.
- `ExceptionLists` (`exception_lists.dfy`): `CallExceptionList`, a class
  whose list field grows by `add`.
- `PropertyExceptions` (`property_exceptions.dfy`): `PropertyException`,
  `InvalidPropertyValueException` and `MissingRequiredPropertyException`,
  with their message builders.
- `Callers` (`callers.dfy`):
  - the class `Caller`, with the `_descriptor` and `_callConfig` fields and
    the methods that update them;
  - the fail-over policy;
  - the `doCall` loop, proved against the recursive specification
    function `Run`.

  The callbacks `doCall` makes on the library context are returned as a
  ghost trace of `Event`s. `doCallImpl` is a function parameter (`CallImpl`)
  that says, for each attempt, whether it succeeded and after how long.

Where the code and its own documentation disagree, the model follows the
code:

- **Fallback overrides the host rule.** `testURL` accepts a URL when the
  text after its first `:` passes, whatever the URL's own scheme is. So
  `http:mailto:x` is accepted although `http` requires a host
  (`TargetDescriptors.HostlessUrlAcceptedThroughFallback`).
- **Time-outs can be 0.** The field comments of `TargetDescriptor` call the
  connection and socket time-outs always positive. The constructor makes
  them 0 when the total time-out is 0 (`TargetDescriptors.NormalisedPart`,
  `TargetDescriptors.Valid`).
- **`IOCallException` does not check its cause.** Its documentation says
  `ioException` must be non-null, but `getShortReason` checks nothing
  (`CallExceptions.NewIOError`).
- **A URL without `://` breaks `getProtocol`.** It calls
  `substring(0, -1)`, which throws `StringIndexOutOfBoundsException`.
  `testTargetDescriptor` does not catch that exception, so `setDescriptor`
  and the `Caller` constructor pass it on
  (`Callers.TestTargetDescriptor`, `CallerError.StringIndexOutOfBounds`).
- **`equals` and `toString` disagree.** `equals` ignores the instance
  number, but `toString` prints it, so equal descriptors can print
  differently (`TargetDescriptors.EqualDescriptorsMayPrintDifferently`).
- **The reported success duration is measured early.** In `doCall` the
  duration passed to `targetCallSucceeded` is taken before `doCallImpl`
  runs. The model takes it as the `lag` of the attempt and makes no claim
  about its size.

## Model

| member | source | states |
|---|---|---|
| Checksum.AsciiByte | src/main/java/org/znerd/jcaller/TargetDescriptor.java:78-80 | an ASCII character is encoded as its own code; any other character as '?' |
| Checksum.AsciiBytes | src/main/java/org/znerd/jcaller/TargetDescriptor.java:78-80 | the encoding has one byte per character, each the encoding of that character |
| Checksum.ToInt32 | src/main/java/org/znerd/jcaller/TargetDescriptor.java:89 | the 32-bit checksum read as a signed `int`: non-negative exactly when below 2^31, and congruent to the unsigned value modulo 2^32 |
| Checksum.Unsigned | src/main/java/org/znerd/jcaller/TargetDescriptor.java:89 | the unsigned reading of 32 bits is below 2^32 |
| Checksum.Crc32 | src/main/java/org/znerd/jcaller/TargetDescriptor.java:73-90 | the CRC-32 of the empty message is 0 |
| Checksum.Crc32Append | src/main/java/org/znerd/jcaller/TargetDescriptor.java:73-90 | the CRC-32 of a longer message follows from the CRC-32 of its first part and the remaining bytes, so `update` may be fed in pieces |
| Checksum.UrlChecksum | src/main/java/org/znerd/jcaller/TargetDescriptor.java:73-90 | the stored checksum is the CRC-32 of the URL's US-ASCII bytes, read as an `int`: equal to it or 2^32 below it |
| Checksum.UpdateAppend | src/main/java/org/znerd/jcaller/TargetDescriptor.java:73-90 | feeding bytes in two chunks yields the same register as feeding them at once |
| Checksum.CheckValue | src/main/java/org/znerd/jcaller/TargetDescriptor.java:73-90 | the checksum of "a" is the standard CRC-32 value 0xE8B7BE43 |
| Checksum.ComputeCRC32 | src/main/java/org/znerd/jcaller/TargetDescriptor.java:73-90 | the byte-by-byte loop computes the CRC-32 of the URL's US-ASCII bytes, as an `int` |
| Strings.IndexOf | src/main/java/org/znerd/jcaller/TargetDescriptor.java:391 | the result is the first index where the pattern occurs, or -1 when it occurs nowhere |
| Strings.IndexFrom | src/main/java/org/znerd/jcaller/TargetDescriptor.java:150 | the first occurrence at or after a given index, or -1 |
| Strings.ToLowerCase | src/main/java/org/znerd/jcaller/Caller.java:304 | same length; each upper-case ASCII letter becomes its lower-case letter, every other character is kept, and no upper-case letter remains |
| Strings.ToLowerCaseIdempotent | src/main/java/org/znerd/jcaller/Caller.java:304 | lower-casing twice is lower-casing once |
| Strings.NatToDecimal | src/main/java/org/znerd/jcaller/TargetDescriptor.java:538 | a non-empty string of digits without a leading zero |
| Strings.NatToDecimalValue | src/main/java/org/znerd/jcaller/TargetDescriptor.java:538 | the digits of a natural number read back as that number |
| Strings.IntToDecimalRoundTrip | src/main/java/org/znerd/jcaller/TargetDescriptor.java:538 | the decimal text of every `int` parses back to it |
| TargetDescriptors.SubProtocolRest | src/main/java/org/znerd/jcaller/TargetDescriptor.java:150-153 | the text the fallback tests is strictly shorter than the URL |
| TargetDescriptors.TestURL | src/main/java/org/znerd/jcaller/TargetDescriptor.java:108-166 | null is an illegal argument; the URL passes exactly when it or a text left after stripping through its first ':' is an absolute URI with a host where its scheme needs one; otherwise `MalformedURLException` for that URL |
| TargetDescriptors.StripChain | src/main/java/org/znerd/jcaller/TargetDescriptor.java:146-157 | the strings `testURL` examines begin with the URL itself |
| TargetDescriptors.StripAcceptedMakesValid | src/main/java/org/znerd/jcaller/TargetDescriptor.java:146-157 | a URL is valid when any string of its strip chain parses as an acceptable URI |
| TargetDescriptors.ValidHasAcceptedStrip | src/main/java/org/znerd/jcaller/TargetDescriptor.java:108-166 | a valid URL has a string in its strip chain that parses as an acceptable URI |
| TargetDescriptors.ValidUrlIffSomeStripAccepted | src/main/java/org/znerd/jcaller/TargetDescriptor.java:108-166 | a URL is accepted if and only if some string of its strip chain parses as an acceptable URI |
| TargetDescriptors.SubProtocolTolerated | src/main/java/org/znerd/jcaller/TargetDescriptor.java:146-157 | a valid URL behind a colon-free, non-empty prefix and ':' is valid, as in `jdbc:mysql://...` |
| TargetDescriptors.HostlessUrlAcceptedThroughFallback | src/main/java/org/znerd/jcaller/TargetDescriptor.java:124-157 | `http:mailto:x` fails the direct test, since http needs a host, yet is accepted through the fallback |
| TargetDescriptors.NormalisedPart | src/main/java/org/znerd/jcaller/TargetDescriptor.java:343-351 | a connection or socket time-out lies in [1, total] when a total is set and is 0 otherwise; a non-positive value becomes the total; a value within range is kept; a larger one is capped |
| TargetDescriptors.Valid | src/main/java/org/znerd/jcaller/TargetDescriptor.java:186-207 | the invariant of a constructed descriptor: the stored checksum is that of the URL, and the connection and socket time-outs never exceed the total |
| TargetDescriptors.ValidIffConstructed | src/main/java/org/znerd/jcaller/TargetDescriptor.java:327-361 | the invariant holds of exactly the descriptors the constructor builds from their own URL and time-outs |
| TargetDescriptors.New | src/main/java/org/znerd/jcaller/TargetDescriptor.java:327-361 | null URL and malformed URL errors exactly as `testURL` decides; a built descriptor keeps the URL and instance number, keeps the checksum invariant, turns a negative total into 0; a non-positive connection or socket time-out becomes the total, one within the total is kept, and one above the total is capped to it |
| TargetDescriptors.NewWithDefaultTimeOuts | src/main/java/org/znerd/jcaller/TargetDescriptor.java:229-232 | all three time-outs are 5000 ms |
| TargetDescriptors.NewWithTimeOut | src/main/java/org/znerd/jcaller/TargetDescriptor.java:254-257 | all three time-outs equal the normalised total |
| TargetDescriptors.NewWithConnectionTimeOut | src/main/java/org/znerd/jcaller/TargetDescriptor.java:287-290 | the socket time-out equals the normalised total; the connection time-out is normalised against it |
| TargetDescriptors.GetProtocol | src/main/java/org/znerd/jcaller/TargetDescriptor.java:390-393 | succeeds exactly when the URL contains "://", and then yields the prefix before the first occurrence |
| TargetDescriptors.ProtocolOfCompositeScheme | src/main/java/org/znerd/jcaller/TargetDescriptor.java:390-393 | the protocol of `jdbc:mysql://we.are.the.b.org/mydb/` is `jdbc:mysql` |
| TargetDescriptors.IsGroup | src/main/java/org/znerd/jcaller/TargetDescriptor.java:370-372 | a target descriptor is never a group |
| TargetDescriptors.Targets | src/main/java/org/znerd/jcaller/TargetDescriptor.java:440-442 | a leaf's targets are exactly itself |
| TargetDescriptors.GetTargetCount | src/main/java/org/znerd/jcaller/TargetDescriptor.java:450-452 | the count equals the number of targets |
| TargetDescriptors.GetTargetByCRC | src/main/java/org/znerd/jcaller/TargetDescriptor.java:465-467 | the leaf itself exactly when the checksum matches, else null |
| TargetDescriptors.HashCode | src/main/java/org/znerd/jcaller/TargetDescriptor.java:478-480 | the hash code of a constructed descriptor is the CRC-32 of its URL |
| TargetDescriptors.Equals | src/main/java/org/znerd/jcaller/TargetDescriptor.java:504-517 | null is never equal, a descriptor equals itself, and two descriptors are equal exactly when the URL and all three time-outs are equal |
| TargetDescriptors.EqualsIsEquivalence | src/main/java/org/znerd/jcaller/TargetDescriptor.java:504-517 | `equals` is reflexive, symmetric and transitive, is false for null, and equal descriptors hash alike |
| TargetDescriptors.TimeOutTextRoundTrip | src/main/java/org/znerd/jcaller/TargetDescriptor.java:544-561 | a time-out is printed as "disabled" exactly when below 1, otherwise as its decimal value, which reads back, followed by " ms" |
| TargetDescriptors.ToStringShape | src/main/java/org/znerd/jcaller/TargetDescriptor.java:532-566 | the text opens with "TargetDescriptor #", the instance number and the URL, and closes with ']' |
| TargetDescriptors.AppendTimeOut | src/main/java/org/znerd/jcaller/TargetDescriptor.java:544-561 | each time-out branch appends the time-out's text and the following literal |
| TargetDescriptors.BuildString | src/main/java/org/znerd/jcaller/TargetDescriptor.java:532-566 | the buffer ends up holding the descriptor's text: number, URL, hex checksum and the three time-outs |
| TargetDescriptors.EqualDescriptorsMayPrintDifferently | src/main/java/org/znerd/jcaller/TargetDescriptor.java:504-566 | two descriptors differing only in instance number are equal yet print differently |
| Descriptors.IsGroup | src/main/java/org/znerd/jcaller/Descriptor.java:40 | true exactly for a group; a single target answers as `TargetDescriptor.isGroup` |
| Descriptors.Targets | src/main/java/org/znerd/jcaller/Descriptor.java:49 | the leaves, at least one and all valid for a well-built descriptor |
| Descriptors.GetTargetCount | src/main/java/org/znerd/jcaller/Descriptor.java:57 | the number of leaves, at least 1 |
| Descriptors.FindByCRC | src/main/java/org/znerd/jcaller/Descriptor.java:70 | a leaf with that checksum, or none exactly when no leaf has it |
| Descriptors.GetTargetByCRC | src/main/java/org/znerd/jcaller/Descriptor.java:59-70 | a leaf of this descriptor with the given checksum, or null exactly when there is none |
| Descriptors.LookupByOwnChecksum | src/main/java/org/znerd/jcaller/Descriptor.java:59-70 | looking up a leaf by its own hash code always finds a valid leaf with that checksum |
| CallExceptions.PossiblyProcessed | src/main/java/org/znerd/jcaller/ConnectionCallException.java:66-68 | false exactly for the connection failures |
| CallExceptions.ShortReasonInjective | src/main/java/org/znerd/jcaller/ConnectionRefusedCallException.java:41 | the short reason identifies the exception class |
| CallExceptions.NewGeneric | src/main/java/org/znerd/jcaller/GenericCallException.java:42-50 | succeeds exactly when short reason, request and target are non-null and the duration is non-negative; keeps every argument |
| CallExceptions.NewConnection | src/main/java/org/znerd/jcaller/ConnectionCallException.java:48-56 | passes its arguments to the generic constructor; the result was certainly not processed |
| CallExceptions.NewPlain | src/main/java/org/znerd/jcaller/ConnectionRefusedCallException.java:37-42 | the shared constructor of the classes without cause and detail |
| CallExceptions.NewConnectionRefused | src/main/java/org/znerd/jcaller/ConnectionRefusedCallException.java:37-42 | the argument checks, the short reason "Connection refused", not processed |
| CallExceptions.NewConnectionTimeOut | src/main/java/org/znerd/jcaller/ConnectionTimeOutCallException.java:37-42 | the argument checks, "Connection time-out", not processed |
| CallExceptions.NewUnknownHost | src/main/java/org/znerd/jcaller/UnknownHostCallException.java:37-42 | the argument checks, "Unknown host", not processed |
| CallExceptions.NewNoRouteToHost | src/main/java/org/znerd/jcaller/NoRouteToHostCallException.java:45-50 | the argument checks, "No route to host", not processed |
| CallExceptions.NewSocketTimeOut | src/main/java/org/znerd/jcaller/SocketTimeOutCallException.java:45-50 | the argument checks, "Socket time-out", possibly processed |
| CallExceptions.NewTotalTimeOut | src/main/java/org/znerd/jcaller/TotalTimeOutCallException.java:45-50 | the argument checks, "Total time-out", possibly processed |
| CallExceptions.NewSSLConnect | src/main/java/org/znerd/jcaller/SSLConnectCallException.java:41-48 | the argument checks plus a mandatory cause, "SSL-level connect failed", not processed |
| CallExceptions.NewIOError | src/main/java/org/znerd/jcaller/IOCallException.java:40-76 | the argument checks but no cause check, "I/O error", the cause kept, possibly processed |
| CallExceptions.NewUnexpected | src/main/java/org/znerd/jcaller/UnexpectedExceptionCallException.java:45-53 | the argument checks plus a mandatory cause, "Unexpected exception caught", detail and cause kept |
| ExceptionLists.CallExceptionList.constructor | src/main/java/org/znerd/jcaller/CallExceptionList.java:26-28 | a new list is empty |
| ExceptionLists.CallExceptionList.Add | src/main/java/org/znerd/jcaller/CallExceptionList.java:36-39 | appends: the size grows by one, the new element is last, earlier elements are unchanged |
| ExceptionLists.CallExceptionList.Size | src/main/java/org/znerd/jcaller/CallExceptionList.java:47-49 | the number of elements, never negative |
| ExceptionLists.CallExceptionList.Get | src/main/java/org/znerd/jcaller/CallExceptionList.java:64-67 | the element at an index in [0, size), else `IndexOutOfBoundsException` |
| ExceptionLists.CallExceptionList.Last | src/main/java/org/znerd/jcaller/CallExceptionList.java:76-82 | null exactly for an empty list, else the element at size - 1 |
| PropertyExceptions.NewPropertyException | src/main/java/org/znerd/jcaller/PropertyException.java:29-37 | the name must be non-null; name, message and cause are kept |
| PropertyExceptions.PropertyNameRoundTrip | src/main/java/org/znerd/jcaller/PropertyException.java:50-52 | `getPropertyName` returns the name the exception was constructed with |
| PropertyExceptions.CreateInvalidValueMessage | src/main/java/org/znerd/jcaller/InvalidPropertyValueException.java:156-172 | name and value must be non-null; the reason may be null |
| PropertyExceptions.InvalidValueMessageDeterminesReason | src/main/java/org/znerd/jcaller/InvalidPropertyValueException.java:156-172 | for a fixed name and value, two messages are equal exactly when the reasons are |
| PropertyExceptions.NewInvalidPropertyValue | src/main/java/org/znerd/jcaller/InvalidPropertyValueException.java:121-135 | fails exactly on a null name or value; keeps name, value, reason and cause; the message is the built one |
| PropertyExceptions.NewInvalidPropertyValueWithoutReason | src/main/java/org/znerd/jcaller/InvalidPropertyValueException.java:46-51 | name and value kept; no reason and no cause; the message is the built text ending with a quote and a full stop |
| PropertyExceptions.NewInvalidPropertyValueWithReason | src/main/java/org/znerd/jcaller/InvalidPropertyValueException.java:70-75 | fails exactly on a null name or value; name, value and reason kept, no cause; the message is the one built with the reason |
| PropertyExceptions.NewInvalidPropertyValueWithCause | src/main/java/org/znerd/jcaller/InvalidPropertyValueException.java:94-99 | fails exactly on a null name or value; name, value and cause kept, no reason; the message is the one built without a reason |
| PropertyExceptions.CreateMissingMessage | src/main/java/org/znerd/jcaller/MissingRequiredPropertyException.java:80-91 | never fails; the message opens with the fixed text and the name (or "null"), and ends with a quote and a full stop without a detail, or with a quote, a colon and the detail |
| PropertyExceptions.MissingMessageDeterminesDetail | src/main/java/org/znerd/jcaller/MissingRequiredPropertyException.java:80-91 | for a fixed name, two messages are equal exactly when the details are |
| PropertyExceptions.NewMissingRequiredProperty | src/main/java/org/znerd/jcaller/MissingRequiredPropertyException.java:43-51 | fails exactly on a null name; keeps the name and detail; no cause; the message is the built one |
| PropertyExceptions.NewMissingRequiredPropertyWithoutDetail | src/main/java/org/znerd/jcaller/MissingRequiredPropertyException.java:62-65 | no detail; the message ends with a quote and a full stop |
| Callers.ResolveConfig | src/main/java/org/znerd/jcaller/Caller.java:466-471 | the argument wins, then the request's own configuration, then the caller's |
| Callers.AsCallException | src/main/java/org/znerd/jcaller/Caller.java:529-534 | a call exception is recorded as thrown; anything else is wrapped in an `UnexpectedExceptionCallException` with it as cause |
| Callers.FailOverWanted | src/main/java/org/znerd/jcaller/Caller.java:777-778 | fail over after any connection failure, or whenever the configuration allows it; otherwise not |
| Callers.ShouldFailOver | src/main/java/org/znerd/jcaller/Caller.java:761-779 | null arguments are rejected; an empty list is an `IllegalThreadStateException`; otherwise the policy applied to the last exception |
| Callers.Run | src/main/java/org/znerd/jcaller/Caller.java:497-570 | the loop delivers from a target that succeeded, with one failure per earlier attempt, or gives up after at least one new failure |
| Callers.RunOutcome | src/main/java/org/znerd/jcaller/Caller.java:497-577 | from any position: the earlier failures are kept as a prefix; a delivered call came from the first success after failures that all allowed fail-over; a call given up stopped at the last target or on a refused fail-over |
| Callers.FailedOverStep | src/main/java/org/znerd/jcaller/Caller.java:536-562 | a failure that lets the loop go on joins the failed-over prefix |
| Callers.DeliveredStep | src/main/java/org/znerd/jcaller/Caller.java:506-515 | a success ends the loop with its two callbacks |
| Callers.FailedAttemptStep | src/main/java/org/znerd/jcaller/Caller.java:519-562 | a failure records its exception and three callbacks, then continues or gives up as the policy and the next target decide |
| Callers.DispatchOutcome | src/main/java/org/znerd/jcaller/Caller.java:446-578 | the outcome of the whole dispatch: at most one attempt per target, at least one attempt, and the delivered/given-up cases as above |
| Callers.ConnectionFailuresTryEveryTarget | src/main/java/org/znerd/jcaller/Caller.java:554-562 | when every attempt fails with a connection failure, every target is tried once before giving up |
| Callers.PossiblyProcessedFailureStops | src/main/java/org/znerd/jcaller/Caller.java:554-562 | without fail-over permission, a first failure that may have been processed ends the call with that single exception |
| Callers.RunEvents | src/main/java/org/znerd/jcaller/Caller.java:506-574 | the callback trace from any position keeps the shape below |
| Callers.DeliveredEvents | src/main/java/org/znerd/jcaller/Caller.java:506-512 | a success adds `beforeTargetCall` and `targetCallSucceeded` |
| Callers.FailedEvents | src/main/java/org/znerd/jcaller/Caller.java:506-562 | a failure adds `beforeTargetCall`, `targetCallFailed` and `failoverDecided` |
| Callers.StoppedEvents | src/main/java/org/znerd/jcaller/Caller.java:558-574 | a failure that ends the loop is followed by `callCompletelyFailed` |
| Callers.BlocksKept | src/main/java/org/znerd/jcaller/Caller.java:506-574 | later callbacks do not change the ones already made |
| Callers.DispatchEvents | src/main/java/org/znerd/jcaller/Caller.java:446-578 | every attempt is announced and answered by exactly one success or failure callback; every failure is followed by `failoverDecided`; `callCompletelyFailed` comes exactly once, last, when and only when the call is given up |
| Callers.ControlTimeOut | src/main/java/org/znerd/jcaller/Caller.java:698-720 | task and descriptor must be non-null; the task runs inline exactly when the total time-out is below 1, otherwise under a controller with that time-out |
| Callers.DisabledTimeOutRunsInline | src/main/java/org/znerd/jcaller/Caller.java:698-720 | a descriptor built with a non-positive total time-out always runs its calls inline |
| Callers.IsProtocolSupported | src/main/java/org/znerd/jcaller/Caller.java:298-305 | a null protocol is rejected; the hook sees the lower-cased protocol, and its `UnsupportedOperationException` propagates |
| Callers.ProtocolCaseInsensitive | src/main/java/org/znerd/jcaller/Caller.java:298-305 | a protocol and its lower-cased form get the same answer |
| Callers.TestTargetDescriptor | src/main/java/org/znerd/jcaller/Caller.java:252-265 | a null target is rejected; a URL without "://" throws; otherwise the target passes exactly when its protocol is not declared unsupported, an unimplemented hook counting as a pass |
| Callers.VetTargets | src/main/java/org/znerd/jcaller/Caller.java:341-345 | all targets pass exactly when each does; otherwise the verdict is the first failing target's |
| Callers.VetTargetsStep | src/main/java/org/znerd/jcaller/Caller.java:341-345 | a passing first target leaves the verdict of the rest unchanged |
| Callers.DispatchLoop | src/main/java/org/znerd/jcaller/Caller.java:473-577 | the loop's result, exception list and callbacks are exactly those of the specification `Run` from the first target |
| Callers.Caller.constructor | src/main/java/org/znerd/jcaller/Caller.java:209-236 | the state before the constructor body: no descriptor, no configuration |
| Callers.Caller.SetDescriptor | src/main/java/org/znerd/jcaller/Caller.java:337-349 | every target is tested before anything is stored; on the first rejection the old descriptor is kept; a null descriptor is stored |
| Callers.Caller.SetCallConfig | src/main/java/org/znerd/jcaller/Caller.java:373-380 | a null configuration is rejected and changes nothing; otherwise it is stored |
| Callers.Caller.Create | src/main/java/org/znerd/jcaller/Caller.java:209-236 | the descriptor is vetted first; without a configuration the default one is used, and one that throws or is null is a programming error; a created caller always holds a configuration |
| Callers.Caller.DoCall | src/main/java/org/znerd/jcaller/Caller.java:446-578 | null request, unset descriptor and empty target list are rejected before any call; otherwise the result and callbacks are those of the dispatch specification: the first success with its exception list (null when nothing failed), or the first recorded exception after giving up |

## Left out

- `TimeOutController` and the threaded branch of `controlTimeOut`: threads and `TimeOutException` are not modelled. `Callers.ControlTimeOut` only says which branch is taken, and `TimeOutController` is not part of this model.
- Clocks: the durations that `doCall` measures with `System.currentTimeMillis` are inputs. They are natural numbers supplied with each attempt, so a clock going backwards is not modelled.
- `Library`, `LibraryContext` and `PropertyReader`:
  - the callbacks on the library context become the ghost event trace, which takes them never to throw (a throwing `targetCallSucceeded` would turn a success into a failure, and the other callbacks would escape `doCall`);
  - `programmingError` becomes the error `ProgrammingError`;
  - `Library.toHexString` is a parameter of `toString`;
  - `Library.isEmpty` is not part of this model. The host check of `testURL` takes it to mean null or of length zero (`TargetDescriptors.IsEmpty`).
- `java.net.URI` parsing is a parameter (`UriParser`) that yields whether the text parses, and its `isAbsolute`, scheme and host.
- `TargetDescriptors.New`: the global `INSTANCE_COUNT` is not modelled. The instance number is a parameter. Because the counter is incremented before the argument checks, a failed construction still consumes a number, and the model does not show that. Overflow of the counter is not modelled either.
- `TargetDescriptors.ToString`: the lazy caching of the text in `_asString` is not modelled, since it does not change the result.
- `GroupDescriptor` is not part of this model. A group is the sequence of leaves its `targets()` yields, so any reordering a group does between calls is outside the model. `Descriptors.GetTargetByCRC` on a group returns the first matching leaf.
- `CallException` and its `setNext` chain:
  - the base class is not part of this model;
  - the chain is the sequence of recorded failures (`CallFailed(chain)`);
  - the `lastException` variable of `doCall` is therefore not kept.
- `CallExceptions.PossiblyProcessed`: the base-class default of `isCallPossiblyProcessed` is not part of this model, so the non-connection classes are taken to answer `true`. Subclasses outside the package are not modelled.
- Argument checks by `MandatoryArgumentChecker`: in the exception modules they become a nameless `IllegalArgument`. The names and the order in which the arguments are checked are not kept there.
- `createCallResult` and `doCallImpl` are abstract. The call result is the record of the arguments passed to `createCallResult`, and `doCallImpl` is the `CallImpl` parameter.
- `Callers.ShouldFailOver`: subclass overrides of `shouldFailOver` and of `isProtocolSupportedImpl` are not modelled. The latter is a parameter of the caller.
- `Caller.getDefaultCallConfig` is the `DefaultConfig` parameter of `Create`. That the configuration is null only during construction is the `Valid()` requirement of `DoCall`.
- `ExceptionLists.CallExceptionList.Add`: adding null is not modelled, because the list holds values and `doCall` never adds null.
- Java `int` widths of `instanceNumber` and `getTargetCount` are not modelled, and neither is the `long` width of durations. Time-outs and the checksum are Java `int`s (`Checksum.Int32`).
- `Strings.ToLowerCase` lower-cases ASCII letters only. Locale-dependent case mapping is not modelled.
- Serialization, `getURL` and the other plain getters are left out.
