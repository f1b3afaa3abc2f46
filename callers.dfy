/** `Caller`: the fail-over dispatcher. A caller holds a descriptor and a
    fall-back call configuration; `doCall` tries the descriptor's targets in
    the order `targets()` yields them until one succeeds or fail-over is no
    longer wanted or possible. The hooks a concrete caller implements
    (`doCallImpl`, `isProtocolSupportedImpl`, `getDefaultCallConfig`) are
    parameters of the model, and the `LibraryContext` callbacks are
    recorded as a trace of events. */
module Callers {
  import opened Wrappers
  import opened Strings
  import opened Calls
  import TD = TargetDescriptors
  import D = Descriptors
  import CE = CallExceptions
  import EL = ExceptionLists
  import Checksum

  /** What `doCallImpl` throws: a call exception, or anything else. */
  datatype Thrown = CallFailure(exception: CE.CallException) | OtherFailure(throwable: Throwable)

  /** One invocation of `doCallImpl` together with the clock readings around
      it: `lag` is the duration reported to `targetCallSucceeded`, which is
      read before the call, `duration` the one given to `createCallResult`,
      and `elapsed` the one measured after a failure. */
  datatype Attempt =
    | Succeeded(value: Option<Value>, lag: nat, duration: nat)
    | Failed(thrown: Thrown, elapsed: nat)

  /** `doCallImpl(request, callConfig, target)`, made a function of the
      attempt's position as well, since two attempts need not end alike. */
  type CallImpl = (CallRequest, CallConfig, TD.TargetDescriptor, nat) -> Attempt

  /** The `LibraryContext` callbacks `doCall` makes. */
  datatype Event =
    | BeforeTargetCall(url: string)
    | TargetCallSucceeded(url: string, duration: nat)
    | TargetCallFailed(url: string, duration: nat, exception: Thrown)
    | FailoverDecided(failOver: bool, haveNext: bool, doContinue: bool)
    | CallCompletelyFailed(exceptions: seq<CE.CallException>)

  /** The exceptions a caller's own code throws. */
  datatype CallerError =
    | NullArgument(name: string)
    | IllegalState
    | IllegalThreadState
    | ProgrammingError
    | UnsupportedOperation
    | UnsupportedProtocol(target: TD.TargetDescriptor)
    | StringIndexOutOfBounds(index: int)
      /** The first call exception, thrown, with the chain `setNext` links
          from it: every exception recorded, in attempt order. */
    | CallFailed(chain: seq<CE.CallException>)

  /** What `isProtocolSupportedImpl` does: answers, or throws
      `UnsupportedOperationException`. */
  datatype Support = Supported | Unsupported | NotImplemented

  /** What `getDefaultCallConfig` does: returns a configuration or null, or
      throws. */
  datatype DefaultConfig = Returned(config: Option<CallConfig>) | Threw(cause: Throwable)

  /** The arguments `createCallResult` receives; the result class itself is
      not part of this model. */
  datatype CallResult = CallResult(
    request: CallRequest,
    succeededTarget: TD.TargetDescriptor,
    duration: nat,
    exceptions: EL.CallExceptionList?,
    result: Option<Value>)

  /** The synchronous and the controlled branch of `controlTimeOut`. */
  datatype TimeOutMode = Inline | Controlled(totalTimeOut: int)

  /** The configuration `doCall` uses: the argument when non-null, else the
      request's own, else the caller's fall-back. */
  function ResolveConfig(argument: Option<CallConfig>, request: CallRequest, fallback: CallConfig): (c: CallConfig)
    ensures argument.Some? ==> c == argument.value
    ensures argument.None? && request.callConfig.Some? ==> c == request.callConfig.value
    ensures argument.None? && request.callConfig.None? ==> c == fallback
  {
    if argument.Some? then argument.value
    else if request.callConfig.Some? then request.callConfig.value
    else fallback
  }

  /** A failure as `doCall` records it: a call exception as thrown, anything
      else wrapped in an `UnexpectedExceptionCallException` whose cause it is. */
  function AsCallException(request: CallRequest, target: TD.TargetDescriptor, elapsed: nat, thrown: Thrown)
    : (e: CE.CallException)
    ensures thrown.CallFailure? ==> e == thrown.exception
    ensures thrown.OtherFailure? ==>
      CE.NewUnexpected(Some(request), Some(target), elapsed, None, Some(thrown.throwable)) == Success(e)
  {
    match thrown
    case CallFailure(e) => e
    case OtherFailure(t) => CE.NewUnexpected(Some(request), Some(target), elapsed, None, Some(t)).value
  }

  /** The default fail-over policy, given the most recent failure: fail over
      when the configuration allows it, or when the call was certainly not
      processed. */
  function FailOverWanted(config: CallConfig, last: CE.CallException): (b: bool)
    ensures CE.IsConnectionKind(last.kind) ==> b
    ensures config.failOverAllowed ==> b
    ensures !config.failOverAllowed && !CE.IsConnectionKind(last.kind) ==> !b
  {
    config.failOverAllowed || !CE.PossiblyProcessed(last.kind)
  }

  /** `shouldFailOver(request, callConfig, exceptions)`: every argument must
      be non-null and the list non-empty. */
  function ShouldFailOver(request: Option<CallRequest>, callConfig: Option<CallConfig>,
                          exceptions: EL.CallExceptionList?)
    : (r: Result<bool, CallerError>)
    reads exceptions
    ensures r.Success? <==> request.Some? && callConfig.Some? && exceptions != null && exceptions.Size() >= 1
    ensures request.Some? && callConfig.Some? && exceptions != null && exceptions.Size() == 0 ==>
      r == Failure(IllegalThreadState)
    ensures r.Success? ==> r.value == FailOverWanted(callConfig.value, exceptions.exceptions[exceptions.Size() - 1])
  {
    if request.None? then Failure(NullArgument("request"))
    else if callConfig.None? then Failure(NullArgument("callConfig"))
    else if exceptions == null then Failure(NullArgument("exceptions"))
    else if exceptions.Size() < 1 then Failure(IllegalThreadState)
    else
      var last := exceptions.Last().value;
      Success(callConfig.value.failOverAllowed || !CE.PossiblyProcessed(last.kind))
  }

  /** Everything one `doCall` dispatch depends on once its checks have
      passed: the request, the configuration in use, the targets in the
      order `targets()` yields them, and the behaviour of `doCallImpl`. */
  datatype Dispatcher = Dispatcher(
    request: CallRequest,
    config: CallConfig,
    targets: seq<TD.TargetDescriptor>,
    impl: CallImpl)

  /** How a dispatch ends: delivered by the target at `index`, after the
      recorded `failures`, or given up after them. */
  datatype Dispatch =
    | Delivered(index: nat, value: Option<Value>, duration: nat, failures: seq<CE.CallException>, events: seq<Event>)
    | GaveUp(failures: seq<CE.CallException>, events: seq<Event>)

  /** The attempt on the target at position `j`. */
  function Attempted(s: Dispatcher, j: nat): Attempt
    requires j < |s.targets|
  {
    s.impl(s.request, s.config, s.targets[j], j)
  }

  /** The exception recorded for a failed attempt at position `j`. */
  function RecordedAt(s: Dispatcher, j: nat): CE.CallException
    requires j < |s.targets| && Attempted(s, j).Failed?
  {
    var a := Attempted(s, j);
    AsCallException(s.request, s.targets[j], a.elapsed, a.thrown)
  }

  /** The dispatch loop from the target at position `i` on, with the
      failures and events so far. */
  function Run(s: Dispatcher, i: nat, failures: seq<CE.CallException>, events: seq<Event>): (r: Dispatch)
    requires i < |s.targets|
    ensures r.Delivered? ==> i <= r.index < |s.targets| && Attempted(s, r.index).Succeeded?
    ensures r.Delivered? ==> |r.failures| == |failures| + (r.index - i)
    ensures r.GaveUp? ==> |failures| < |r.failures| <= |failures| + (|s.targets| - i)
    decreases |s.targets| - i
  {
    var target := s.targets[i];
    var before := events + [BeforeTargetCall(target.url)];
    match Attempted(s, i)
    case Succeeded(value, lag, duration) =>
      Delivered(i, value, duration, failures, before + [TargetCallSucceeded(target.url, lag)])
    case Failed(thrown, elapsed) =>
      var e := AsCallException(s.request, target, elapsed, thrown);
      var recorded := failures + [e];
      var failOver := FailOverWanted(s.config, e);
      var haveNext := i + 1 < |s.targets|;
      var decided := before + [TargetCallFailed(target.url, elapsed, thrown),
                               FailoverDecided(failOver, haveNext, haveNext && failOver)];
      if haveNext && failOver then Run(s, i + 1, recorded, decided)
      else GaveUp(recorded, decided + [CallCompletelyFailed(recorded)])
  }

  /** The whole dispatch. */
  function Dispatched(s: Dispatcher): Dispatch
    requires |s.targets| >= 1
  {
    Run(s, 0, [], [])
  }

  /** The attempts at positions [from, upto) failed, were recorded in order,
      and each let the loop go on. */
  predicate FailedOver(s: Dispatcher, fs: seq<CE.CallException>, from: nat, upto: nat)
    requires upto <= |fs| && upto <= |s.targets|
  {
    forall j | from <= j < upto ::
      Attempted(s, j).Failed? && fs[j] == RecordedAt(s, j) && FailOverWanted(s.config, fs[j])
  }

  /** What a dispatch that started at position `i` with `failures` already
      recorded has done by the time it ends. */
  predicate OutcomeFrom(s: Dispatcher, i: nat, failures: seq<CE.CallException>, d: Dispatch)
  {
    && i <= |failures| <= |d.failures| <= |s.targets|
    && d.failures[..|failures|] == failures
    && (d.Delivered? ==>
          && |d.failures| == d.index < |s.targets|
          && Attempted(s, d.index).Succeeded?
          && d.value == Attempted(s, d.index).value
          && d.duration == Attempted(s, d.index).duration
          && FailedOver(s, d.failures, i, d.index))
    && (d.GaveUp? ==>
          && |failures| < |d.failures|
          && FailedOver(s, d.failures, i, |d.failures| - 1)
          && Attempted(s, |d.failures| - 1).Failed?
          && d.failures[|d.failures| - 1] == RecordedAt(s, |d.failures| - 1)
          && (|d.failures| == |s.targets| || !FailOverWanted(s.config, d.failures[|d.failures| - 1])))
  }

  /** What the dispatch loop does from position `i` on. */
  lemma {:induction false} RunOutcome(s: Dispatcher, i: nat, failures: seq<CE.CallException>, events: seq<Event>)
    requires i < |s.targets| && |failures| == i
    ensures OutcomeFrom(s, i, failures, Run(s, i, failures, events))
    decreases |s.targets| - i
  {
    var d := Run(s, i, failures, events);
    var target := s.targets[i];
    match Attempted(s, i)
    case Succeeded(_, _, _) =>
      assert d.failures == failures;
    case Failed(thrown, elapsed) =>
      var e := RecordedAt(s, i);
      var recorded := failures + [e];
      if i + 1 < |s.targets| && FailOverWanted(s.config, e) {
        var before := events + [BeforeTargetCall(target.url)];
        var decided := before + [TargetCallFailed(target.url, elapsed, thrown),
                                 FailoverDecided(true, true, true)];
        assert d == Run(s, i + 1, recorded, decided);
        RunOutcome(s, i + 1, recorded, decided);
        FailedOverStep(s, i, failures, d);
      } else {
        assert d.failures == recorded;
        assert recorded[..i] == failures;
      }
  }

  /** A failure at `i` that let the loop go on joins the failed-over
      prefix of whatever the rest of the loop does. */
  lemma FailedOverStep(s: Dispatcher, i: nat, failures: seq<CE.CallException>, d: Dispatch)
    requires i + 1 < |s.targets| && |failures| == i
    requires Attempted(s, i).Failed? && FailOverWanted(s.config, RecordedAt(s, i))
    requires OutcomeFrom(s, i + 1, failures + [RecordedAt(s, i)], d)
    ensures OutcomeFrom(s, i, failures, d)
  {
    var recorded := failures + [RecordedAt(s, i)];
    assert d.failures[..i + 1] == recorded;
    assert d.failures[..i] == recorded[..i] == failures;
    assert d.failures[i] == recorded[i];
  }

  /** A successful attempt ends the dispatch loop with its two events. */
  lemma DeliveredStep(s: Dispatcher, i: nat, failures: seq<CE.CallException>, events: seq<Event>)
    requires i < |s.targets| && Attempted(s, i).Succeeded?
    ensures var a := Attempted(s, i);
      Run(s, i, failures, events)
        == Delivered(i, a.value, a.duration, failures,
                     events + [BeforeTargetCall(s.targets[i].url), TargetCallSucceeded(s.targets[i].url, a.lag)])
  {
    var a := Attempted(s, i);
    assert events + [BeforeTargetCall(s.targets[i].url)] + [TargetCallSucceeded(s.targets[i].url, a.lag)]
           == events + [BeforeTargetCall(s.targets[i].url), TargetCallSucceeded(s.targets[i].url, a.lag)];
  }

  /** One failed attempt of the dispatch loop: it records its exception,
      adds its three events, and then either goes on with the next target
      or gives up. */
  lemma FailedAttemptStep(s: Dispatcher, i: nat, failures: seq<CE.CallException>, events: seq<Event>)
    requires i < |s.targets| && Attempted(s, i).Failed?
    ensures var a := Attempted(s, i);
      var e := RecordedAt(s, i);
      var failOver := FailOverWanted(s.config, e);
      var haveNext := i + 1 < |s.targets|;
      var decided := events + [BeforeTargetCall(s.targets[i].url)] + [TargetCallFailed(s.targets[i].url, a.elapsed, a.thrown)]
                     + [FailoverDecided(failOver, haveNext, haveNext && failOver)];
      Run(s, i, failures, events)
        == if haveNext && failOver then Run(s, i + 1, failures + [e], decided)
           else GaveUp(failures + [e], decided + [CallCompletelyFailed(failures + [e])])
  {
    var a := Attempted(s, i);
    var e := RecordedAt(s, i);
    var failOver := FailOverWanted(s.config, e);
    var haveNext := i + 1 < |s.targets|;
    assert events + [BeforeTargetCall(s.targets[i].url)]
           + [TargetCallFailed(s.targets[i].url, a.elapsed, a.thrown), FailoverDecided(failOver, haveNext, haveNext && failOver)]
           == events + [BeforeTargetCall(s.targets[i].url)] + [TargetCallFailed(s.targets[i].url, a.elapsed, a.thrown)]
              + [FailoverDecided(failOver, haveNext, haveNext && failOver)];
  }

  /** `doCall` from its first target: a delivered call was delivered by the
      first target that succeeded, every earlier attempt failed and allowed
      fail-over, and the failures are exactly theirs, in attempt order. A
      call given up failed on every attempt made, and stopped either because
      no target was left or because the policy refused fail-over. */
  lemma DispatchOutcome(s: Dispatcher)
    requires |s.targets| >= 1
    ensures var d := Dispatched(s);
      && 1 <= |d.failures| + (if d.Delivered? then 1 else 0) <= |s.targets|
      && (d.Delivered? ==>
            && |d.failures| == d.index
            && Attempted(s, d.index).Succeeded?
            && d.value == Attempted(s, d.index).value
            && FailedOver(s, d.failures, 0, d.index))
      && (d.GaveUp? ==>
            && |d.failures| >= 1
            && FailedOver(s, d.failures, 0, |d.failures| - 1)
            && Attempted(s, |d.failures| - 1).Failed?
            && d.failures[|d.failures| - 1] == RecordedAt(s, |d.failures| - 1)
            && (|d.failures| == |s.targets| || !FailOverWanted(s.config, d.failures[|d.failures| - 1])))
  {
    RunOutcome(s, 0, [], []);
    assert OutcomeFrom(s, 0, [], Dispatched(s));
  }

  /** When every attempt fails with a connection failure, every target is
      tried, once each, before the call is given up. */
  lemma ConnectionFailuresTryEveryTarget(s: Dispatcher)
    requires |s.targets| >= 1
    requires forall j | 0 <= j < |s.targets| ::
      Attempted(s, j).Failed? && CE.IsConnectionKind(RecordedAt(s, j).kind)
    ensures Dispatched(s).GaveUp?
    ensures |Dispatched(s).failures| == |s.targets|
  {
    DispatchOutcome(s);
  }

  /** With fail-over disallowed, a first attempt that may have been
      processed ends the call: its exception is the only one, and it is
      thrown. */
  lemma PossiblyProcessedFailureStops(s: Dispatcher)
    requires |s.targets| >= 1 && !s.config.failOverAllowed
    requires Attempted(s, 0).Failed? && CE.PossiblyProcessed(RecordedAt(s, 0).kind)
    ensures Dispatched(s).GaveUp?
    ensures Dispatched(s).failures == [RecordedAt(s, 0)]
  {
  }

  /** The three events of a failed attempt at position `j`. */
  predicate FailedBlock(s: Dispatcher, evs: seq<Event>, j: nat)
    requires j < |s.targets| && 3 * j + 3 <= |evs|
  {
    var a := Attempted(s, j);
    && a.Failed?
    && var failOver := FailOverWanted(s.config, RecordedAt(s, j));
       var haveNext := j + 1 < |s.targets|;
       evs[3 * j] == BeforeTargetCall(s.targets[j].url)
       && evs[3 * j + 1] == TargetCallFailed(s.targets[j].url, a.elapsed, a.thrown)
       && evs[3 * j + 2] == FailoverDecided(failOver, haveNext, haveNext && failOver)
  }

  /** The shape of the callback trace of a finished dispatch: a failed
      block per recorded failure, then either the two events of the
      delivering attempt or the single `callCompletelyFailed`. */
  predicate EventsShape(s: Dispatcher, d: Dispatch)
  {
    && (d.Delivered? ==>
          && d.index < |s.targets|
          && Attempted(s, d.index).Succeeded?
          && |d.events| == 3 * d.index + 2
          && (forall j | 0 <= j < d.index :: FailedBlock(s, d.events, j))
          && d.events[3 * d.index] == BeforeTargetCall(s.targets[d.index].url)
          && d.events[3 * d.index + 1] == TargetCallSucceeded(s.targets[d.index].url, Attempted(s, d.index).lag)
          && (forall k | 0 <= k < |d.events| :: !d.events[k].CallCompletelyFailed?))
    && (d.GaveUp? ==>
          && |d.failures| <= |s.targets|
          && |d.events| == 3 * |d.failures| + 1
          && (forall j | 0 <= j < |d.failures| :: FailedBlock(s, d.events, j))
          && d.events[|d.events| - 1] == CallCompletelyFailed(d.failures)
          && (forall k | 0 <= k < |d.events| - 1 :: !d.events[k].CallCompletelyFailed?))
  }

  /** The callbacks of the dispatch loop from position `i` on. */
  lemma {:induction false} RunEvents(s: Dispatcher, i: nat, failures: seq<CE.CallException>, events: seq<Event>)
    requires i < |s.targets| && |failures| == i && |events| == 3 * i
    requires forall j | 0 <= j < i :: FailedBlock(s, events, j)
    requires forall k | 0 <= k < |events| :: !events[k].CallCompletelyFailed?
    ensures EventsShape(s, Run(s, i, failures, events))
    decreases |s.targets| - i
  {
    var target := s.targets[i];
    match Attempted(s, i)
    case Succeeded(_, lag, _) =>
      DeliveredEvents(s, i, failures, events);
    case Failed(thrown, elapsed) =>
      var e := AsCallException(s.request, target, elapsed, thrown);
      var failOver := FailOverWanted(s.config, e);
      var haveNext := i + 1 < |s.targets|;
      var decided := events + [BeforeTargetCall(target.url), TargetCallFailed(target.url, elapsed, thrown),
                               FailoverDecided(failOver, haveNext, haveNext && failOver)];
      FailedEvents(s, i, failures, events);
      assert events + [BeforeTargetCall(target.url)]
             + [TargetCallFailed(target.url, elapsed, thrown), FailoverDecided(failOver, haveNext, haveNext && failOver)]
             == decided;
      if haveNext && failOver {
        assert Run(s, i, failures, events) == Run(s, i + 1, failures + [e], decided);
        RunEvents(s, i + 1, failures + [e], decided);
      } else {
        StoppedEvents(s, i, failures, events);
      }
  }

  /** A successful attempt at `i` adds its two events and ends the trace. */
  lemma DeliveredEvents(s: Dispatcher, i: nat, failures: seq<CE.CallException>, events: seq<Event>)
    requires i < |s.targets| && |failures| == i && |events| == 3 * i
    requires forall j | 0 <= j < i :: FailedBlock(s, events, j)
    requires forall k | 0 <= k < |events| :: !events[k].CallCompletelyFailed?
    requires Attempted(s, i).Succeeded?
    ensures EventsShape(s, Run(s, i, failures, events))
  {
    var target := s.targets[i];
    var extra := [BeforeTargetCall(target.url), TargetCallSucceeded(target.url, Attempted(s, i).lag)];
    assert Run(s, i, failures, events).events == events + extra;
    BlocksKept(s, events, extra, i);
  }

  /** A failed attempt at `i` adds its block of three events. */
  lemma FailedEvents(s: Dispatcher, i: nat, failures: seq<CE.CallException>, events: seq<Event>)
    requires i < |s.targets| && |failures| == i && |events| == 3 * i
    requires forall j | 0 <= j < i :: FailedBlock(s, events, j)
    requires Attempted(s, i).Failed?
    ensures var a := Attempted(s, i);
      var failOver := FailOverWanted(s.config, RecordedAt(s, i));
      var haveNext := i + 1 < |s.targets|;
      var decided := events + [BeforeTargetCall(s.targets[i].url), TargetCallFailed(s.targets[i].url, a.elapsed, a.thrown),
                               FailoverDecided(failOver, haveNext, haveNext && failOver)];
      && |decided| == 3 * (i + 1)
      && (forall j | 0 <= j < i + 1 :: FailedBlock(s, decided, j))
      && ((forall k | 0 <= k < |events| :: !events[k].CallCompletelyFailed?) ==>
            forall k | 0 <= k < |decided| :: !decided[k].CallCompletelyFailed?)
  {
    var a := Attempted(s, i);
    var failOver := FailOverWanted(s.config, RecordedAt(s, i));
    var haveNext := i + 1 < |s.targets|;
    var block := [BeforeTargetCall(s.targets[i].url), TargetCallFailed(s.targets[i].url, a.elapsed, a.thrown),
                  FailoverDecided(failOver, haveNext, haveNext && failOver)];
    BlocksKept(s, events, block, i);
    assert FailedBlock(s, events + block, i);
  }

  /** A failed attempt at `i` that ends the loop closes the trace with
      `callCompletelyFailed`. */
  lemma StoppedEvents(s: Dispatcher, i: nat, failures: seq<CE.CallException>, events: seq<Event>)
    requires i < |s.targets| && |failures| == i && |events| == 3 * i
    requires forall j | 0 <= j < i :: FailedBlock(s, events, j)
    requires forall k | 0 <= k < |events| :: !events[k].CallCompletelyFailed?
    requires Attempted(s, i).Failed?
    requires !(i + 1 < |s.targets| && FailOverWanted(s.config, RecordedAt(s, i)))
    ensures EventsShape(s, Run(s, i, failures, events))
  {
    var a := Attempted(s, i);
    var failOver := FailOverWanted(s.config, RecordedAt(s, i));
    var haveNext := i + 1 < |s.targets|;
    var decided := events + [BeforeTargetCall(s.targets[i].url), TargetCallFailed(s.targets[i].url, a.elapsed, a.thrown),
                             FailoverDecided(failOver, haveNext, haveNext && failOver)];
    var recorded := failures + [RecordedAt(s, i)];
    FailedEvents(s, i, failures, events);
    assert events + [BeforeTargetCall(s.targets[i].url)]
           + [TargetCallFailed(s.targets[i].url, a.elapsed, a.thrown), FailoverDecided(failOver, haveNext, haveNext && failOver)]
           == decided;
    assert Run(s, i, failures, events) == GaveUp(recorded, decided + [CallCompletelyFailed(recorded)]);
    BlocksKept(s, decided, [CallCompletelyFailed(recorded)], i + 1);
  }

  /** Appending events leaves the blocks already in place unchanged. */
  lemma BlocksKept(s: Dispatcher, events: seq<Event>, extra: seq<Event>, n: nat)
    requires n <= |s.targets| && 3 * n <= |events|
    requires forall j | 0 <= j < n :: FailedBlock(s, events, j)
    ensures forall j | 0 <= j < n :: FailedBlock(s, events + extra, j)
  {
    forall j | 0 <= j < n
      ensures FailedBlock(s, events + extra, j)
    {
      assert FailedBlock(s, events, j);
    }
  }

  /** The callbacks of a whole `doCall`: each attempt is announced by
      `beforeTargetCall` and followed by exactly one of `targetCallSucceeded`
      and `targetCallFailed`; every failure is followed by `failoverDecided`;
      `callCompletelyFailed` is called exactly when the call is given up,
      once, last, with every recorded exception. */
  lemma DispatchEvents(s: Dispatcher)
    requires |s.targets| >= 1
    ensures var d := Dispatched(s);
      && (d.Delivered? ==>
            && |d.events| == 3 * d.index + 2
            && (forall j | 0 <= j < d.index :: FailedBlock(s, d.events, j))
            && d.events[3 * d.index] == BeforeTargetCall(s.targets[d.index].url)
            && d.events[3 * d.index + 1] == TargetCallSucceeded(s.targets[d.index].url, Attempted(s, d.index).lag)
            && (forall k | 0 <= k < |d.events| :: !d.events[k].CallCompletelyFailed?))
      && (d.GaveUp? ==>
            && |d.events| == 3 * |d.failures| + 1
            && (forall j | 0 <= j < |d.failures| :: FailedBlock(s, d.events, j))
            && d.events[|d.events| - 1] == CallCompletelyFailed(d.failures)
            && (forall k | 0 <= k < |d.events| - 1 :: !d.events[k].CallCompletelyFailed?))
  {
    RunEvents(s, 0, [], []);
    assert EventsShape(s, Dispatched(s));
  }

  /** `controlTimeOut(task, descriptor)`: both must be non-null; without a
      total time-out the task runs on the calling thread. */
  function ControlTimeOut(task: Option<Runnable>, target: Option<TD.TargetDescriptor>)
    : (r: Result<TimeOutMode, CallerError>)
    ensures r.Success? <==> task.Some? && target.Some?
    ensures r.Success? ==> (r.value.Inline? <==> target.value.totalTimeOut < 1)
    ensures r.Success? && r.value.Controlled? ==> r.value.totalTimeOut == target.value.totalTimeOut >= 1
  {
    if task.None? then Failure(NullArgument("task"))
    else if target.None? then Failure(NullArgument("descriptor"))
    else if target.value.totalTimeOut < 1 then Success(Inline)
    else Success(Controlled(target.value.totalTimeOut))
  }

  /** A valid target descriptor built with a non-positive total time-out
      always runs its calls inline. */
  lemma DisabledTimeOutRunsInline(parse: TD.UriParser, n: int, url: string, timeOut: Checksum.Int32,
                                  connectionTimeOut: Checksum.Int32, socketTimeOut: Checksum.Int32, task: Runnable)
    requires timeOut <= 0
    requires TD.New(parse, n, Some(url), timeOut, connectionTimeOut, socketTimeOut).Success?
    ensures ControlTimeOut(Some(task), Some(TD.New(parse, n, Some(url), timeOut, connectionTimeOut, socketTimeOut).value))
            == Success(Inline)
  {
  }

  /** `isProtocolSupported(protocol)` of a caller whose
      `isProtocolSupportedImpl` is `protocolSupport`: the protocol must be
      non-null and is lower-cased before the hook sees it; an
      `UnsupportedOperationException` from the hook propagates. */
  function IsProtocolSupported(protocolSupport: string -> Support, protocol: Option<string>): (r: Result<bool, CallerError>)
    ensures protocol.None? ==> r == Failure(NullArgument("protocol"))
    ensures protocol.Some? ==>
      match protocolSupport(ToLowerCase(protocol.value))
      case Supported => r == Success(true)
      case Unsupported => r == Success(false)
      case NotImplemented => r == Failure(UnsupportedOperation)
  {
    if protocol.None? then Failure(NullArgument("protocol"))
    else
      match protocolSupport(ToLowerCase(protocol.value))
      case Supported => Success(true)
      case Unsupported => Success(false)
      case NotImplemented => Failure(UnsupportedOperation)
  }

  /** The answer does not depend on the case of the protocol. */
  lemma ProtocolCaseInsensitive(protocolSupport: string -> Support, protocol: string)
    ensures IsProtocolSupported(protocolSupport, Some(protocol)) == IsProtocolSupported(protocolSupport, Some(ToLowerCase(protocol)))
  {
    ToLowerCaseIdempotent(protocol);
  }

  /** `testTargetDescriptor(target)`: the target's protocol must be
      supported; a hook that does not implement the test lets every target
      pass. A URL without "://" makes `getProtocol` throw, which is not
      caught. */
  function TestTargetDescriptor(protocolSupport: string -> Support, target: Option<TD.TargetDescriptor>): (r: Outcome<CallerError>)
    ensures target.None? ==> r == Fail(NullArgument("target"))
    ensures target.Some? && TD.GetProtocol(target.value).Failure? ==>
      r == Fail(StringIndexOutOfBounds(TD.GetProtocol(target.value).error))
    ensures r.Pass? <==>
      && target.Some?
      && TD.GetProtocol(target.value).Success?
      && protocolSupport(ToLowerCase(TD.GetProtocol(target.value).value)) != Unsupported
    ensures r.Fail? && target.Some? && TD.GetProtocol(target.value).Success? ==>
      r.error == UnsupportedProtocol(target.value)
  {
    if target.None? then Fail(NullArgument("target"))
    else
      var protocol := TD.GetProtocol(target.value);
      if protocol.Failure? then Fail(StringIndexOutOfBounds(protocol.error))
      else
        var supported := IsProtocolSupported(protocolSupport, Some(protocol.value));
        if supported.Failure? then Pass
        else if !supported.value then Fail(UnsupportedProtocol(target.value))
        else Pass
  }

  /** The first complaint `testTargetDescriptor` has about `targets`, in
      order, if any. */
  function VetTargets(protocolSupport: string -> Support, targets: seq<TD.TargetDescriptor>): (r: Outcome<CallerError>)
    ensures r.Pass? <==> forall k | 0 <= k < |targets| :: TestTargetDescriptor(protocolSupport, Some(targets[k])).Pass?
    ensures r.Fail? ==> exists k | 0 <= k < |targets| ::
      && TestTargetDescriptor(protocolSupport, Some(targets[k])) == r
      && forall j | 0 <= j < k :: TestTargetDescriptor(protocolSupport, Some(targets[j])).Pass?
  {
    if targets == [] then Pass
    else
      var first := TestTargetDescriptor(protocolSupport, Some(targets[0]));
      if first.Fail? then first
      else
        var rest := VetTargets(protocolSupport, targets[1..]);
        VetTargetsStep(protocolSupport, targets, rest);
        rest
  }

  /** A verdict on the targets after a first one that passes is the verdict
      on all of them. */
  lemma VetTargetsStep(protocolSupport: string -> Support, targets: seq<TD.TargetDescriptor>, rest: Outcome<CallerError>)
    requires targets != [] && TestTargetDescriptor(protocolSupport, Some(targets[0])).Pass?
    requires rest.Pass? <==> forall k | 0 <= k < |targets[1..]| :: TestTargetDescriptor(protocolSupport, Some(targets[1..][k])).Pass?
    requires rest.Fail? ==> exists k | 0 <= k < |targets[1..]| ::
      && TestTargetDescriptor(protocolSupport, Some(targets[1..][k])) == rest
      && forall j | 0 <= j < k :: TestTargetDescriptor(protocolSupport, Some(targets[1..][j])).Pass?
    ensures rest.Pass? <==> forall k | 0 <= k < |targets| :: TestTargetDescriptor(protocolSupport, Some(targets[k])).Pass?
    ensures rest.Fail? ==> exists k | 0 <= k < |targets| ::
      && TestTargetDescriptor(protocolSupport, Some(targets[k])) == rest
      && forall j | 0 <= j < k :: TestTargetDescriptor(protocolSupport, Some(targets[j])).Pass?
  {
    var tail := targets[1..];
    assert forall k | 1 <= k < |targets| :: targets[k] == tail[k - 1];
    if rest.Fail? {
      var k :| 0 <= k < |tail| && TestTargetDescriptor(protocolSupport, Some(tail[k])) == rest
               && forall j | 0 <= j < k :: TestTargetDescriptor(protocolSupport, Some(tail[j])).Pass?;
      assert TestTargetDescriptor(protocolSupport, Some(targets[k + 1])) == rest;
    }
  }

  /** The dispatch loop of `doCall` (lines that run once the request, the
      descriptor and the configuration are settled): try the targets in
      order, record each failure in the exception list and in the
      `setNext` chain, ask the fail-over policy after each failure, and
      either return the first success or throw the first exception. The
      callbacks made on the way are returned as `events`. */
  method DispatchLoop(req: CallRequest, cfg: CallConfig, targets: seq<TD.TargetDescriptor>, impl: CallImpl)
    returns (r: Result<CallResult, CallerError>, ghost events: seq<Event>)
    requires |targets| >= 1
    ensures events == Dispatched(Dispatcher(req, cfg, targets, impl)).events
    ensures var d := Dispatched(Dispatcher(req, cfg, targets, impl));
      && (d.GaveUp? ==> r == Failure(CallFailed(d.failures)))
      && (d.Delivered? ==>
            && r.Success?
            && r.value.request == req
            && r.value.succeededTarget == targets[d.index]
            && r.value.duration == d.duration
            && r.value.result == d.value
            && (r.value.exceptions == null <==> d.failures == [])
            && (r.value.exceptions != null ==> r.value.exceptions.exceptions == d.failures))
  {
    events := [];
    ghost var s := Dispatcher(req, cfg, targets, impl);
    var chain: seq<CE.CallException> := [];
    var exceptions: EL.CallExceptionList? := null;
    var i := 0;
    var doContinue := true;
    while doContinue
      invariant 0 <= i <= |targets|
      invariant doContinue ==> i < |targets|
      invariant !doContinue ==> i >= 1
      invariant |chain| == i
      invariant exceptions == null <==> i == 0
      invariant exceptions != null ==> fresh(exceptions) && exceptions.exceptions == chain
      invariant doContinue ==> Run(s, i, chain, events) == Dispatched(s)
      invariant !doContinue ==> Dispatched(s) == GaveUp(chain, events + [CallCompletelyFailed(chain)])
      decreases |targets| - i
    {
      ghost var eventsBefore := events;
      var target := targets[i];
      var url := target.url;
      i := i + 1;
      events := events + [BeforeTargetCall(url)];
      match impl(req, cfg, target, i - 1)
      case Succeeded(value, lag, duration) =>
        events := events + [TargetCallSucceeded(url, lag)];
        DeliveredStep(s, i - 1, chain, eventsBefore);
        return Success(CallResult(req, target, duration, exceptions, value)), events;
      case Failed(thrown, elapsed) =>
        events := events + [TargetCallFailed(url, elapsed, thrown)];
        var current := AsCallException(req, target, elapsed, thrown);
        chain := chain + [current];
        if exceptions == null {
          exceptions := new EL.CallExceptionList();
        }
        exceptions.Add(current);
        var decision := ShouldFailOver(Some(req), Some(cfg), exceptions);
        var failOver := decision.value;
        var haveNext := i < |targets|;
        doContinue := haveNext && failOver;
        events := events + [FailoverDecided(failOver, haveNext, doContinue)];
        FailedAttemptStep(s, i - 1, chain[..i - 1], eventsBefore);
        assert chain[..i - 1] + [current] == chain;
    }
    events := events + [CallCompletelyFailed(chain)];
    var first := exceptions.Get(0);
    assert first == Success(chain[0]);
    return Failure(CallFailed(chain)), events;
  }

  class Caller {
    /** `_descriptor`; null until set. */
    var descriptor: Option<D.Descriptor>
    /** `_callConfig`; set by the constructor and never null afterwards. */
    var callConfig: Option<CallConfig>
    /** `isProtocolSupportedImpl` of the concrete caller. */
    const protocolSupport: string -> Support

    /** A caller keeps a fall-back configuration. */
    predicate Valid()
      reads this
    {
      callConfig.Some?
    }

    /** The state before the Java constructor's body runs: no descriptor and
        no configuration yet, so not `Valid()`. Clients construct a caller
        with `Create`, which runs that body and establishes `Valid()`. */
    constructor (protocolSupport: string -> Support)
      ensures this.protocolSupport == protocolSupport
      ensures descriptor.None? && callConfig.None?
    {
      this.protocolSupport := protocolSupport;
      descriptor := None;
      callConfig := None;
    }

    /** `setDescriptor(descriptor)`: all or nothing. Every target is tested
        before the descriptor is stored; the first rejection is thrown and
        leaves the previous descriptor in place. A null descriptor is stored
        as is. */
    method SetDescriptor(d: Option<D.Descriptor>) returns (r: Outcome<CallerError>)
      modifies this
      ensures r == (if d.None? then Pass else VetTargets(protocolSupport, D.Targets(d.value)))
      ensures r.Pass? ==> descriptor == d
      ensures r.Fail? ==> descriptor == old(descriptor)
      ensures callConfig == old(callConfig)
    {
      if d.Some? {
        var targets := D.Targets(d.value);
        var k := 0;
        while k < |targets|
          invariant 0 <= k <= |targets|
          invariant VetTargets(protocolSupport, targets) == VetTargets(protocolSupport, targets[k..])
        {
          var outcome := TestTargetDescriptor(protocolSupport, Some(targets[k]));
          if outcome.Fail? {
            return outcome;
          }
          assert targets[k..][1..] == targets[k + 1..];
          k := k + 1;
        }
        assert targets[k..] == [];
      }
      descriptor := d;
      return Pass;
    }

    /** `setCallConfig(config)`: the configuration must be non-null. */
    method SetCallConfig(config: Option<CallConfig>) returns (r: Outcome<CallerError>)
      modifies this
      ensures config.None? ==> r == Fail(NullArgument("config")) && callConfig == old(callConfig)
      ensures config.Some? ==> r.Pass? && callConfig == config
      ensures descriptor == old(descriptor)
    {
      if config.None? {
        return Fail(NullArgument("config"));
      }
      callConfig := config;
      return Pass;
    }

    /** The Java constructor `Caller(descriptor, callConfig)`: the descriptor
        is set first; without a configuration argument the default one is
        asked for, which must neither throw nor return null. */
    static method Create(protocolSupport: string -> Support, d: Option<D.Descriptor>,
                         config: Option<CallConfig>, defaultConfig: DefaultConfig)
      returns (r: Result<Caller, CallerError>)
      ensures var vetted := if d.None? then Pass else VetTargets(protocolSupport, D.Targets(d.value));
        && (vetted.Fail? ==> r == Failure(vetted.error))
        && (vetted.Pass? && config.None? && !(defaultConfig.Returned? && defaultConfig.config.Some?) ==>
              r == Failure(ProgrammingError))
        && (r.Success? <==> vetted.Pass? && (config.Some? || (defaultConfig.Returned? && defaultConfig.config.Some?)))
      ensures r.Success? ==>
        && fresh(r.value)
        && r.value.Valid()
        && r.value.descriptor == d
        && r.value.protocolSupport == protocolSupport
        && r.value.callConfig == (if config.Some? then config else defaultConfig.config)
    {
      var caller := new Caller(protocolSupport);
      var stored := caller.SetDescriptor(d);
      if stored.Fail? {
        return Failure(stored.error);
      }
      var chosen := config;
      if chosen.None? {
        match defaultConfig
        case Threw(_) =>
          return Failure(ProgrammingError);
        case Returned(c) =>
          chosen := c;
          if chosen.None? {
            return Failure(ProgrammingError);
          }
      }
      caller.callConfig := chosen;
      return Success(caller);
    }

    /** `doCall(request, callConfig)`. The request must be non-null, the
        descriptor set, and `targets()` non-empty, all checked before any
        target is called. Then the targets are tried in order, each at most
        once, until one succeeds, whose result is returned with the list of
        the earlier failures (null when there were none); or until fail-over
        is refused or no target is left, when the first failure is thrown,
        linked to the later ones. */
    method DoCall(request: Option<CallRequest>, config: Option<CallConfig>, impl: CallImpl)
      returns (r: Result<CallResult, CallerError>, ghost events: seq<Event>)
      requires Valid()
      ensures request.None? ==> r == Failure(NullArgument("request"))
      ensures request.Some? && descriptor.None? ==> r == Failure(IllegalState)
      ensures request.Some? && descriptor.Some? && D.Targets(descriptor.value) == [] ==>
        r == Failure(ProgrammingError)
      ensures request.None? || descriptor.None? || D.Targets(descriptor.value) == [] ==> events == []
      ensures request.Some? && descriptor.Some? && D.Targets(descriptor.value) != [] ==>
        events == Dispatched(Dispatcher(request.value, ResolveConfig(config, request.value, callConfig.value),
                                        D.Targets(descriptor.value), impl)).events
      ensures request.Some? && descriptor.Some? && D.Targets(descriptor.value) != [] ==>
        var s := Dispatcher(request.value, ResolveConfig(config, request.value, callConfig.value),
                            D.Targets(descriptor.value), impl);
        var d := Dispatched(s);
        && (d.GaveUp? ==> r == Failure(CallFailed(d.failures)))
        && (d.Delivered? ==>
              && r.Success?
              && r.value.request == request.value
              && r.value.succeededTarget == s.targets[d.index]
              && r.value.duration == d.duration
              && r.value.result == d.value
              && (r.value.exceptions == null <==> d.failures == [])
              && (r.value.exceptions != null ==> r.value.exceptions.exceptions == d.failures))
    {
      events := [];
      if request.None? {
        return Failure(NullArgument("request")), events;
      }
      var req := request.value;
      if descriptor.None? {
        return Failure(IllegalState), events;
      }
      var cfg := ResolveConfig(config, req, callConfig.value);
      var targets := D.Targets(descriptor.value);
      if |targets| == 0 {
        return Failure(ProgrammingError), events;
      }
      r, events := DispatchLoop(req, cfg, targets, impl);
    }
  }
}
