/** The exceptions raised for a problem with a configuration property:
    `PropertyException` (the property name plus a message and an optional
    cause) and its two subclasses, an invalid value and a missing required
    value, whose messages are built from their arguments. */
module PropertyExceptions {
  import opened Wrappers
  import opened Calls

  /** `IllegalArgumentException` from an argument check. */
  datatype ArgumentError = IllegalArgument

  /** The state `PropertyException` holds: the name, the message given to
      `Exception`, and the cause when one was attached. */
  datatype PropertyException = PropertyException(name: string, message: Option<string>, cause: Option<Throwable>)

  datatype InvalidPropertyValueException =
    InvalidPropertyValueException(base: PropertyException, propertyValue: string, reason: Option<string>)

  datatype MissingRequiredPropertyException =
    MissingRequiredPropertyException(base: PropertyException, detail: Option<string>)

  /** The `PropertyException` constructor: the name must be non-null; the
      message and the cause are kept as given. */
  function NewPropertyException(name: Option<string>, message: Option<string>, cause: Option<Throwable>)
    : (r: Result<PropertyException, ArgumentError>)
    ensures r.Success? <==> name.Some?
    ensures r.Success? ==> Some(GetPropertyName(r.value)) == name
    ensures r.Success? ==> r.value.message == message && r.value.cause == cause
  {
    if name.None? then Failure(IllegalArgument) else Success(PropertyException(name.value, message, cause))
  }

  /** `getPropertyName()`. */
  function GetPropertyName(e: PropertyException): string
  {
    e.name
  }

  /** `getPropertyName()` returns the name the exception was constructed
      with: constructing with it, the message and the cause rebuilds the
      same exception. */
  lemma PropertyNameRoundTrip(e: PropertyException)
    ensures NewPropertyException(Some(GetPropertyName(e)), e.message, e.cause) == Success(e)
  {
  }

  /** The text `createMessage` builds for an invalid value. */
  function InvalidValueMessage(name: string, value: string, reason: Option<string>): string
  {
    "The value \"" + value + "\" is invalid for property \"" + name
    + Ending(reason)
  }

  /** `InvalidPropertyValueException.createMessage`: name and value must be
      non-null; the reason may be null. */
  function CreateInvalidValueMessage(name: Option<string>, value: Option<string>, reason: Option<string>)
    : (r: Result<string, ArgumentError>)
    ensures r.Success? <==> name.Some? && value.Some?
    ensures r.Success? ==> r.value == InvalidValueMessage(name.value, value.value, reason)
  {
    if name.None? || value.None? then Failure(IllegalArgument)
    else Success(InvalidValueMessage(name.value, value.value, reason))
  }

  /** The message of an invalid value tells whether a reason was given, and
      which: two messages for the same name and value are equal only for
      equal reasons. */
  lemma InvalidValueMessageDeterminesReason(name: string, value: string, r1: Option<string>, r2: Option<string>)
    ensures InvalidValueMessage(name, value, r1) == InvalidValueMessage(name, value, r2) <==> r1 == r2
  {
    var head := "The value \"" + value + "\" is invalid for property \"" + name;
    var m1 := InvalidValueMessage(name, value, r1);
    var m2 := InvalidValueMessage(name, value, r2);
    if m1 == m2 {
      CommonHeadCancels(head, Ending(r1), Ending(r2));
      EndingInjective(r1, r2);
    }
  }

  /** How both message builders close the message: a quote and a full stop
      without an extra text, a quote, a colon and the text otherwise. */
  function Ending(extra: Option<string>): string
  {
    if extra.None? then "\"." else "\": " + extra.value
  }

  lemma EndingInjective(e1: Option<string>, e2: Option<string>)
    requires Ending(e1) == Ending(e2)
    ensures e1 == e2
  {
    if e1.Some? && e2.Some? {
      CommonHeadCancels("\": ", e1.value, e2.value);
    }
  }

  /** Texts that agree after a common head agree on what follows it. */
  lemma CommonHeadCancels(head: string, t1: string, t2: string)
    requires head + t1 == head + t2
    ensures t1 == t2
  {
    assert t1 == (head + t1)[|head|..];
    assert t2 == (head + t2)[|head|..];
  }

  /** The four-argument constructor: the message is built (and the name
      and value checked) before the superclass stores the name. */
  function NewInvalidPropertyValue(name: Option<string>, value: Option<string>, reason: Option<string>,
                                   cause: Option<Throwable>)
    : (r: Result<InvalidPropertyValueException, ArgumentError>)
    ensures r.Success? <==> name.Some? && value.Some?
    ensures r.Success? ==>
      && Some(GetPropertyName(r.value.base)) == name
      && Some(r.value.propertyValue) == value
      && r.value.reason == reason
      && r.value.base.cause == cause
      && r.value.base.message == Some(InvalidValueMessage(name.value, value.value, reason))
  {
    var message := CreateInvalidValueMessage(name, value, reason);
    if message.Failure? then Failure(message.error)
    else
      var base := NewPropertyException(name, Some(message.value), cause);
      if base.Failure? then Failure(IllegalArgument)
      else Success(InvalidPropertyValueException(base.value, value.value, reason))
  }

  /** `InvalidPropertyValueException(propertyName, propertyValue)`. */
  function NewInvalidPropertyValueWithoutReason(name: Option<string>, value: Option<string>)
    : (r: Result<InvalidPropertyValueException, ArgumentError>)
    ensures r.Success? <==> name.Some? && value.Some?
    ensures r.Success? ==> Some(GetPropertyName(r.value.base)) == name && Some(r.value.propertyValue) == value
    ensures r.Success? ==> r.value.reason.None? && r.value.base.cause.None?
    ensures r.Success? ==>
      r.value.base.message == Some("The value \"" + value.value + "\" is invalid for property \"" + name.value + "\".")
  {
    NewInvalidPropertyValue(name, value, None, None)
  }

  /** `InvalidPropertyValueException(propertyName, propertyValue, reason)`. */
  function NewInvalidPropertyValueWithReason(name: Option<string>, value: Option<string>, reason: Option<string>)
    : (r: Result<InvalidPropertyValueException, ArgumentError>)
    ensures r.Success? <==> name.Some? && value.Some?
    ensures r.Success? ==> Some(GetPropertyName(r.value.base)) == name && Some(r.value.propertyValue) == value
    ensures r.Success? ==> r.value.reason == reason && r.value.base.cause.None?
    ensures r.Success? ==> r.value.base.message == Some(InvalidValueMessage(name.value, value.value, reason))
  {
    NewInvalidPropertyValue(name, value, reason, None)
  }

  /** `InvalidPropertyValueException(propertyName, propertyValue, cause)`. */
  function NewInvalidPropertyValueWithCause(name: Option<string>, value: Option<string>, cause: Option<Throwable>)
    : (r: Result<InvalidPropertyValueException, ArgumentError>)
    ensures r.Success? <==> name.Some? && value.Some?
    ensures r.Success? ==> Some(GetPropertyName(r.value.base)) == name && Some(r.value.propertyValue) == value
    ensures r.Success? ==> r.value.reason.None? && r.value.base.cause == cause
    ensures r.Success? ==> r.value.base.message == Some(InvalidValueMessage(name.value, value.value, None))
  {
    NewInvalidPropertyValue(name, value, None, cause)
  }

  /** Java's string conversion of a possibly null string. */
  function JavaText(s: Option<string>): string
  {
    if s.None? then "null" else s.value
  }

  /** `MissingRequiredPropertyException.createMessage`: never fails; a null
      name is rendered as "null". */
  function CreateMissingMessage(name: Option<string>, detail: Option<string>): (r: string)
    ensures var head := "No value is set for the required property \"" + JavaText(name);
      |head| < |r| && r[..|head|] == head
    ensures detail.None? ==> r[|r| - 2..] == "\"."
    ensures detail.Some? ==> |detail.value| + 3 <= |r| && r[|r| - |detail.value| - 3..] == "\": " + detail.value
  {
    "No value is set for the required property \"" + JavaText(name)
    + Ending(detail)
  }

  /** The message of a missing property tells whether a detail was given,
      and which. */
  lemma MissingMessageDeterminesDetail(name: Option<string>, d1: Option<string>, d2: Option<string>)
    ensures CreateMissingMessage(name, d1) == CreateMissingMessage(name, d2) <==> d1 == d2
  {
    var head := "No value is set for the required property \"" + JavaText(name);
    if CreateMissingMessage(name, d1) == CreateMissingMessage(name, d2) {
      CommonHeadCancels(head, Ending(d1), Ending(d2));
      EndingInjective(d1, d2);
    }
  }

  /** `MissingRequiredPropertyException(propertyName, detail)`: the name is
      rejected by the superclass check only after the message is built;
      the cause is always null. */
  function NewMissingRequiredProperty(name: Option<string>, detail: Option<string>)
    : (r: Result<MissingRequiredPropertyException, ArgumentError>)
    ensures r.Success? <==> name.Some?
    ensures r.Success? ==>
      && Some(GetPropertyName(r.value.base)) == name
      && r.value.detail == detail
      && r.value.base.cause.None?
      && r.value.base.message == Some(CreateMissingMessage(name, detail))
  {
    var base := NewPropertyException(name, Some(CreateMissingMessage(name, detail)), None);
    if base.Failure? then Failure(base.error)
    else Success(MissingRequiredPropertyException(base.value, detail))
  }

  /** `MissingRequiredPropertyException(propertyName)`: the same as a null
      detail. */
  function NewMissingRequiredPropertyWithoutDetail(name: Option<string>)
    : (r: Result<MissingRequiredPropertyException, ArgumentError>)
    ensures r.Success? <==> name.Some?
    ensures r.Success? ==> r.value.detail.None?
    ensures r.Success? ==>
      r.value.base.message == Some("No value is set for the required property \"" + name.value + "\".")
  {
    NewMissingRequiredProperty(name, None)
  }
}
