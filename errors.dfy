/** The `Message::Error` hierarchy and the texts the errors carry. */
module Errors {
  import opened Wrappers
  import opened Decimal

  /** The Ruby classes involved: StandardError is the root of this model. */
  datatype ErrorClass = StandardErrorClass | GenericErrorClass | InvalidMessageClass | FailedRequestClass

  function Rank(c: ErrorClass): nat {
    match c
    case StandardErrorClass => 0
    case GenericErrorClass => 1
    case InvalidMessageClass => 2
    case FailedRequestClass => 2
  }

  /** The class each class is declared to inherit from. */
  function Superclass(c: ErrorClass): (r: Option<ErrorClass>)
    ensures r.Some? ==> Rank(r.value) < Rank(c)
  {
    match c
    case StandardErrorClass => None
    case GenericErrorClass => Some(StandardErrorClass)
    case InvalidMessageClass => Some(GenericErrorClass)
    case FailedRequestClass => Some(GenericErrorClass)
  }

  /** `c <= ancestor` in Ruby's terms: `ancestor` is `c` or one of its superclasses. */
  predicate IsA(c: ErrorClass, ancestor: ErrorClass)
    decreases Rank(c)
  {
    c == ancestor || (Superclass(c).Some? && IsA(Superclass(c).value, ancestor))
  }

  /** The two errors the message raises, with what they are raised about. */
  datatype Failure =
    | InvalidMessage(field: string)   // a required field is missing, nil or empty
    | FailedRequest(code: int)        // the endpoint answered with a status outside 2xx/3xx
  {
    function Class(): ErrorClass {
      match this
      case InvalidMessage(_) => InvalidMessageClass
      case FailedRequest(_) => FailedRequestClass
    }
  }

  const InvalidMessageSuffix: string := "' must be defined in Message"
  const FailedRequestPrefix: string := "The message failed to be sent (HTTP Code "

  /** The exception message each error is raised with. */
  function Text(f: Failure): (s: string)
    ensures f.InvalidMessage? ==> |s| > |InvalidMessageSuffix| && s[0] == '\''
    ensures f.InvalidMessage? ==> s[|s| - |InvalidMessageSuffix|..] == InvalidMessageSuffix
    ensures f.FailedRequest? ==> |s| > |FailedRequestPrefix| + 1 && s[|s| - 1] == ')'
    ensures f.FailedRequest? ==> s[..|FailedRequestPrefix|] == FailedRequestPrefix
  {
    match f
    case InvalidMessage(field) => "'" + field + InvalidMessageSuffix
    case FailedRequest(code) => FailedRequestPrefix + IntToString(code) + ")"
  }

  /** Recovers the error from its message text; None for a text no error is raised with. */
  function ParseText(s: string): Option<Failure> {
    var n := |InvalidMessageSuffix|;
    var m := |FailedRequestPrefix|;
    if |s| > n && s[0] == '\'' && s[|s| - n..] == InvalidMessageSuffix then
      Some(InvalidMessage(s[1..|s| - n]))
    else if |s| > m + 1 && s[..m] == FailedRequestPrefix && s[|s| - 1] == ')' then
      match ParseInt(s[m..|s| - 1])
      case Some(code) => Some(FailedRequest(code))
      case None => None
    else
      None
  }

  /** Both errors are GenericErrors (and so StandardErrors), and neither is a kind of the other. */
  lemma FailureHierarchy(f: Failure)
    ensures IsA(f.Class(), GenericErrorClass) && IsA(f.Class(), StandardErrorClass)
    ensures !IsA(GenericErrorClass, f.Class())
    ensures !IsA(InvalidMessageClass, FailedRequestClass) && !IsA(FailedRequestClass, InvalidMessageClass)
  {
  }

  /** The message text names the field or the HTTP code exactly: the error can be read back from it. */
  lemma TextRoundTrip(f: Failure)
    ensures ParseText(Text(f)) == Some(f)
  {
    var s := Text(f);
    match f
    case InvalidMessage(field) =>
      assert s[|s| - |InvalidMessageSuffix|..] == InvalidMessageSuffix;
      assert s[1..|s| - |InvalidMessageSuffix|] == field;
    case FailedRequest(code) =>
      assert s[0] == 'T';
      assert s[..|FailedRequestPrefix|] == FailedRequestPrefix;
      assert s[|FailedRequestPrefix|..|s| - 1] == IntToString(code);
      IntToStringRoundTrip(code);
  }

  /** Distinct errors are raised with distinct messages. */
  lemma TextInjective(a: Failure, b: Failure)
    requires Text(a) == Text(b)
    ensures a == b
  {
    TextRoundTrip(a);
    TextRoundTrip(b);
  }
}
