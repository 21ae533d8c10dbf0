/** The three kinds of field constraint the form schemas declare, and the
    per-field check a schema runs. A field value is `None` when the form never
    registered the field (`undefined`) and `Some(s)` when an input produced `s`. */
module Schema {
  import opened Wrappers

  datatype Rule =
    | MinLength(min: nat, message: string)                    // a string of at least `min` characters
    | OneOf(options: seq<string>, requiredMessage: string)    // one of a fixed list of strings
    | Optional                                                // any string, or nothing

  /** The message a required string field gets when it is `undefined`: the
      schema library's default, since the schemas give none of their own. */
  const RequiredMessage: string := "Required"

  /** The library's default message for a present value outside an enum. */
  function EnumMessage(options: seq<string>, received: string): string {
    "Invalid enum value. Expected " + JoinQuoted(options) + ", received '" + received + "'"
  }

  function JoinQuoted(options: seq<string>): string {
    if options == [] then ""
    else if |options| == 1 then "'" + options[0] + "'"
    else "'" + options[0] + "' | " + JoinQuoted(options[1..])
  }

  /** Whether `v` is present with at least `n` characters. */
  predicate LongEnough(v: Option<string>, n: nat) {
    v.Some? && |v.value| >= n
  }

  /** The error message `rule` reports for `v`, or `None` when `v` passes. */
  function Check(rule: Rule, v: Option<string>): (err: Option<string>)
    ensures rule.Optional? ==> err.None?
    ensures rule.MinLength? ==> (err.None? <==> LongEnough(v, rule.min))
    ensures rule.OneOf? ==> (err.None? <==> v.Some? && v.value in rule.options)
    ensures err.Some? && v.None? ==>
              err.value == (if rule.OneOf? then rule.requiredMessage else RequiredMessage)
    ensures err.Some? && v.Some? && rule.MinLength? ==> err.value == rule.message
  {
    match rule
    case Optional => None
    case MinLength(min, message) =>
      (match v
       case None => Some(RequiredMessage)
       case Some(s) => if |s| < min then Some(message) else None)
    case OneOf(options, requiredMessage) =>
      (match v
       case None => Some(requiredMessage)
       case Some(s) => if s in options then None else Some(EnumMessage(options, s)))
  }
}
