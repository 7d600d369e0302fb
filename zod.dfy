/**
 * The part of the zod validation library the schemas use. A field arrives as a `Value`
 * (absent, a string or a number), and each check returns the messages of the issues it
 * raises, in the order zod reports them; an empty list means the field is accepted.
 * Where the schema gives no message of its own, the message is zod's default one.
 */
module Zod {
  import opened Text

  datatype Value = Missing | Str(s: string) | Num(n: int)

  function TypeName(v: Value): string {
    match v
    case Missing => "undefined"
    case Str(_) => "string"
    case Num(_) => "number"
  }

  /** The `invalid_type` issue: "Required" for an absent field, otherwise what was expected and received. */
  function TypeIssue(expected: string, v: Value): string {
    if v.Missing? then "Required" else "Expected " + expected + ", received " + TypeName(v)
  }

  /** `z.string()`. */
  function StringIssues(v: Value): (r: seq<string>)
    ensures r == [] <==> v.Str?
  {
    if v.Str? then [] else [TypeIssue("string", v)]
  }

  /** `z.string().min(n, message)`: the custom message when the string is shorter than `n`. */
  function MinLengthIssues(v: Value, n: nat, message: string): (r: seq<string>)
    ensures r == [] <==> v.Str? && |v.s| >= n
    ensures v.Str? && |v.s| < n ==> r == [message]
  {
    if !v.Str? then [TypeIssue("string", v)]
    else if |v.s| < n then [message]
    else []
  }

  /** `'a' | 'b' | ...`, the way zod lists the options of an enum. */
  function QuotedOptions(options: seq<string>): string {
    if |options| == 0 then ""
    else if |options| == 1 then "'" + options[0] + "'"
    else "'" + options[0] + "' | " + QuotedOptions(options[1..])
  }

  /** `z.enum(options)`. */
  function EnumIssues(v: Value, options: seq<string>): (r: seq<string>)
    ensures r == [] <==> v.Str? && v.s in options
  {
    if !v.Str? then [TypeIssue(QuotedOptions(options), v)]
    else if v.s in options then []
    else ["Invalid enum value. Expected " + QuotedOptions(options) + ", received '" + v.s + "'"]
  }

  /**
   * `z.string().url().or(z.string().startsWith("/"))`. Whether a string is a URL is zod's
   * regular expression, which this model leaves to the caller as `isUrl`. A string failing
   * both options reports the first option's issue; a non-string fails the union as a whole.
   */
  function UrlOrPathIssues(isUrl: string -> bool, v: Value): (r: seq<string>)
    ensures r == [] <==> v.Str? && (isUrl(v.s) || StartsWith(v.s, "/"))
  {
    match v
    case Str(u) => if isUrl(u) || StartsWith(u, "/") then [] else ["Invalid url"]
    case _ => ["Invalid input"]
  }

  /** `z.string().email()`, the address check again left to the caller as `isEmail`. */
  function EmailIssues(isEmail: string -> bool, v: Value): (r: seq<string>)
    ensures r == [] <==> v.Str? && isEmail(v.s)
  {
    match v
    case Str(e) => if isEmail(e) then [] else ["Invalid email"]
    case _ => [TypeIssue("string", v)]
  }

  /** `z.number().optional()`: absent, or a number of any sign. */
  function OptionalNumberIssues(v: Value): (r: seq<string>)
    ensures r == [] <==> !v.Str?
  {
    if v.Str? then [TypeIssue("number", v)] else []
  }
}
