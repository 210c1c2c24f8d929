/** Shared vocabulary of the service: optional values, record identifiers,
    the UUID shape check the handlers guard with, JavaScript truthiness for
    the `||` fallbacks of the update resolvers, and the reply status codes. */
module Base {

  /** `null` / `undefined` versus a present value. */
  datatype Option<+T> = None | Some(value: T)

  /** Record identifiers are strings (UUIDs generated by the store). */
  type Id = string

  /** The HTTP status a route handler leaves on its reply. `Ok` is the
      default status a handler does not overwrite. */
  datatype Status = Ok | NotFound | BadRequest

  predicate IsHexDigit(c: char) {
    ('0' <= c <= '9') || ('a' <= c <= 'f') || ('A' <= c <= 'F')
  }

  /** Positions of the four hyphens in the 8-4-4-4-12 textual form. */
  predicate IsHyphenPosition(i: int) {
    i == 8 || i == 13 || i == 18 || i == 23
  }

  /** The textual UUID form of section 3 of RFC 4122: 32 hexadecimal digits,
      either case, in groups of 8-4-4-4-12 separated by hyphens. This is the
      check the handlers delegate to `uuid.validate`. */
  predicate ValidUuid(s: string) {
    && |s| == 36
    && forall i :: 0 <= i < |s| ==>
         if IsHyphenPosition(i) then s[i] == '-' else IsHexDigit(s[i])
  }

  /** JavaScript truthiness of an optional string: absent and `""` are falsy. */
  predicate TruthyString(x: Option<string>) {
    x.Some? && x.value != ""
  }

  /** JavaScript truthiness of an optional number: absent and `0` are falsy. */
  predicate TruthyInt(x: Option<int>) {
    x.Some? && x.value != 0
  }

  /** `x || fallback` where the fallback is a stored, always present string. */
  function OrString(x: Option<string>, fallback: string): string {
    if TruthyString(x) then x.value else fallback
  }

  /** `x || y` where both sides are optional strings. */
  function OrOptString(x: Option<string>, y: Option<string>): Option<string> {
    if TruthyString(x) then x else y
  }

  /** `x || y` where both sides are optional numbers. */
  function OrOptInt(x: Option<int>, y: Option<int>): Option<int> {
    if TruthyInt(x) then x else y
  }

  /** `x || x` is `x` whatever `x` is: a falsy value falls back to itself. */
  lemma OrSelfIsIdentity(s: Option<string>, n: Option<int>)
    ensures OrOptString(s, s) == s
    ensures OrOptInt(n, n) == n
  {
  }
}
