/** The few pieces of the nom parser-combinator library that both puzzles use,
    stated directly on strings: the shape of a parse result and the primitive
    parsers `anychar`, `tag` and `newline`, and `opt(newline)`. */
module Nom {

  /** Why a parser gave up. */
  datatype Failure =
    | Error       // nom's recoverable `Err::Error`: `opt`, and `many1` after its first item, back off from it
    | Incomplete  // nom's `Err::Incomplete`: a streaming parser ran out of input; every combinator passes it on
    | Abort       // a `panic!` in the puzzle code itself: the process stops

  /** nom's `IResult<&str, T>`: the input left over and the value read, or a failure. */
  datatype Result<T> = Done(rest: string, value: T) | Fail(failure: Failure)

  /** `anychar`: reads one character; an empty input is a recoverable error. */
  function AnyChar(s: string): (r: Result<char>)
    ensures r.Done? <==> s != []
    ensures r.Done? ==> r.value == s[0] && r.rest == s[1..]
    ensures r.Fail? ==> r.failure == Error
  {
    if s == [] then Fail(Error) else Done(s[1..], s[0])
  }

  /** `tag(t)` as `Parser::parse` runs it, in nom's streaming mode: an input
      that is a proper prefix of `t` asks for more input instead of failing. */
  function Tag(t: string, s: string): (r: Result<string>)
    ensures r.Done? <==> t <= s
    ensures r.Done? ==> r.value == t && r.rest == s[|t|..]
    ensures r == Fail(Incomplete) <==> s < t
    ensures r.Fail? && !(s < t) ==> r.failure == Error
  {
    if t <= s then Done(s[|t|..], t)
    else if s <= t then Fail(Incomplete)
    else Fail(Error)
  }

  /** `character::complete::newline`: exactly one '\n'. */
  function Newline(s: string): (r: Result<char>)
    ensures r.Done? <==> s != [] && s[0] == '\n'
    ensures r.Done? ==> r.rest == s[1..]
    ensures r.Fail? ==> r.failure == Error
  {
    if s != [] && s[0] == '\n' then Done(s[1..], '\n') else Fail(Error)
  }

  /** What is left after `opt(newline)`; its value is always discarded by the
      puzzles, and it cannot fail because `newline` only fails recoverably. */
  function OptNewline(s: string): (r: string)
    ensures s != [] && s[0] == '\n' ==> r == s[1..]
    ensures (s == [] || s[0] != '\n') ==> r == s
  {
    match Newline(s)
    case Done(rest, _) => rest
    case Fail(_) => s
  }
}
