/** Values shared by every stage of the pipeline: tokens, errors and results. */
module Syntax {

  datatype Option<+T> = None | Some(value: T)

  /** The four token classes the tokenizer emits (the `type` field of a token). */
  datatype TokenType = Punctuator | Numeric | Identifier | Keyword

  /** A token: its class and the exact source text it was built from. */
  datatype Token = Token(kind: TokenType, value: string)

  /** Every way a stage of the pipeline can fail.
      - LexError: a character no tokenizer rule accepts (the character is named).
      - ParseError: the parser met a token it has no rule for (the token type is named).
      - UndefinedToken: the parser read a token past the end of the sequence.
      - UnknownNodeType: the traverser or the code generator met a node type it
        does not handle (the type name is named).
      - NotIterable: the traverser asked a `null` or `undefined` child slot for `forEach`.
      - MissingContext: the transformer appended to the context of a parent that has none.
      - NullNode: the code generator was handed `null` (a declarator without initializer). */
  datatype Error =
    | LexError(ch: char)
    | ParseError(tokenType: TokenType)
    | UndefinedToken
    | UnknownNodeType(typeName: string)
    | NotIterable
    | MissingContext
    | NullNode

  /** The outcome of a stage: a value, or the error that aborted it. */
  datatype Result<+T> = Ok(value: T) | Err(error: Error) {
    predicate IsFailure() { Err? }

    function PropagateFailure<U>(): Result<U>
      requires Err?
    {
      Err(error)
    }

    function Extract(): T
      requires Ok?
    {
      value
    }
  }

  /** `xs` put in front of the items of a successful result; an error passes through. */
  function Prefixed<T>(xs: seq<T>, r: Result<seq<T>>): Result<seq<T>> {
    match r
    case Ok(rest) => Ok(xs + rest)
    case Err(e) => Err(e)
  }

  lemma PrefixedAssociative<T>(a: seq<T>, b: seq<T>, r: Result<seq<T>>)
    ensures Prefixed(a, Prefixed(b, r)) == Prefixed(a + b, r)
  {
    if r.Ok? {
      assert a + (b + r.value) == (a + b) + r.value;
    }
  }

  /** The items of two results, one after the other; the first error wins. */
  function Concatenated<T>(r1: Result<seq<T>>, r2: Result<seq<T>>): Result<seq<T>> {
    match r1
    case Ok(xs) => Prefixed(xs, r2)
    case Err(e) => Err(e)
  }
}
