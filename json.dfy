/** `JSON.stringify` and `JSON.parse` as the token accessors use them: an
    encoding of the pair into a string and a parser that either gives a pair
    back or throws a SyntaxError. The JSON grammar itself is not modelled:
    a codec is any pair of functions, and `Lawful` states the two facts of
    real JSON the accessors depend on. */
module Json {
  import opened Types

  datatype TokenCodec = TokenCodec(stringify: Tokens -> string, parse: string -> Option<Tokens>)

  /** Parsing what was stringified gives the same pair back (so the encoding
      is injective), and the text of an object is never the empty string. */
  ghost predicate Lawful(codec: TokenCodec) {
    forall t :: codec.parse(codec.stringify(t)) == Some(t) && codec.stringify(t) != ""
  }
}
