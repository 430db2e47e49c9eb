/** Tokens and the character classes both tokenizers test (my-demo.js:106-108, my-demo2.js:3-9). */
module Tokens {

  /** The `type` field of a token. */
  datatype TokenKind = ParenToken | NameToken | NumberToken | StringToken

  /** A token `{ type, value }`; the value is the text the token carries. */
  datatype Token = Token(kind: TokenKind, value: string)

  /** `/\s/`: the white space and line terminator characters of ECMAScript. */
  predicate IsWhitespace(c: char) {
    || c == '\t' || c == '\n' || c == '\U{000B}' || c == '\U{000C}' || c == '\r' || c == ' '
    || c == '\U{00A0}' || c == '\U{1680}' || ('\U{2000}' <= c <= '\U{200A}')
    || c == '\U{2028}' || c == '\U{2029}' || c == '\U{202F}' || c == '\U{205F}'
    || c == '\U{3000}' || c == '\U{FEFF}'
  }

  /** `/[0-9]/` */
  predicate IsDigit(c: char) {
    '0' <= c <= '9'
  }

  /** `/[a-z]/i`, which is the same class as `/[a-zA-Z]/` */
  predicate IsLetter(c: char) {
    ('a' <= c <= 'z') || ('A' <= c <= 'Z')
  }

  /** The token `{ type: 'paren', value: '(' }` */
  const OpenParen := Token(ParenToken, "(")

  /** The token `{ type: 'paren', value: ')' }` */
  const CloseParen := Token(ParenToken, ")")
}
