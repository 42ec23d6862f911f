/** The values a parameter file can bind to a key, and the pure part of the semantic
    actions: how the text matched by a value rule becomes the value that is stored. */
module Values {

  /** The stored value. The source's variant also has a 64-bit integer alternative that no
      action ever produces; it is not modelled. A number is kept as the lexeme the `number`
      rule matched rather than as the double it would be converted to. */
  datatype Value =
    | Bool(b: bool)
    | Real(lexeme: string)
    | Text(text: string)

  /** One assignment line: the identifier and the value stored under it. */
  datatype Binding = Binding(key: string, value: Value)

  /** action<boolean>: only the three exact spellings below are true. */
  function BoolAction(lexeme: string): Value
  {
    Bool(lexeme == "True" || lexeme == "true" || lexeme == "T")
  }

  /** action<number>: the matched text, unconverted. */
  function NumberAction(lexeme: string): Value
  {
    Real(lexeme)
  }

  /** action<quoted_string>: the matched text without its first and last character. */
  function QuotedAction(lexeme: string): Value
    requires |lexeme| >= 2
  {
    Text(lexeme[1..|lexeme| - 1])
  }

  /** action<path>: the matched text, verbatim. */
  function PathAction(lexeme: string): Value
  {
    Text(lexeme)
  }
}
