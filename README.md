# A verified model of the MOM6 parameter-file parser

`mom6_parser.cpp` reads a MOM6-style parameter file and builds a flat map from parameter
names to values. A file is a sequence of lines:

- `KEY = value` assignments, with an optional inline comment after the value;
- `!`, `#` and `//` comments, which run to the end of the line;
- `/* ... */` comments, which may span lines;
- blank lines.

The recogniser is a PEGTL grammar: a PEG built from `seq`, `sor` (ordered choice, first match
wins), `star`, `opt`, `until` and `must`/`if_must` (an unrecoverable parse error). Semantic
actions attached to `identifier` and to the value rules update a two-field `Config`. The
identifier action remembers the current key. Every recognised value overwrites the entry under
that key.

This project models that core in Dafny and proves what the grammar and the actions promise.

- `values.dfy` (module `Values`): the stored `Value` (boolean, number, string) and `Binding`.
  It also holds the pure part of each action, which turns the matched text into the stored
  value.
- `grammar.dfy` (module `Grammar`): one pure function per grammar rule. Each rule looks at the
  input that remains and says how many characters it consumes. It answers `Option<nat>`, or a
  three-way `Step` (miss, hit, or raise) for the rules that contain the `if_must` of a quoted
  string. The value and line rules also give the binding their actions store. `Lines` is the
  whole `grammar` rule. It yields the bindings of an accepted file in order, or the offset of
  the parse error.
- `steps.dfy` (module `RuleSteps`): one unfolding of each composite rule, stated for whatever
  the rules it calls return. The proofs about concrete line shapes go through these, one rule
  at a time.
- `builder.dfy` (module `Builder`): the actions as imperative code.
  - `Config` is a class with the two fields of the source's struct. `SetKey` is the
    identifier action and `Store` is the value actions.
  - `Parse` is the driver. It allocates a `Config` and loops over `star<normal_line>`, firing
    the actions of each recognised line. It then handles `opt<last_line>` and `eof`.
  - `Parse` is proved to return exactly `Run`: the map that `Build` folds from the grammar's
    bindings, or the error offset.
- `tokens.dfy` (module `TokenFacts`): what the token rules accept, and which alternative of
  `value` wins.
- `lines.dfy` (module `FileFacts`): what each kind of line does to the result of the whole
  file, which files are rejected and where, and last-write-wins.
- `example.dfy` (module `Example`): a small file worked through line by line, and three
  rejected files.

Positions inside a rule are lengths of the remaining input. Error offsets of `Run` and `Parse`
count characters from the start of the file.

Some consequences of the grammar as the code writes it, each proved below:

- The `number` rule has no sign, so `-4.5` and `+1` are not numbers. In `5.` the dot is not
  part of the number, which makes a line ending in `5.` an error
  (`TokenFacts.NumberKeepsTrailingDot`, `FileFacts.TrailingDotRejected`).
- `path` is tried before `boolean` and matches every spelling `boolean` accepts (`true`, `T`,
  `.false.` and so on) at least as far. So these spellings are stored as strings, and the
  boolean action never fires (`TokenFacts.ValueNeverBool`, `TokenFacts.BooleanSpellingIsText`).
- There are no single-quoted strings, comma-separated lists, named blocks or multi-file runs.
- A line that starts with blanks is an error unless a comment follows the blanks: this covers
  indented assignments and lines made only of blanks (`FileFacts.IndentedLineRejected`).

Some members have no row of their own in the table below:

- the rules whose own contract gives only bounds: `decimal`, `exponent`, `number`, `value`,
  the comment rules, `assignment`, the line rules and `grammar`;
- `TrueKw`, `FalseKw` and `Eol`, which are spellings the rules are built from;
- the pure parts of the actions in `Values` (`BoolAction`, `NumberAction`, `QuotedAction`,
  `PathAction`).

The lemmas about the rules state what each rule accepts and what it yields. Those lemmas are
listed, and so are the lemmas about the values the actions store (`TokenFacts.ValueNumber`,
`TokenFacts.ValueQuoted`, `TokenFacts.ValuePath`, `TokenFacts.BooleanSpellingIsText`).

## Model

| member | source | states |
|---|---|---|
| Grammar.Munch | mom6_parser.cpp:26 | `star` of a character class consumes the longest prefix of class characters: every character before the stop is in the class and the one at the stop is not |
| Grammar.Ws | mom6_parser.cpp:26 | `ws` consumes only spaces and tabs, and stops at the first character that is neither |
| Grammar.Identifier | mom6_parser.cpp:29-33 | `identifier` matches exactly when the input starts with a letter or `_`; what it takes is an identifier, and it stops only where the identifier characters stop |
| Grammar.Boolean | mom6_parser.cpp:53-60 | `boolean` matches a non-empty prefix of the input made only of path characters |
| Grammar.Digits | mom6_parser.cpp:80 | `digits` matches exactly when the input starts with a digit, and takes every digit that follows |
| Grammar.UntilChar | mom6_parser.cpp:110 | `until<one<'"'>>` fails exactly when no quote follows; otherwise it stops just after the first quote |
| Grammar.QuotedString | mom6_parser.cpp:107-111 | `quoted_string` misses exactly when the input does not start with `"`; it matches up to and including the next `"` with no quote in between; without a closing quote it raises at the end of the input |
| Grammar.Path | mom6_parser.cpp:115-122 | `path` matches exactly when the input starts with a path character, and takes the whole run of path characters at the head of the input |
| Grammar.UntilClose | mom6_parser.cpp:136-139 | `until<"*/">` fails exactly when no `*/` follows; otherwise it stops just after the first `*/` |
| Builder.Config.constructor | mom6_parser.cpp:17-20 | a fresh `Config` has an empty map and an empty current key |
| Builder.Config.SetKey | mom6_parser.cpp:206-212 | the identifier action sets the current key and leaves the map alone |
| Builder.Config.Store | mom6_parser.cpp:226-233 | a value action overwrites the entry under the current key, and changes nothing else |
| Builder.Config.Apply | mom6_parser.cpp:160-166 | the two actions of one assignment leave the key current and the map updated at that key |
| Builder.Build | mom6_parser.cpp:206-276 | the keys of the built map are exactly the keys assigned by the file |
| Builder.Parse | mom6_parser.cpp:191-196 | the action-driven parse returns exactly the map built from the accepted file's assignment lines, in order, or the error offset |
| TokenFacts.DecimalShape | mom6_parser.cpp:83-88 | what `decimal` takes is optional digits, one dot and at least one digit, and it always holds the dot |
| TokenFacts.MantissaShape | mom6_parser.cpp:101 | what `sor<decimal, digits>` takes is a mantissa of one of the two shapes |
| TokenFacts.ExponentShape | mom6_parser.cpp:91-96 | what `exponent` takes is `e` or `E`, an optional sign and at least one digit |
| TokenFacts.NumberShape | mom6_parser.cpp:99-103 | what `number` takes is a mantissa of one of the two shapes, optionally followed by an exponent |
| TokenFacts.MantissaWhole | mom6_parser.cpp:101 | a mantissa of either shape followed by neither a digit nor a dot is taken whole by `sor<decimal, digits>` |
| TokenFacts.ExponentWhole | mom6_parser.cpp:91-96 | an exponent followed by anything but a digit is taken whole by `exponent` |
| TokenFacts.NumberWhole | mom6_parser.cpp:99-103 | the converse of `NumberShape`: a number text followed by neither a digit, a dot nor an exponent mark is taken whole by `number`, so `1.5e3` followed by an end of line is a number of five characters |
| TokenFacts.NumberStart | mom6_parser.cpp:78-103 | `number` matches exactly when the input starts with a digit, or with a dot and a digit; never with a sign |
| TokenFacts.NumberOfDigits | mom6_parser.cpp:99-103 | an integer followed by anything but a digit, a dot or an exponent mark is a number of exactly its digits |
| TokenFacts.NumberKeepsTrailingDot | mom6_parser.cpp:83-88 | in `5.` followed by a non-digit, the number is the digits alone |
| TokenFacts.NumberKeepsBareExponent | mom6_parser.cpp:91-96 | in `1e` not followed by an optionally signed digit, the number is the digits alone |
| TokenFacts.BooleanWithinPath | mom6_parser.cpp:53-60 | whatever `boolean` matches, `path` matches at least as far |
| TokenFacts.ValueMiss | mom6_parser.cpp:126 | `value` misses exactly when the input is empty or starts with neither a quote nor a path character |
| TokenFacts.ValueNeverBool | mom6_parser.cpp:126 | `value` never yields a boolean: `path` is tried first and always matches |
| TokenFacts.ValueQuoted | mom6_parser.cpp:259-266 | a quoted string runs to the next quote, across lines if need be, and is stored without its two quotes |
| TokenFacts.ValueUnterminated | mom6_parser.cpp:107-111 | a quote that is never closed raises at the end of the input |
| TokenFacts.ValueNumber | mom6_parser.cpp:226-233 | whatever `number` matches is stored as a number with exactly the matched text |
| TokenFacts.ValuePath | mom6_parser.cpp:269-276 | what `number` rejects but starts with a path character is stored verbatim as the longest run of path characters |
| TokenFacts.BooleanSpellingIsText | mom6_parser.cpp:215-224 | every spelling `boolean` accepts, standing alone, is stored as a string |
| TokenFacts.SignedAndPathsAreText | mom6_parser.cpp:115-122 | `-4.5` and `./in/file.nc` are stored as strings, and `+1` is not a value |
| TokenFacts.TextWhole | mom6_parser.cpp:115-122 | a token made only of path characters, on which `number` does not start, is stored whole as a string |
| TokenFacts.LineCommentStopsAtEol | mom6_parser.cpp:152-153 | a `!`, `#` or `//` comment runs to the end of the line and never consumes `\n` or `\r` |
| TokenFacts.CCommentWithinComment | mom6_parser.cpp:169-173 | the separate `c_comment` alternative of a line body matches only where `comment` already matches the same text |
| FileFacts.WsPrefix | mom6_parser.cpp:26 | `ws` takes exactly the leading blanks |
| FileFacts.IdentifierOf | mom6_parser.cpp:29-33 | `identifier` takes a whole identifier and stops where it ends |
| FileFacts.CommentStartOf | mom6_parser.cpp:144-146 | `comment_start` recognises `!`, `#` and `//` |
| FileFacts.LineComment | mom6_parser.cpp:152-153 | an indented `!`, `#` or `//` comment runs up to the end of line that follows its text |
| FileFacts.BlockComment | mom6_parser.cpp:154 | an indented block comment runs to its first `*/`, across lines if need be |
| FileFacts.LineCommentWhole | mom6_parser.cpp:165 | an inline `!`, `#` or `//` comment before an end of line is recognised whole |
| FileFacts.BlockCommentWhole | mom6_parser.cpp:150-154 | an inline block comment with no `*/` inside it is recognised whole, whatever follows it |
| FileFacts.AfterEqualsValue | mom6_parser.cpp:162-165 | after the `=`, the value the `value` rule recognises is the one bound, and blanks and an inline comment after it change nothing |
| FileFacts.BlankLine | mom6_parser.cpp:176-177 | a blank line changes nothing: the map is the map of the rest, and an error in the rest moves back by the line's length |
| FileFacts.LineCommentLine | mom6_parser.cpp:152-153 | a line ending in an end of line and holding only a `!`, `#` or `//` comment, indented or not, changes nothing |
| FileFacts.LineCommentLast | mom6_parser.cpp:187-196 | a file made of a last line without an end of line that holds only a `!`, `#` or `//` comment is accepted with an empty map |
| FileFacts.BlockCommentLine | mom6_parser.cpp:136-139 | a line ending in an end of line and holding only a block comment changes nothing, however many lines the comment spans |
| FileFacts.BlockCommentLast | mom6_parser.cpp:187-196 | a file made of a last line without an end of line that holds only a block comment is accepted with an empty map |
| FileFacts.AssignmentLine | mom6_parser.cpp:160-166 | an assignment line, with or without an inline line or block comment, binds its key to the recognised value, unless a later line assigns the key again; otherwise the rest's map and errors carry through |
| FileFacts.AssignmentLast | mom6_parser.cpp:187-196 | the last line may lack its end of line: an assignment there, with or without an inline line or block comment, still binds its key |
| FileFacts.BodyOverrun | mom6_parser.cpp:191-196 | a line body followed by neither an end of line nor the end of input rejects the file where the body stops |
| FileFacts.IndentedLineRejected | mom6_parser.cpp:187-196 | a line starting with blanks is rejected at its start whenever what follows the blanks opens no `!`, `#`, `//` or closed block comment; this covers indented assignments, indented values and lines of blanks alone |
| FileFacts.FatalAssignment | mom6_parser.cpp:191-196 | an assignment that raises rejects the whole file at its end |
| FileFacts.UnterminatedQuoteRejected | mom6_parser.cpp:107-111 | an assignment whose quoted value is never closed rejects the file at its end |
| FileFacts.NumberOverrunRejected | mom6_parser.cpp:126 | a value that starts as a number and goes on with path characters (`1.2.3`, `2023/run`) is rejected where the number stops, because `value` does not backtrack |
| FileFacts.TrailingDotRejected | mom6_parser.cpp:83-88 | `x = 5.` is rejected at the dot, whatever follows it |
| FileFacts.BuildLastWins | mom6_parser.cpp:226-233 | last write wins: after the file, a key holds the value of its last assignment |
| FileFacts.BuildPrepend | mom6_parser.cpp:226-233 | an assignment survives later ones only when none of them assigns its key |
| FileFacts.RunPrepend | mom6_parser.cpp:193 | a normal line in front of a file moves the rest's error back by its length; on success its binding is kept exactly when no later line assigns its key |
| Example.LastAssignmentWins | mom6_parser.cpp:191-196 | `dt = 900`, `! step`, `dt = 1800` without a final end of line gives the map `dt` -> `1800` |
| Example.FirstLine | mom6_parser.cpp:226-233 | `dt = 900` in front of any file that parses and assigns `dt` changes nothing |
| Example.TrailingDotExample | mom6_parser.cpp:83-88 | `x = 5.` is rejected at offset 5 |
| Example.IndentedExample | mom6_parser.cpp:191-196 | an indented assignment is rejected at offset 0 |
| Example.UnterminatedExample | mom6_parser.cpp:107-111 | an unclosed quote is rejected at the end of the input |

## Left out

- `main` (mom6_parser.cpp:282-321) is not modelled. This covers the argument check, the reading of the file and the printing of the map. The file's contents are the parameter of `Parse`, and the map is its result.
- `pegtl::analyze` (mom6_parser.cpp:289) is not modelled, because it only checks the grammar for infinite loops.
- The numeric conversion in the number action (mom6_parser.cpp:230) is not modelled, because it is floating point. A number is stored as the text the `number` rule matched.
- Builder.Parse: `std::stod` (mom6_parser.cpp:230) throws `std::out_of_range` on a literal whose value does not fit a `double`, such as `1e999` or `1e-400`. `main` catches only the parse error (mom6_parser.cpp:310), so the program ends abnormally. The model accepts such a file and stores the literal's text.
- Error messages give a line and column (mom6_parser.cpp:310-316). The model returns the offset of the error from the start of the file instead.
- The 64-bit integer alternative of the value type (mom6_parser.cpp:15) is left out, because no action produces it. The commented-out rules and actions (mom6_parser.cpp:63-77, 235-256) are left out too.
- PEGTL does not undo actions when a parse fails, so a failed parse leaves a partly filled `Config` behind. `Parse` returns only the error offset and no map, which is what the program prints.
- Actions can fire twice for one line. When a `content_line` recognises an assignment but no end of line follows, the assignment's actions have already fired. `last_line` then recognises the same text and fires the same actions again with the same key and value. The map is the same either way, so the model applies them once.
- An identifier action whose assignment then fails only changes the current key, and a parse that fails returns no map. So such firings are not modelled.
- The input is modelled as characters. The source reads bytes, and its letter and digit classes are ASCII; no other encoding is modelled.
- `eol` is the line feed or the carriage return and line feed pair, the end of line PEGTL uses for file input. A lone carriage return does not end a line.
