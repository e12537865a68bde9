/** The path dialect: its lexemes and how they are written, and what they mean. */
module PathGrammar {
  import opened Common
  import opened DecimalText

  datatype Operation = Property(key: string) | Index(index: nat) | Wildcard

  // `Bare` follows the leading dot or a bracket; `Dotted` carries its own dot.
  datatype Piece = Bare(name: string) | Dotted(name: string) | Quoted(key: string) | Digits(text: string) | Star

  predicate IdentifierStart(c: char) { c == '_' || 'A' <= c <= 'Z' || 'a' <= c <= 'z' }

  predicate IdentifierPart(c: char) { IdentifierStart(c) || Digit(c) }

  predicate Name(s: string) {
    s != "" && IdentifierStart(s[0]) && forall i :: 0 <= i < |s| ==> IdentifierPart(s[i])
  }

  predicate BraceFree(s: string) { '{' !in s && '}' !in s }

  predicate ValidIndex(text: string) {
    text != "" && AllDigits(text) && DigitsValue(text) <= MAX_INT64
  }

  predicate ValidPiece(p: Piece) {
    match p
    case Bare(name) => Name(name)
    case Dotted(name) => Name(name)
    case Quoted(key) => BraceFree(key)
    case Digits(text) => ValidIndex(text)
    case Star => true
  }

  // What may stand next: at the very start no dot, and no bare name directly after a name.
  datatype Before = AtStart | AfterName | AfterBracket

  predicate May(b: Before, p: Piece) {
    match p
    case Bare(_) => b != AfterName
    case Dotted(_) => b != AtStart
    case _ => true
  }

  function Following(p: Piece): Before { if p.Bare? || p.Dotted? then AfterName else AfterBracket }

  predicate WellFormed(b: Before, pieces: seq<Piece>)
    decreases |pieces|
  {
    pieces == [] || (ValidPiece(pieces[0]) && May(b, pieces[0]) && WellFormed(Following(pieces[0]), pieces[1..]))
  }

  function Escape(key: string): string {
    if key == "" then ""
    else (if key[0] == '\\' || key[0] == '\'' then ['\\', key[0]] else [key[0]]) + Escape(key[1..])
  }

  function Written(p: Piece): string {
    match p
    case Bare(name) => name
    case Dotted(name) => ['.'] + name
    case Quoted(key) => ['[', '\''] + Escape(key) + ['\'', ']']
    case Digits(text) => ['['] + text + [']']
    case Star => ['[', '*', ']']
  }

  function Rendered(pieces: seq<Piece>): string {
    if pieces == [] then "" else Written(pieces[0]) + Rendered(pieces[1..])
  }

  function PathOf(pieces: seq<Piece>): string { ['{', '.'] + Rendered(pieces) + ['}'] }

  function Meaning(p: Piece): Operation
    requires ValidPiece(p)
  {
    match p
    case Bare(name) => Property(name)
    case Dotted(name) => Property(name)
    case Quoted(key) => Property(key)
    case Digits(text) => Index(DigitsValue(text))
    case Star => Wildcard
  }

  function Meanings(pieces: seq<Piece>): seq<Operation>
    requires forall i :: 0 <= i < |pieces| ==> ValidPiece(pieces[i])
  {
    seq(|pieces|, i requires 0 <= i < |pieces| => Meaning(pieces[i]))
  }

  lemma {:induction false} WellFormedValid(b: Before, pieces: seq<Piece>)
    requires WellFormed(b, pieces)
    ensures forall i :: 0 <= i < |pieces| ==> ValidPiece(pieces[i])
    decreases |pieces|
  {
    if pieces != [] { WellFormedValid(Following(pieces[0]), pieces[1..]); }
  }

  // A path is derived when it is the writing of a well-formed list of lexemes.
  ghost predicate Derives(path: string, pieces: seq<Piece>) {
    WellFormed(AtStart, pieces) && path == PathOf(pieces)
  }

  /* ---------- printing ---------- */

  // The escaped bracket form of an operation.
  function Bracketed(op: Operation): Piece {
    match op
    case Property(key) => Quoted(key)
    case Index(n) => Digits(Decimal(n))
    case Wildcard => Star
  }

  function BracketedAll(ops: seq<Operation>): seq<Piece> {
    seq(|ops|, i requires 0 <= i < |ops| => Bracketed(ops[i]))
  }

  function Printed(ops: seq<Operation>): string { PathOf(BracketedAll(ops)) }

  predicate Printable(op: Operation) {
    match op
    case Property(key) => BraceFree(key)
    case Index(n) => n <= MAX_INT64
    case Wildcard => true
  }
}
