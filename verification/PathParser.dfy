/** The hand-written path parser, and its agreement with the grammar. */
module PathParser {
  import opened Common
  import opened DecimalText
  import opened PathGrammar

  datatype Result = Parsed(operations: seq<Operation>) | Rejected(unsupported: bool, offset: nat)

  // The outcome of one scan: a lexeme and the position after it, or an error.
  datatype Scanned = Token(piece: Piece, next: nat) | Bad(unsupported: bool, offset: nat)

  /* ---------- the scans, on the text that is left and its position ---------- */

  function NameLength(rest: string): (n: nat)
    ensures n <= |rest|
  {
    if rest == "" || !IdentifierPart(rest[0]) then 0 else 1 + NameLength(rest[1..])
  }

  function DigitsLength(rest: string): (n: nat)
    ensures n <= |rest| && AllDigits(rest[..n])
  {
    if rest == "" || !Digit(rest[0]) then 0
    else
      var n := DigitsLength(rest[1..]);
      assert rest[..n + 1] == [rest[0]] + rest[1..][..n];
      1 + n
  }

  function ScanName(rest: string, at: nat, dotted: bool): Scanned {
    if rest == "" || !IdentifierStart(rest[0]) then Bad(rest != "" && rest[0] in "*?|", at + 1)
    else
      var n := NameLength(rest);
      Token(if dotted then Dotted(rest[..n]) else Bare(rest[..n]), at + n)
  }

  function ScanQuoted(rest: string, key: string, open: nat, at: nat): Scanned
    decreases |rest|
  {
    if rest == "" then Bad(false, open + 1)
    else if rest[0] == '\'' then
      if |rest| < 2 || rest[1] != ']' then Bad(false, open + 1) else Token(Quoted(key), at + 2)
    else if rest[0] == '\\' then
      if |rest| < 2 || (rest[1] != '\\' && rest[1] != '\'') then Bad(false, at + 2)
      else ScanQuoted(rest[2..], key + [rest[1]], open, at + 2)
    else ScanQuoted(rest[1..], key + [rest[0]], open, at + 1)
  }

  function ScanIndex(rest: string, open: nat, at: nat): Scanned {
    var n := DigitsLength(rest);
    if n == |rest| || rest[n] != ']' then
      if n < |rest| && (rest[n] == ':' || rest[n] == ',') then Bad(true, at + n + 1) else Bad(false, open + 1)
    else if DigitsValue(rest[..n]) > MAX_INT64 then Bad(false, at + 1)
    else Token(Digits(rest[..n]), at + n + 1)
  }

  function ScanBracket(rest: string, at: nat): Scanned
    requires rest != "" && rest[0] == '['
  {
    if |rest| < 2 then Bad(false, at + 1)
    else if rest[1] == '\'' then ScanQuoted(rest[2..], "", at, at + 2)
    else if rest[1] == '"' then Bad(true, at + 2)
    else if rest[1] == '*' then
      if |rest| < 3 || rest[2] != ']' then Bad(false, at + 1) else Token(Star, at + 3)
    else if rest[1] == '-' || rest[1] in "?:," then Bad(true, at + 2)
    else if !Digit(rest[1]) then Bad(rest[1] != ']', at + 2)
    else ScanIndex(rest[1..], at, at + 1)
  }

  function Scan(rest: string, at: nat): Scanned
    requires rest != ""
  {
    if rest[0] == '.' then
      if |rest| >= 2 && rest[1] == '.' then Bad(true, at + 1) else ScanName(rest[1..], at + 1, true)
    else if rest[0] == '[' then ScanBracket(rest, at)
    else if IdentifierStart(rest[0]) then ScanName(rest, at, false)
    else Bad(rest[0] in "$|?*:@", at + 1)
  }

  // Every lexeme is valid, moves forward and stays inside the text, unless its key holds a brace.
  lemma {:induction false} QuotedAdvances(rest: string, key: string, open: nat, at: nat)
    ensures var s := ScanQuoted(rest, key, open, at);
            s.Token? ==> s.piece.Quoted? && at < s.next <= at + |rest|
    decreases |rest|
  {
    if rest != "" && rest[0] != '\'' {
      if rest[0] == '\\' {
        if |rest| >= 2 { QuotedAdvances(rest[2..], key + [rest[1]], open, at + 2); }
      } else {
        QuotedAdvances(rest[1..], key + [rest[0]], open, at + 1);
      }
    }
  }

  lemma NameStarts(rest: string)
    requires rest != "" && IdentifierStart(rest[0])
    ensures NameLength(rest) > 0
  {
  }

  lemma DigitsStart(rest: string)
    requires rest != "" && Digit(rest[0])
    ensures DigitsLength(rest) > 0
  {
  }

  lemma ScanAdvances(rest: string, at: nat)
    requires rest != ""
    ensures var s := Scan(rest, at); s.Token? ==> at < s.next <= at + |rest|
  {
    if rest[0] == '.' {
      if |rest| > 1 && IdentifierStart(rest[1]) { NameStarts(rest[1..]); }
    } else if rest[0] == '[' {
      if |rest| > 1 {
        QuotedAdvances(rest[2..], "", at, at + 2);
        if Digit(rest[1]) { DigitsStart(rest[1..]); }
      }
    } else if IdentifierStart(rest[0]) {
      NameStarts(rest);
    }
  }

  // The lexemes of the rest of a body, or the first error.
  datatype Lexed = Lexemes(pieces: seq<Piece>) | Error(unsupported: bool, offset: nat)

  function Lex(rest: string, at: nat, pieces: seq<Piece>): Lexed
    decreases |rest|
  {
    if rest == "" then Lexemes(pieces)
    else
      ScanAdvances(rest, at);
      match Scan(rest, at)
      case Bad(unsupported, offset) => Error(unsupported, offset)
      case Token(piece, next) => Lex(rest[next - at..], next, pieces + [piece])
  }

  predicate Space(c: char) { c in " \t\n\r" || c as int == 11 || c as int == 12 }

  predicate TextOutside(path: string) {
    if path != "" && path[0] == '{' then '}' in path[..|path| - 1]
    else '{' in path || '}' in path || (path != "" && (Space(path[0]) || Space(path[|path| - 1])))
  }

  function Operations(l: Lexed): Result
    requires l.Lexemes? ==> forall i :: 0 <= i < |l.pieces| ==> ValidPiece(l.pieces[i])
  {
    match l
    case Lexemes(pieces) => Parsed(Meanings(pieces))
    case Error(unsupported, offset) => Rejected(unsupported, offset)
  }

  // The checks made before lexing; None lets the body through.
  function Delimiters(path: string): (r: Result)
    ensures r.Parsed? ==>
        r.operations == [] && |path| >= 3 && path[0] == '{' && path[1] == '.' && path[|path| - 1] == '}'
        && BraceFree(path[1..|path| - 1]) && path[1..|path| - 1] != ".." && (|path| >= 4 ==> path[2] != '.')
  {
    if path == "" then Rejected(false, 0)
    else if TextOutside(path) then Rejected(true, 0)
    else if |path| < 2 || path[0] != '{' || path[|path| - 1] != '}' then Rejected(false, 0)
    else
      var body := path[1..|path| - 1];
      if '{' in body || '}' in body then Rejected(true, 1)
      else if |body| >= 2 && body[0] == '.' && body[1] == '.' then Rejected(true, 1)
      else if body == "" || body[0] != '.' then Rejected(false, 1)
      else Parsed([])
  }

  function Body(path: string): string
    requires |path| >= 2
  {
    path[1..|path| - 1]
  }

  /* ---------- soundness: what is lexed is what is written ---------- */

  lemma {:induction false} NameRead(rest: string)
    ensures var n := NameLength(rest);
            && (forall i :: 0 <= i < n ==> IdentifierPart(rest[i]))
            && (n < |rest| ==> !IdentifierPart(rest[n]))
  {
    if rest != "" && IdentifierPart(rest[0]) {
      NameRead(rest[1..]);
      var n := NameLength(rest[1..]);
      forall i | 0 <= i < n + 1 ensures IdentifierPart(rest[i]) {
        if i > 0 { assert rest[i] == rest[1..][i - 1]; }
      }
      if n + 1 < |rest| { assert rest[n + 1] == rest[1..][n]; }
    }
  }

  lemma {:induction false} QuotedRead(rest: string, key: string, open: nat, at: nat)
    requires ScanQuoted(rest, key, open, at).Token?
    ensures var s := ScanQuoted(rest, key, open, at);
            && s.piece.Quoted? && at < s.next <= at + |rest|
            && key <= s.piece.key && rest[..s.next - at] == Escape(s.piece.key[|key|..]) + ['\'', ']']
    decreases |rest|
  {
    EscapeEmpty();
    hide Escape;
    QuotedAdvances(rest, key, open, at);
    var s := ScanQuoted(rest, key, open, at);
    var read := rest[..s.next - at];
    if rest[0] == '\'' {
      assert s.piece.key[|key|..] == "";
      assert read == ['\'', ']'];
    } else {
      var k := if rest[0] == '\\' then 2 else 1;
      var c := if rest[0] == '\\' then rest[1] else rest[0];
      QuotedRead(rest[k..], key + [c], open, at + k);
      QuotedAdvances(rest[k..], key + [c], open, at + k);
      EscapeStep(s.piece.key, key, c);
      assert read == rest[..k] + rest[k..][..s.next - at - k];
    }
  }

  lemma EscapeEmpty()
    ensures Escape("") == ""
  {
  }

  lemma EscapeStep(all: string, key: string, c: char)
    requires key + [c] <= all
    ensures Escape(all[|key|..]) == (if c == '\\' || c == '\'' then ['\\', c] else [c]) + Escape(all[|key + [c]|..])
  {
    var tail := all[|key|..];
    assert tail[0] == (key + [c])[|key|] == c;
    assert tail[1..] == all[|key + [c]|..];
  }

  // A scanned lexeme is the text it covers; it is valid when that text holds no brace.
  lemma ScanSound(rest: string, at: nat)
    requires rest != "" && BraceFree(rest) && Scan(rest, at).Token?
    ensures var s := Scan(rest, at);
            && at < s.next <= at + |rest| && rest[..s.next - at] == Written(s.piece) && ValidPiece(s.piece)
            && (s.piece.Bare? ==> IdentifierPart(rest[0])) && (s.piece.Dotted? ==> rest[0] == '.')
            && (Following(s.piece) == AfterName && s.next - at < |rest| ==> !IdentifierPart(rest[s.next - at]))
  {
    ScanAdvances(rest, at);
    if rest[0] == '.' {
      NameSound(rest[1..], at + 1, true);
      var n := NameLength(rest[1..]);
      assert rest[..n + 1] == ['.'] + rest[1..][..n];
    } else if rest[0] == '[' {
      BracketSound(rest, at);
    } else {
      NameSound(rest, at, false);
    }
  }

  lemma NameSound(rest: string, at: nat, dotted: bool)
    requires ScanName(rest, at, dotted).Token?
    ensures var n := NameLength(rest); Name(rest[..n]) && (n < |rest| ==> !IdentifierPart(rest[n]))
  {
    NameRead(rest);
  }

  lemma BracketSound(rest: string, at: nat)
    requires rest != "" && rest[0] == '[' && BraceFree(rest) && ScanBracket(rest, at).Token?
    ensures var s := ScanBracket(rest, at);
            && at < s.next <= at + |rest| && rest[..s.next - at] == Written(s.piece) && ValidPiece(s.piece)
            && Following(s.piece) == AfterBracket
  {
    if rest[1] == '\'' {
      QuotedRead(rest[2..], "", at, at + 2);
      var s := ScanBracket(rest, at);
      assert s.piece.key[0..] == s.piece.key;
      assert rest[..s.next - at] == rest[..2] + rest[2..][..s.next - at - 2];
      assert rest[..2] == ['[', '\''];
      QuotedBraceFree(rest, rest[..s.next - at], s.piece.key);
    } else if rest[1] == '*' {
      assert rest[..3] == ['[', '*', ']'];
    } else {
      var n := DigitsLength(rest[1..]);
      DigitsStart(rest[1..]);
      assert rest[..n + 2] == ['['] + rest[1..][..n] + [']'];
    }
  }

  lemma {:induction false} EscapeHolds(key: string, c: char)
    requires c in key
    ensures c in Escape(key)
  {
    if key[0] != c { EscapeHolds(key[1..], c); }
  }

  lemma QuotedBraceFree(rest: string, read: string, key: string)
    requires BraceFree(rest) && read <= rest && read == ['[', '\''] + Escape(key) + ['\'', ']']
    ensures BraceFree(key)
  {
    if '{' in key {
      EscapeHolds(key, '{');
      InRead(rest, read, key, '{');
    }
    if '}' in key {
      EscapeHolds(key, '}');
      InRead(rest, read, key, '}');
    }
  }

  lemma InRead(rest: string, read: string, key: string, c: char)
    requires read <= rest && read == ['[', '\''] + Escape(key) + ['\'', ']'] && c in Escape(key)
    ensures c in rest
  {
    var i :| 0 <= i < |Escape(key)| && Escape(key)[i] == c;
    assert read[i + 2] == c;
    assert rest[i + 2] == c;
  }

  lemma SuffixBraceFree(s: string, n: nat)
    requires BraceFree(s) && n <= |s|
    ensures BraceFree(s[n..])
  {
  }

  // What lexing adds is well formed after what came before, and is written exactly as the text it read.
  lemma {:induction false} LexSound(rest: string, at: nat, pieces: seq<Piece>, b: Before)
    requires BraceFree(rest) && Lex(rest, at, pieces).Lexemes?
    requires b == AtStart ==> rest == "" || rest[0] != '.'
    requires b == AfterName ==> rest == "" || !IdentifierPart(rest[0])
    ensures var all := Lex(rest, at, pieces).pieces;
            pieces <= all && WellFormed(b, all[|pieces|..]) && rest == Rendered(all[|pieces|..])
    decreases |rest|
  {
    hide Scan, Written, ValidPiece, BraceFree;
    var all := Lex(rest, at, pieces).pieces;
    if rest == "" {
      assert all[|pieces|..] == [];
    } else {
      ScanSound(rest, at);
      var s := Scan(rest, at);
      var after := rest[s.next - at..];
      assert rest == rest[..s.next - at] + after;
      SuffixBraceFree(rest, s.next - at);
      LexSound(after, s.next, pieces + [s.piece], Following(s.piece));
      var more := all[|pieces + [s.piece]|..];
      assert all[|pieces|] == (pieces + [s.piece])[|pieces|] == s.piece;
      assert all[|pieces|..] == [s.piece] + more;
      assert ([s.piece] + more)[1..] == more;
    }
  }

  /* ---------- completeness: what is written is lexed ---------- */

  lemma {:induction false} NameScanned(name: string, rest: string)
    requires forall i :: 0 <= i < |name| ==> IdentifierPart(name[i])
    requires rest == "" || !IdentifierPart(rest[0])
    ensures NameLength(name + rest) == |name|
  {
    if name != "" {
      assert (name + rest)[1..] == name[1..] + rest;
      NameScanned(name[1..], rest);
    } else {
      assert name + rest == rest;
    }
  }

  lemma {:induction false} DigitsScanned(text: string, rest: string)
    requires AllDigits(text) && (rest == "" || !Digit(rest[0]))
    ensures DigitsLength(text + rest) == |text|
  {
    if text != "" {
      assert (text + rest)[1..] == text[1..] + rest;
      DigitsScanned(text[1..], rest);
    } else {
      assert text + rest == rest;
    }
  }

  lemma {:induction false} QuotedScanned(key: string, rest: string, read: string, open: nat, at: nat)
    ensures ScanQuoted(Escape(key) + ['\'', ']'] + rest, read, open, at)
        == Token(Quoted(read + key), at + |Escape(key)| + 2)
    decreases |key|
  {
    var text := Escape(key) + ['\'', ']'] + rest;
    if key == "" {
      assert text[0] == '\'' && text[1] == ']' && read + key == read;
    } else {
      var tail := Escape(key[1..]) + ['\'', ']'] + rest;
      QuotedScanned(key[1..], rest, read + [key[0]], open, at + |Escape(key)| - |Escape(key[1..])|);
      assert read + [key[0]] + key[1..] == read + key;
      if key[0] == '\\' || key[0] == '\'' {
        assert text == ['\\', key[0]] + tail;
        assert text[2..] == tail;
      } else {
        assert text == [key[0]] + tail;
        assert text[1..] == tail;
      }
    }
  }

  lemma BareScanned(name: string, rest: string, at: nat)
    requires Name(name) && (rest == "" || !IdentifierPart(rest[0]))
    ensures Scan(name + rest, at) == Token(Bare(name), at + |name|)
  {
    NameScanned(name, rest);
    assert (name + rest)[..|name|] == name && (name + rest)[0] == name[0];
  }

  lemma DottedScanned(name: string, rest: string, at: nat)
    requires Name(name) && (rest == "" || !IdentifierPart(rest[0]))
    ensures Scan(['.'] + name + rest, at) == Token(Dotted(name), at + 1 + |name|)
  {
    var text := ['.'] + name + rest;
    assert text[1..] == name + rest && text[1] == name[0];
    NameScanned(name, rest);
    assert (name + rest)[..|name|] == name && (name + rest)[0] == name[0];
  }

  lemma KeyScanned(key: string, rest: string, at: nat)
    ensures Scan(Written(Quoted(key)) + rest, at) == Token(Quoted(key), at + |Written(Quoted(key))|)
  {
    var text := Written(Quoted(key)) + rest;
    QuotedScanned(key, rest, "", at, at + 2);
    assert text[2..] == Escape(key) + ['\'', ']'] + rest;
    assert text[0] == '[' && text[1] == '\'' && "" + key == key;
  }

  lemma IndexScanned(digits: string, rest: string, at: nat)
    requires ValidIndex(digits)
    ensures Scan(['['] + digits + [']'] + rest, at) == Token(Digits(digits), at + 2 + |digits|)
  {
    var text := ['['] + digits + [']'] + rest;
    var inner := digits + ([']'] + rest);
    assert text[1..] == inner && text[1] == digits[0];
    DigitsScanned(digits, [']'] + rest);
    assert inner[..|digits|] == digits && inner[|digits|] == ']';
  }

  lemma WrittenScanned(p: Piece, rest: string, at: nat)
    requires ValidPiece(p) && (Following(p) == AfterName ==> rest == "" || !IdentifierPart(rest[0]))
    ensures Written(p) != "" && Scan(Written(p) + rest, at) == Token(p, at + |Written(p)|)
  {
    match p
    case Bare(name) => BareScanned(name, rest, at);
    case Dotted(name) => DottedScanned(name, rest, at);
    case Quoted(key) => KeyScanned(key, rest, at);
    case Digits(digits) => IndexScanned(digits, rest, at);
    case Star =>
  }

  lemma {:induction false} RenderedStart(pieces: seq<Piece>, b: Before)
    requires WellFormed(b, pieces)
    ensures b == AfterName ==> Rendered(pieces) == "" || !IdentifierPart(Rendered(pieces)[0])
    ensures b == AtStart ==> Rendered(pieces) == "" || Rendered(pieces)[0] != '.'
  {
    if pieces != [] {
      var w := Written(pieces[0]);
      assert w != "" && (w + Rendered(pieces[1..]))[0] == w[0];
    }
  }

  lemma {:induction false} LexComplete(pieces: seq<Piece>, b: Before, at: nat, before: seq<Piece>)
    requires WellFormed(b, pieces)
    ensures Lex(Rendered(pieces), at, before) == Lexemes(before + pieces)
    decreases |pieces|
  {
    hide Scan, Written, ValidPiece, May;
    if pieces == [] {
      assert before + pieces == before;
    } else {
      var p, rest := pieces[0], Rendered(pieces[1..]);
      RenderedStart(pieces[1..], Following(p));
      WrittenScanned(p, rest, at);
      var text := Written(p) + rest;
      assert text[|Written(p)|..] == rest;
      LexComplete(pieces[1..], Following(p), at + |Written(p)|, before + [p]);
      assert before + [p] + pieces[1..] == before + pieces;
    }
  }

  /* ---------- the whole path ---------- */

  lemma DelimitersShape(path: string)
    requires Delimiters(path).Parsed?
    ensures path == ['{', '.'] + Body(path)[1..] + ['}'] && BraceFree(Body(path)[1..])
    ensures Body(path)[1..] == "" || Body(path)[1..][0] != '.'
  {
    var rest := Body(path)[1..];
    assert Body(path) == ['.'] + rest;
    assert path == ['{'] + Body(path) + ['}'];
    assert forall c :: c in rest ==> c in Body(path);
  }

  lemma LexedValid(path: string)
    requires Delimiters(path).Parsed? && Lex(Body(path)[1..], 1, []).Lexemes?
    ensures var pieces := Lex(Body(path)[1..], 1, []).pieces;
            Derives(path, pieces) && forall i :: 0 <= i < |pieces| ==> ValidPiece(pieces[i])
  {
    DelimitersShape(path);
    LexSound(Body(path)[1..], 1, [], AtStart);
    var pieces := Lex(Body(path)[1..], 1, []).pieces;
    assert pieces[0..] == pieces;
    WellFormedValid(AtStart, pieces);
  }

  function Parse(path: string): Result {
    if Delimiters(path).Rejected? then Delimiters(path)
    else
      if Lex(Body(path)[1..], 1, []).Lexemes? then
        LexedValid(path);
        Operations(Lex(Body(path)[1..], 1, []))
      else Operations(Lex(Body(path)[1..], 1, []))
  }

  lemma {:induction false} WrittenBraceFree(key: string)
    requires BraceFree(key)
    ensures BraceFree(Escape(key))
  {
    if key != "" { WrittenBraceFree(key[1..]); }
  }

  lemma PieceBraceFree(p: Piece)
    requires ValidPiece(p)
    ensures BraceFree(Written(p))
  {
    match p
    case Quoted(key) => WrittenBraceFree(key);
    case Bare(name) => assert forall i :: 0 <= i < |name| ==> IdentifierPart(name[i]);
    case Dotted(name) => assert forall i :: 0 <= i < |name| ==> IdentifierPart(name[i]);
    case Digits(text) => assert forall i :: 0 <= i < |text| ==> Digit(text[i]);
    case Star =>
  }

  lemma {:induction false} RenderedBraceFree(pieces: seq<Piece>, b: Before)
    requires WellFormed(b, pieces)
    ensures BraceFree(Rendered(pieces))
    decreases |pieces|
  {
    if pieces != [] {
      PieceBraceFree(pieces[0]);
      RenderedBraceFree(pieces[1..], Following(pieces[0]));
    }
  }

  lemma DerivedDelimited(path: string, pieces: seq<Piece>)
    requires Derives(path, pieces)
    ensures Delimiters(path).Parsed? && Body(path)[1..] == Rendered(pieces)
  {
    RenderedBraceFree(pieces, AtStart);
    RenderedStart(pieces, AtStart);
    hide Rendered, WellFormed;
    var rest := Rendered(pieces);
    var body := Body(path);
    assert body == ['.'] + rest;
    assert body[1..] == rest;
    assert path[..|path| - 1] == ['{'] + body;
    assert BraceFree(body);
  }

  // The parser accepts exactly the derived paths, and returns the operations of their derivation.
  lemma AcceptsExactly(path: string, ops: seq<Operation>)
    ensures Parse(path) == Parsed(ops) <==>
            exists pieces ::
                Derives(path, pieces) && (forall i :: 0 <= i < |pieces| ==> ValidPiece(pieces[i]))
                && Meanings(pieces) == ops
  {
    if Parse(path) == Parsed(ops) {
      LexedValid(path);
      assert Meanings(Lex(Body(path)[1..], 1, []).pieces) == ops;
    }
    forall pieces | Derives(path, pieces) && (forall i :: 0 <= i < |pieces| ==> ValidPiece(pieces[i]))
        && Meanings(pieces) == ops
      ensures Parse(path) == Parsed(ops)
    {
      DerivedParsed(path, pieces);
    }
  }

  lemma DerivedParsed(path: string, pieces: seq<Piece>)
    requires Derives(path, pieces)
    ensures forall i :: 0 <= i < |pieces| ==> ValidPiece(pieces[i])
    ensures Parse(path) == Parsed(Meanings(pieces))
  {
    WellFormedValid(AtStart, pieces);
    DerivedDelimited(path, pieces);
    LexComplete(pieces, AtStart, 1, []);
    assert [] + pieces == pieces;
  }

  // A path has at most one derivation.
  lemma DerivationUnique(path: string, p: seq<Piece>, q: seq<Piece>)
    requires Derives(path, p) && Derives(path, q)
    ensures p == q
  {
    DerivedDelimited(path, p);
    DerivedDelimited(path, q);
    LexComplete(p, AtStart, 1, []);
    LexComplete(q, AtStart, 1, []);
    assert [] + p == p && [] + q == q;
  }

  /* ---------- the parser itself ---------- */

  class Parser {
    const input: string
    var position: nat

    constructor (input: string, position: nat)
      ensures this.input == input && this.position == position
    {
      this.input, this.position := input, position;
    }

    ghost predicate Valid()
      reads this
    {
      position <= |input|
    }

    // The text that is left.
    function Rest(): string
      requires Valid()
      reads this
    {
      input[position..]
    }

    // The scan's outcome, reached by moving to its end.
    ghost predicate Reached(expected: Scanned, got: Scanned)
      reads this
    {
      got == expected && (got.Token? ==> got.next == position)
    }

    method ParseIdentifier(dotted: bool) returns (s: Scanned)
      requires Valid()
      modifies this`position
      ensures Valid() && Reached(ScanName(old(Rest()), old(position), dotted), s)
    {
      var start := position;
      if start >= |input| || !IdentifierStart(input[start]) {
        if start < |input| && (input[start] == '*' || input[start] == '?' || input[start] == '|') {
          return Bad(true, start + 1);
        }
        return Bad(false, start + 1);
      }
      position := position + 1;
      assert input[start..][1..] == input[position..];
      while position < |input| && IdentifierPart(input[position])
        invariant start < position <= |input|
        invariant NameLength(input[start..]) == position - start + NameLength(input[position..])
      {
        assert input[position..][1..] == input[position + 1..];
        position := position + 1;
      }
      assert input[start..][..position - start] == input[start..position];
      var name := input[start..position];
      s := Token(if dotted then Dotted(name) else Bare(name), position);
    }

    method ParseQuotedKey(open: nat) returns (s: Scanned)
      requires Valid() && position < |input|
      modifies this`position
      ensures Valid() && Reached(ScanQuoted(old(Rest())[1..], "", open, old(position) + 1), s)
    {
      ghost var from := position + 1;
      assert input[position..][1..] == input[from..];
      position := position + 1;
      var key := "";
      while position < |input|
        invariant position <= |input|
        invariant ScanQuoted(input[position..], key, open, position) == ScanQuoted(input[from..], "", open, from)
      {
        var rest := input[position..];
        if input[position] == '\'' {
          position := position + 1;
          if position >= |input| || input[position] != ']' { return Bad(false, open + 1); }
          position := position + 1;
          return Token(Quoted(key), position);
        } else if input[position] == '\\' {
          position := position + 1;
          if position >= |input| || (input[position] != '\\' && input[position] != '\'') {
            return Bad(false, position + 1);
          }
          key := key + [input[position]];
          position := position + 1;
          assert rest[2..] == input[position..];
        } else {
          key := key + [input[position]];
          position := position + 1;
          assert rest[1..] == input[position..];
        }
      }
      return Bad(false, open + 1);
    }

    method ParseIndex(open: nat) returns (s: Scanned)
      requires Valid()
      modifies this`position
      ensures Valid() && Reached(ScanIndex(old(Rest()), open, old(position)), s)
    {
      var indexStart := position;
      while position < |input| && Digit(input[position])
        invariant indexStart <= position <= |input|
        invariant DigitsLength(input[indexStart..]) == position - indexStart + DigitsLength(input[position..])
      {
        assert input[position..][1..] == input[position + 1..];
        position := position + 1;
      }
      if position >= |input| || input[position] != ']' {
        if position < |input| && (input[position] == ':' || input[position] == ',') { return Bad(true, position + 1); }
        return Bad(false, open + 1);
      }
      assert input[indexStart..][..position - indexStart] == input[indexStart..position];
      var text := input[indexStart..position];
      position := position + 1;
      if DigitsValue(text) > MAX_INT64 { return Bad(false, indexStart + 1); }
      return Token(Digits(text), position);
    }

    method ParseBracket() returns (s: Scanned)
      requires Valid() && position < |input| && input[position] == '['
      modifies this`position
      ensures Valid() && Reached(ScanBracket(old(Rest()), old(position)), s)
    {
      hide ScanQuoted, ScanIndex;
      var start := position;
      ghost var rest := Rest();
      position := position + 1;
      if position >= |input| { return Bad(false, start + 1); }
      assert rest[1..] == input[position..] && rest[2..] == input[position..][1..];
      match input[position]
      case '\'' => s := ParseQuotedKey(start);
      case '"' => s := Bad(true, position + 1);
      case '*' =>
        position := position + 1;
        if position >= |input| || input[position] != ']' { return Bad(false, start + 1); }
        position := position + 1;
        s := Token(Star, position);
      case '-' => s := Bad(true, position + 1);
      case '?' => s := Bad(true, position + 1);
      case ':' => s := Bad(true, position + 1);
      case ',' => s := Bad(true, position + 1);
      case _ =>
        if !Digit(input[position]) { return Bad(input[position] != ']', position + 1); }
        s := ParseIndex(start);
    }

    method ParseToken() returns (s: Scanned)
      requires Valid() && position < |input|
      modifies this`position
      ensures Valid() && Reached(Scan(old(Rest()), old(position)), s)
    {
      hide ScanName, ScanBracket;
      ghost var rest := Rest();
      var c := input[position];
      if c == '.' {
        if position + 1 < |input| && input[position + 1] == '.' { return Bad(true, position + 1); }
        position := position + 1;
        assert rest[1..] == input[position..];
        s := ParseIdentifier(true);
      } else if c == '[' {
        s := ParseBracket();
      } else if IdentifierStart(c) {
        s := ParseIdentifier(false);
      } else {
        s := Bad(c in "$|?*:@", position + 1);
      }
    }
  }

  method ParsePath(path: string) returns (r: Result)
    ensures r == Parse(path)
  {
    hide Scan, Delimiters, Meaning, ValidPiece;
    var checked := Delimiters(path);
    if checked.Rejected? { return checked; }
    assert |path| >= 3 && path[1] == '.' by { DelimitersShape(path); }
    var body := Body(path);
    var parser := new Parser(body, 1);
    var operations: seq<Operation> := [];
    ghost var pieces: seq<Piece> := [];
    while parser.position < |body|
      invariant parser.Valid() && parser.input == body
      invariant Lex(body[parser.position..], parser.position, pieces) == Lex(body[1..], 1, [])
      invariant Understood(pieces, operations)
      invariant BraceFree(body)
      decreases |body| - parser.position
    {
      ghost var at := parser.position;
      SuffixBraceFree(body, at);
      var s := parser.ParseToken();
      match s
      case Bad(unsupported, offset) =>
        return Rejected(unsupported, offset);
      case Token(piece, next) =>
        ScanSound(body[at..], at);
        assert body[at..][next - at..] == body[next..];
        UnderstoodMore(pieces, operations, piece);
        pieces := pieces + [piece];
        operations := operations + [Meaning(piece)];
    }
    assert body[parser.position..] == "";
    return Parsed(operations);
  }

  ghost predicate Understood(pieces: seq<Piece>, operations: seq<Operation>) {
    && |pieces| == |operations|
    && forall i :: 0 <= i < |pieces| ==> ValidPiece(pieces[i]) && operations[i] == Meaning(pieces[i])
  }

  lemma UnderstoodMore(pieces: seq<Piece>, operations: seq<Operation>, piece: Piece)
    requires Understood(pieces, operations) && ValidPiece(piece)
    ensures Understood(pieces + [piece], operations + [Meaning(piece)])
  {
  }

  /* ---------- printing and parsing back ---------- */

  lemma {:induction false} BracketedWellFormed(ops: seq<Operation>, b: Before)
    requires forall i :: 0 <= i < |ops| ==> Printable(ops[i])
    ensures WellFormed(b, BracketedAll(ops))
    decreases |ops|
  {
    if ops != [] {
      BracketedWellFormed(ops[1..], AfterBracket);
      assert BracketedAll(ops)[1..] == BracketedAll(ops[1..]);
    }
  }

  // Printing in escaped bracket form parses back, exactly when the keys hold no brace and the indexes fit an int.
  lemma PrintedParsesBack(ops: seq<Operation>)
    ensures Parse(Printed(ops)) == Parsed(ops) <==> forall i :: 0 <= i < |ops| ==> Printable(ops[i])
  {
    hide Parse, Printed, Printable;
    if forall i :: 0 <= i < |ops| ==> Printable(ops[i]) { PrintableParses(ops); }
    if Parse(Printed(ops)) == Parsed(ops) { ParsedPrintable(Printed(ops), ops); }
  }

  lemma PrintableParses(ops: seq<Operation>)
    requires forall i :: 0 <= i < |ops| ==> Printable(ops[i])
    ensures Parse(Printed(ops)) == Parsed(ops)
  {
    hide Parse, WellFormed;
    BracketedWellFormed(ops, AtStart);
    DerivedParsed(Printed(ops), BracketedAll(ops));
    assert Meanings(BracketedAll(ops)) == ops;
  }

  // Whatever parses has printable operations only.
  lemma ParsedPrintable(path: string, ops: seq<Operation>)
    requires Parse(path) == Parsed(ops)
    ensures forall i :: 0 <= i < |ops| ==> Printable(ops[i])
  {
    LexedValid(path);
    var pieces := Lex(Body(path)[1..], 1, []).pieces;
    hide Lex, Body, Delimiters, Derives;
    assert ops == Meanings(pieces);
    forall i | 0 <= i < |ops| ensures Printable(ops[i]) { NameBraceFree(pieces[i]); }
  }

  lemma NameBraceFree(p: Piece)
    requires ValidPiece(p)
    ensures Printable(Meaning(p))
  {
    match p
    case Bare(name) => assert forall i :: 0 <= i < |name| ==> IdentifierPart(name[i]);
    case Dotted(name) => assert forall i :: 0 <= i < |name| ==> IdentifierPart(name[i]);
    case _ =>
  }
}
