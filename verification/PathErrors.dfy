/** Which error a path is rejected with, and at which of its characters, told by how its text is written. */
module PathErrors {
  import opened Common
  import opened DecimalText
  import opened PathGrammar
  import opened PathParser

  /* ---------- text that starts no lexeme ---------- */

  predicate Heads(chars: string, s: string) { s != "" && s[0] in chars }

  // Neither a name, nor a dot before one, nor a bracket; `within` says how far into the text the error lies.
  predicate NoName(text: string, unsupported: bool, within: nat) {
    || (".." <= text && unsupported && within == 0)
    || ("." <= text && !(".." <= text) && (text == "." || !IdentifierStart(text[1]))
        && unsupported == Heads("*?|", text[1..]) && within == 1)
    || (text != "" && text[0] !in ".[" && !IdentifierStart(text[0])
        && unsupported == Heads("$|?*:@", text) && within == 0)
  }

  // A bracket that opens neither a quoted key, nor an index, nor a wildcard.
  predicate NoBracket(text: string, unsupported: bool, within: nat) {
    || (text == "[" && !unsupported && within == 0)
    || ("[*" <= text && !("[*]" <= text) && !unsupported && within == 0)
    || ("[" <= text && text != "[" && text[1] !in "'*" && !Digit(text[1])
        && unsupported == (text[1] != ']') && within == 1)
  }

  // A quoted key that is followed by something else than its closing quote and bracket.
  predicate NoKey(text: string, unsupported: bool, within: nat, key: string, tail: string) {
    && text == ['[', '\''] + Escape(key) + tail && !unsupported
    && if Heads("\\", tail) then
         !Heads("\\'", tail[1..]) && within == |Escape(key)| + 3
       else
         (tail == "" || Heads("'", tail)) && !(['\'', ']'] <= tail) && within == 0
  }

  // Digits that are not closed, or stand for too large a number.
  predicate NoIndex(text: string, unsupported: bool, within: nat, digits: string, tail: string) {
    && digits != "" && AllDigits(digits) && text == ['['] + digits + tail && !(tail != "" && Digit(tail[0]))
    && if Heads("]", tail) then DigitsValue(digits) > MAX_INT64 && !unsupported && within == 1
       else if Heads(":,", tail) then unsupported && within == 1 + |digits|
       else !unsupported && within == 0
  }

  ghost predicate Faulty(text: string, unsupported: bool, within: nat) {
    || NoName(text, unsupported, within)
    || NoBracket(text, unsupported, within)
    || (exists key, tail :: NoKey(text, unsupported, within, key, tail))
    || (exists digits, tail :: NoIndex(text, unsupported, within, digits, tail))
  }

  /* ---------- a scan fails exactly on such a text ---------- */

  // Reading an escaped key goes on with what follows it.
  lemma {:induction false} KeyRead(key: string, tail: string, read: string, open: nat, at: nat)
    ensures ScanQuoted(Escape(key) + tail, read, open, at) == ScanQuoted(tail, read + key, open, at + |Escape(key)|)
    decreases |key|
  {
    var text := Escape(key) + tail;
    if key == "" {
      assert text == tail && read + key == read;
    } else {
      var after := Escape(key[1..]) + tail;
      KeyRead(key[1..], tail, read + [key[0]], open, at + |Escape(key)| - |Escape(key[1..])|);
      assert read + [key[0]] + key[1..] == read + key;
      if key[0] == '\\' || key[0] == '\'' {
        assert text == ['\\', key[0]] + after;
        assert text[2..] == after;
      } else {
        assert text == [key[0]] + after;
        assert text[1..] == after;
      }
    }
  }

  // Where reading a key stops short: at the end, or at a quote or an escape that does not fit.
  predicate Unfit(tail: string) {
    || tail == ""
    || (tail[0] == '\'' && !(['\'', ']'] <= tail))
    || (tail[0] == '\\' && !Heads("\\'", tail[1..]))
  }

  // One more character of a key, and where its reading goes on.
  lemma QuotedGoesOn(rest: string, read: string, open: nat, at: nat) returns (k: nat, c: char)
    requires !Unfit(rest) && ScanQuoted(rest, read, open, at).Bad?
    ensures 1 <= k <= |rest| && ScanQuoted(rest, read, open, at) == ScanQuoted(rest[k..], read + [c], open, at + k)
    ensures rest[..k] == if c == '\\' || c == '\'' then ['\\', c] else [c]
  {
    k := if rest[0] == '\\' then 2 else 1;
    c := rest[k - 1];
  }

  lemma EscapeOne(c: char, key: string)
    ensures Escape([c] + key) == (if c == '\\' || c == '\'' then ['\\', c] else [c]) + Escape(key)
  {
    assert ([c] + key)[1..] == key;
  }

  lemma {:induction false} KeyFails(rest: string, read: string, open: nat, at: nat) returns (key: string, tail: string)
    requires ScanQuoted(rest, read, open, at).Bad?
    ensures rest == Escape(key) + tail && Unfit(tail)
    decreases |rest|
  {
    EscapeEmpty();
    hide Escape, Unfit;
    if Unfit(rest) {
      key, tail := "", rest;
    } else {
      var k, c := QuotedGoesOn(rest, read, open, at);
      hide ScanQuoted;
      key, tail := KeyFails(rest[k..], read + [c], open, at + k);
      EscapeOne(c, key);
      assert rest == rest[..k] + rest[k..];
      key := [c] + key;
    }
  }

  lemma KeyFault(text: string, at: nat, unsupported: bool, within: nat, key: string, tail: string)
    requires NoKey(text, unsupported, within, key, tail)
    ensures Scan(text, at) == Bad(unsupported, at + 1 + within)
  {
    KeyRead(key, tail, "", at, at + 2);
    assert text[2..] == Escape(key) + tail && text[0] == '[' && text[1] == '\'';
  }

  lemma IndexFault(text: string, at: nat, unsupported: bool, within: nat, digits: string, tail: string)
    requires NoIndex(text, unsupported, within, digits, tail)
    ensures Scan(text, at) == Bad(unsupported, at + 1 + within)
  {
    assert text[1..] == digits + tail && text[0] == '[' && text[1] == digits[0];
    DigitsScanned(digits, tail);
    assert (digits + tail)[..|digits|] == digits;
    assert tail != "" ==> (digits + tail)[|digits|] == tail[0];
  }

  lemma FaultFails(text: string, at: nat, unsupported: bool, within: nat)
    requires Faulty(text, unsupported, within)
    ensures text != "" && Scan(text, at) == Bad(unsupported, at + 1 + within)
  {
    if key, tail :| NoKey(text, unsupported, within, key, tail) {
      KeyFault(text, at, unsupported, within, key, tail);
    } else if digits, tail :| NoIndex(text, unsupported, within, digits, tail) {
      IndexFault(text, at, unsupported, within, digits, tail);
    }
  }

  lemma KeyFaulty(text: string, at: nat)
    requires "['" <= text && Scan(text, at).Bad?
    ensures var s := Scan(text, at); s.offset > at && Faulty(text, s.unsupported, s.offset - at - 1)
  {
    var s := ScanQuoted(text[2..], "", at, at + 2);
    assert text[0] == '[' && text[1] == '\'' && s == Scan(text, at);
    var key, tail := KeyFails(text[2..], "", at, at + 2);
    KeyRead(key, tail, "", at, at + 2);
    assert text == ['[', '\''] + Escape(key) + tail;
    hide Escape;
    assert NoKey(text, s.unsupported, s.offset - at - 1, key, tail);
  }

  lemma IndexFaulty(text: string, at: nat)
    requires |text| > 1 && text[0] == '[' && Digit(text[1]) && Scan(text, at).Bad?
    ensures var s := Scan(text, at); s.offset > at && Faulty(text, s.unsupported, s.offset - at - 1)
  {
    var s := ScanIndex(text[1..], at, at + 1);
    assert s == Scan(text, at);
    var n := DigitsLength(text[1..]);
    DigitsEnd(text[1..]);
    DigitsStart(text[1..]);
    hide DigitsLength, DigitsValue;
    var digits, tail := text[1..][..n], text[1..][n..];
    assert text == ['['] + digits + tail;
    assert NoIndex(text, s.unsupported, s.offset - at - 1, digits, tail);
  }

  lemma BracketFaulty(text: string, at: nat)
    requires text != "" && text[0] == '[' && Scan(text, at).Bad?
    ensures var s := Scan(text, at); s.offset > at && Faulty(text, s.unsupported, s.offset - at - 1)
  {
    if "['" <= text {
      KeyFaulty(text, at);
    } else if |text| > 1 && Digit(text[1]) {
      IndexFaulty(text, at);
    } else {
      var s := Scan(text, at);
      hide ScanQuoted, ScanIndex, NoName, NoKey, NoIndex;
      assert NoBracket(text, s.unsupported, s.offset - at - 1);
    }
  }

  lemma FailsFaulty(text: string, at: nat)
    requires text != "" && Scan(text, at).Bad?
    ensures var s := Scan(text, at); s.offset > at && Faulty(text, s.unsupported, s.offset - at - 1)
  {
    if text[0] == '[' {
      BracketFaulty(text, at);
    } else {
      var s := Scan(text, at);
      hide ScanBracket, NoBracket, NoKey, NoIndex, NameLength;
      assert NoName(text, s.unsupported, s.offset - at - 1);
    }
  }

  lemma {:induction false} DigitsEnd(rest: string)
    ensures var n := DigitsLength(rest); n < |rest| ==> !Digit(rest[n])
  {
    if rest != "" && Digit(rest[0]) {
      DigitsEnd(rest[1..]);
      var n := DigitsLength(rest[1..]);
      if n + 1 < |rest| { assert rest[n + 1] == rest[1..][n]; }
    }
  }

  /* ---------- lexing fails exactly behind the longest well-formed start ---------- */

  function Ends(b: Before, pieces: seq<Piece>): Before {
    if pieces == [] then b else Following(pieces[|pieces| - 1])
  }

  // The lexemes read before an error, and the text in which it lies; a name is read to its end.
  ghost predicate Stuck(b: Before, rest: string, pieces: seq<Piece>, text: string) {
    && WellFormed(b, pieces) && rest == Rendered(pieces) + text && text != ""
    && (Ends(b, pieces) == AfterName ==> !IdentifierPart(text[0]))
  }

  lemma {:induction false} LexFails(rest: string, at: nat, read: seq<Piece>, b: Before)
    returns (pieces: seq<Piece>, text: string)
    requires BraceFree(rest) && Lex(rest, at, read).Error?
    requires b == AtStart ==> rest == "" || rest[0] != '.'
    requires b == AfterName ==> rest == "" || !IdentifierPart(rest[0])
    ensures Stuck(b, rest, pieces, text)
    ensures var e := Lex(rest, at, read);
            e.offset > at + |Rendered(pieces)| && Faulty(text, e.unsupported, e.offset - at - |Rendered(pieces)| - 1)
    decreases |rest|
  {
    hide Scan, Written, ValidPiece, BraceFree, Faulty;
    if Scan(rest, at).Bad? {
      FailsFaulty(rest, at);
      pieces, text := [], rest;
    } else {
      ScanSound(rest, at);
      var s := Scan(rest, at);
      var after := rest[s.next - at..];
      assert rest == rest[..s.next - at] + after;
      SuffixBraceFree(rest, s.next - at);
      pieces, text := LexFails(after, s.next, read + [s.piece], Following(s.piece));
      pieces := [s.piece] + pieces;
    }
  }

  lemma {:induction false} LexStops(pieces: seq<Piece>, text: string, b: Before, at: nat, read: seq<Piece>,
                                    unsupported: bool, within: nat)
    requires Stuck(b, Rendered(pieces) + text, pieces, text) && Faulty(text, unsupported, within)
    ensures Lex(Rendered(pieces) + text, at, read) == Error(unsupported, at + |Rendered(pieces)| + 1 + within)
    decreases |pieces|
  {
    hide Scan, Written, ValidPiece, May, Faulty;
    if pieces == [] {
      FaultFails(text, at, unsupported, within);
      assert Rendered(pieces) + text == text;
    } else {
      var p, rest := pieces[0], Rendered(pieces[1..]) + text;
      StuckStart(pieces[1..], Following(p), text);
      WrittenScanned(p, rest, at);
      assert Rendered(pieces) + text == Written(p) + rest;
      assert (Written(p) + rest)[|Written(p)|..] == rest;
      LexStops(pieces[1..], text, Following(p), at + |Written(p)|, read + [p], unsupported, within);
    }
  }

  lemma StuckStart(pieces: seq<Piece>, b: Before, text: string)
    requires Stuck(b, Rendered(pieces) + text, pieces, text)
    ensures b == AfterName ==> !IdentifierPart((Rendered(pieces) + text)[0])
  {
    RenderedStart(pieces, b);
    if pieces != [] { assert Written(pieces[0]) != ""; }
  }

  /* ---------- the whole path ---------- */

  // What is wrong with a path around its lexemes: other text, a missing delimiter or brace, or no leading dot.
  ghost predicate Misdelimited(path: string, unsupported: bool, offset: nat) {
    || (path == "" && !unsupported && offset == 0)
    || (Outside(path) && unsupported && offset == 0)
    || (path != "" && !Outside(path) && !(exists body :: Enclosed(path, body)) && !unsupported && offset == 0)
    || (!Outside(path) && offset == 1 && exists body :: Enclosed(path, body) && MalformedBody(body, unsupported))
  }

  predicate MalformedBody(body: string, unsupported: bool) {
    if unsupported then '{' in body || ".." <= body else '{' !in body && !("." <= body)
  }

  ghost predicate Outside(path: string) {
    if "{" <= path then exists i :: 0 < i < |path| - 1 && path[i] == '}'
    else path != "" && (!BraceFree(path) || Space(path[0]) || Space(path[|path| - 1]))
  }

  ghost predicate Enclosed(path: string, body: string) { path == ['{'] + body + ['}'] }

  // What is wrong with its lexemes: text behind the well-formed ones that starts no further one.
  ghost predicate Mislexed(path: string, unsupported: bool, offset: nat, pieces: seq<Piece>, text: string) {
    && Stuck(AtStart, Rendered(pieces) + text, pieces, text) && BraceFree(Rendered(pieces) + text)
    && path == ['{', '.'] + Rendered(pieces) + text + ['}'] && !("{.." <= path)
    && offset >= 2 + |Rendered(pieces)| && Faulty(text, unsupported, offset - 2 - |Rendered(pieces)|)
  }

  lemma DelimitersReject(path: string, unsupported: bool, offset: nat)
    ensures Delimiters(path) == Rejected(unsupported, offset) <==> Misdelimited(path, unsupported, offset)
  {
    if |path| >= 2 && path[0] == '{' && path[|path| - 1] == '}' {
      assert path == ['{'] + Body(path) + ['}'];
      assert Enclosed(path, Body(path));
      forall body | Enclosed(path, body) ensures body == Body(path) {}
    }
    OutsideIs(path);
  }

  lemma OutsideIs(path: string)
    ensures TextOutside(path) <==> Outside(path)
  {
  }

  lemma Delimited(path: string, rest: string)
    requires path == ['{', '.'] + rest + ['}'] && BraceFree(rest) && !("{.." <= path)
    ensures Delimiters(path).Parsed? && Body(path)[1..] == rest
  {
    assert Body(path) == ['.'] + rest;
    assert path[..|path| - 1] == ['{'] + Body(path);
    if rest != "" { assert path[2] == rest[0]; }
    assert Body(path)[1..] == rest;
  }

  lemma ParseFails(path: string)
    requires Delimiters(path).Parsed? && Lex(Body(path)[1..], 1, []).Error?
    ensures var e := Lex(Body(path)[1..], 1, []); Parse(path) == Rejected(e.unsupported, e.offset)
  {
    hide Delimiters, Lex, Body;
  }

  lemma MislexedRejected(path: string, unsupported: bool, offset: nat, pieces: seq<Piece>, text: string)
    requires Mislexed(path, unsupported, offset, pieces, text)
    ensures Parse(path) == Rejected(unsupported, offset)
  {
    hide Stuck, Rendered, Faulty, Lex, Parse, Delimiters, Body;
    assert path == ['{', '.'] + (Rendered(pieces) + text) + ['}'];
    Delimited(path, Rendered(pieces) + text);
    LexStops(pieces, text, AtStart, 1, [], unsupported, offset - 2 - |Rendered(pieces)|);
    ParseFails(path);
  }

  // A path between its delimiters that is rejected has text behind its well-formed lexemes that starts none.
  lemma RejectedMislexed(path: string, unsupported: bool, offset: nat) returns (pieces: seq<Piece>, text: string)
    requires Delimiters(path).Parsed? && Parse(path) == Rejected(unsupported, offset)
    ensures Mislexed(path, unsupported, offset, pieces, text)
  {
    DelimitersShape(path);
    assert Lex(Body(path)[1..], 1, []) == Error(unsupported, offset);
    hide *;
    pieces, text := BodyMislexed(path, Body(path)[1..], unsupported, offset);
  }

  lemma BodyMislexed(path: string, rest: string, unsupported: bool, offset: nat)
    returns (pieces: seq<Piece>, text: string)
    requires path == ['{', '.'] + rest + ['}'] && BraceFree(rest) && (rest == "" || rest[0] != '.')
    requires Lex(rest, 1, []) == Error(unsupported, offset)
    ensures Mislexed(path, unsupported, offset, pieces, text)
  {
    hide *;
    pieces, text := LexFails(rest, 1, [], AtStart);
    StuckSplits(AtStart, rest, pieces, text);
    OneDot(path, Rendered(pieces), text);
    MislexedOf(path, unsupported, offset, pieces, text);
  }

  lemma MislexedOf(path: string, unsupported: bool, offset: nat, pieces: seq<Piece>, text: string)
    requires Stuck(AtStart, Rendered(pieces) + text, pieces, text) && BraceFree(Rendered(pieces) + text)
    requires path == ['{', '.'] + Rendered(pieces) + text + ['}'] && !("{.." <= path)
    requires offset >= 2 + |Rendered(pieces)| && Faulty(text, unsupported, offset - 2 - |Rendered(pieces)|)
    ensures Mislexed(path, unsupported, offset, pieces, text)
  {
    hide Stuck, Faulty;
  }

  lemma OneDot(path: string, a: string, b: string)
    requires path == ['{', '.'] + (a + b) + ['}'] && (a + b == "" || (a + b)[0] != '.')
    ensures path == ['{', '.'] + a + b + ['}'] && !("{.." <= path)
  {
    var rest := a + b;
    assert path[2] == if rest == "" then '}' else rest[0];
  }

  lemma StuckSplits(b: Before, rest: string, pieces: seq<Piece>, text: string)
    requires Stuck(b, rest, pieces, text)
    ensures rest == Rendered(pieces) + text
  {
  }

  // A path is rejected for its delimiters, or else at the first text behind its well-formed lexemes that starts none;
  // offsets count from the start of the path.
  lemma RejectedExactly(path: string, unsupported: bool, offset: nat)
    ensures Parse(path) == Rejected(unsupported, offset) <==>
            || Misdelimited(path, unsupported, offset)
            || exists pieces, text :: Mislexed(path, unsupported, offset, pieces, text)
  {
    DelimitersReject(path, unsupported, offset);
    forall pieces, text | Mislexed(path, unsupported, offset, pieces, text)
      ensures Parse(path) == Rejected(unsupported, offset)
    {
      MislexedRejected(path, unsupported, offset, pieces, text);
    }
    if Parse(path) == Rejected(unsupported, offset) && Delimiters(path).Parsed? {
      var pieces, text := RejectedMislexed(path, unsupported, offset);
    }
    hide Misdelimited, Mislexed, Lex, Delimiters, Body;
  }
}
