/**
 * The scanner of the interpreter (Pengo/src/tokenizer/Tokenizer.cpp).
 *
 * The scanner state is the token start, the cursor, the line counter (from 1) and the
 * column counter (from 0).  Reading the character at the cursor when the cursor equals the
 * source length yields the string terminator '\0', which matches no character class.
 *
 * The identifier scan of the source takes one unconditional step before its loop
 * (Tokenizer.cpp line 83), so a one-letter identifier swallows the character after it.
 * `absorb` selects that behaviour (true, as written) or the evidently intended one (false);
 * `Tokenize` is the intended scanner and `TokenizeAsWritten` the scanner as written.
 */
module Tokenizer {
  import opened Wrappers
  import opened Tokens

  /** Why scanning stops: a character no rule accepts (exit code -51), or an identifier
      starting at the last character, where the source reads past the end of the text. */
  datatype LexError = UnexpectedChar(c: char, line: int, pos: int) | IdentifierAtEnd(line: int, pos: int)

  datatype Lexer = Lexer(start: nat, current: nat, line: int, col: int, tokens: seq<Token>)

  const Keywords: map<string, TokenType> := map["print" := Print, "var" := Var]

  /** The one-character tokens. */
  const Singles: map<char, TokenType> := map[
    '!' := Bang, '+' := Plus, '-' := Minus, '*' := Asterisk, '/' := Slash,
    '=' := Equal, '(' := LeftParen, ')' := RightParen, ';' := Semicolon]

  predicate IsNumeric(c: char) {
    '0' <= c <= '9'
  }

  predicate IsAlpha(c: char) {
    ('a' <= c <= 'z') || ('A' <= c <= 'Z') || c == '_'
  }

  predicate IsBlank(c: char) {
    c == ' ' || c == '\t' || c == '\r' || c == '\n'
  }

  /** Characters that can begin a token or be skipped. */
  predicate Accepted(c: char) {
    IsBlank(c) || c in Singles || c == '"' || IsNumeric(c) || IsAlpha(c)
  }

  /** `substr(pos, count)`: the count is cut at the end of the text. */
  function Substr(src: string, pos: nat, count: int): (r: string)
    requires pos <= |src|
    ensures |r| <= |src| - pos
    ensures count >= 0 && pos + count <= |src| ==> r == src[pos..pos + count]
    ensures pos + count >= |src| ==> r == src[pos..]
  {
    if count <= 0 then "" else if pos + count <= |src| then src[pos..pos + count] else src[pos..]
  }

  /** The end of the run of digits starting at `i`. */
  function DigitRun(src: string, i: nat): (j: nat)
    requires i <= |src|
    ensures i <= j <= |src|
    ensures forall k :: i <= k < j ==> IsNumeric(src[k])
    ensures j == |src| || !IsNumeric(src[j])
    decreases |src| - i
  {
    if i < |src| && IsNumeric(src[i]) then DigitRun(src, i + 1) else i
  }

  /** The end of the run of letters, digits and underscores starting at `i`. */
  function AlnumRun(src: string, i: nat): (j: nat)
    requires i <= |src|
    ensures i <= j <= |src|
    ensures forall k :: i <= k < j ==> IsAlpha(src[k]) || IsNumeric(src[k])
    ensures j == |src| || !(IsAlpha(src[j]) || IsNumeric(src[j]))
    decreases |src| - i
  {
    if i < |src| && (IsAlpha(src[i]) || IsNumeric(src[i])) then AlnumRun(src, i + 1) else i
  }

  /** How many newlines `s` holds. */
  function Newlines(s: string): nat {
    if s == [] then 0 else Newlines(s[..|s| - 1]) + (if s[|s| - 1] == '\n' then 1 else 0)
  }

  /** addToken: the token's text defaults to the lexeme from the token start to the cursor. */
  function AddToken(src: string, lx: Lexer, kind: TokenType, text: string): (r: Lexer)
    ensures r.tokens == lx.tokens + [Token(kind, text, lx.line, lx.col)]
    ensures r.(tokens := lx.tokens) == lx
  {
    lx.(tokens := lx.tokens + [Token(kind, text, lx.line, lx.col)])
  }

  function Lexeme(src: string, lx: Lexer): string
    requires lx.start <= |src|
  {
    Substr(src, lx.start, lx.current - lx.start)
  }

  /** advance: step the cursor and the column. */
  function Advance(lx: Lexer): Lexer {
    lx.(current := lx.current + 1, col := lx.col + 1)
  }

  /** The loop of tokenizeString: up to the closing quote or the end of the text; a newline
      steps the line counter and resets the column before it is consumed. */
  function StringLoop(src: string, lx: Lexer): (r: Lexer)
    requires lx.current <= |src|
    ensures lx.current <= r.current <= |src|
    ensures r.current == |src| || src[r.current] == '"'
    ensures forall k :: lx.current <= k < r.current ==> src[k] != '"'
    ensures r.start == lx.start && r.tokens == lx.tokens
    decreases |src| - lx.current
  {
    if lx.current == |src| || src[lx.current] == '"' then lx
    else
      var lx' := if src[lx.current] == '\n' then lx.(line := lx.line + 1, col := 0) else lx;
      StringLoop(src, Advance(lx'))
  }

  /** The string loop steps the line counter once per newline it passes. */
  lemma {:induction false} StringLoopLines(src: string, lx: Lexer)
    requires lx.current <= |src|
    ensures StringLoop(src, lx).line == lx.line + Newlines(src[lx.current..StringLoop(src, lx).current])
    decreases |src| - lx.current
  {
    if !(lx.current == |src| || src[lx.current] == '"') {
      var lx' := if src[lx.current] == '\n' then lx.(line := lx.line + 1, col := 0) else lx;
      var r := StringLoop(src, Advance(lx'));
      StringLoopLines(src, Advance(lx'));
      NewlinesSplit(src[lx.current..r.current], 1);
      assert src[lx.current..r.current][..1] == [src[lx.current]];
      assert src[lx.current..r.current][1..] == src[lx.current + 1..r.current];
    } else {
      assert src[lx.current..lx.current] == [];
    }
  }

  /** Newlines add up over a split. */
  lemma {:induction false} NewlinesSplit(s: string, n: nat)
    requires n <= |s|
    ensures Newlines(s) == Newlines(s[..n]) + Newlines(s[n..])
    decreases |s|
  {
    if n < |s| {
      NewlinesSplit(s[..|s| - 1], n);
      assert s[..|s| - 1][..n] == s[..n];
      assert s[n..][..|s[n..]| - 1] == s[..|s| - 1][n..];
    } else {
      assert s[n..] == [] && s[..n] == s;
    }
  }

  function ScanString(src: string, lx: Lexer): (r: Lexer)
    requires lx.start < lx.current <= |src|
    ensures lx.current < r.current <= |src| + 1 && r.start == lx.start
    ensures AddsOne(lx.tokens, r.tokens)
  {
    var lx' := Advance(StringLoop(src, lx));
    AddToken(src, lx', String, Substr(src, lx.start + 1, lx'.current - lx.start - 2))
  }

  function ScanNumber(src: string, lx: Lexer): (r: Lexer)
    requires lx.start < lx.current <= |src|
    ensures lx.current <= r.current <= |src| && r.start == lx.start
    ensures AddsOne(lx.tokens, r.tokens)
  {
    var j := DigitRun(src, lx.current);
    var lx' := lx.(current := j, col := lx.col + (j - lx.current));
    AddToken(src, lx', Number, Lexeme(src, lx'))
  }

  function ScanIdentifier(src: string, absorb: bool, lx: Lexer): (r: Result<Lexer, LexError>)
    requires lx.start < lx.current <= |src|
    ensures r.Ok? ==> lx.current <= r.value.current <= |src| && r.value.start == lx.start
    ensures r.Ok? ==> AddsOne(lx.tokens, r.value.tokens)
  {
    if absorb && lx.current == |src| then Err(IdentifierAtEnd(lx.line, lx.col + 1))
    else
      var lx0 := if absorb then Advance(lx) else lx;
      var j := AlnumRun(src, lx0.current);
      var lx' := lx0.(current := j, col := lx0.col + (j - lx0.current));
      var text := src[lx.start..j];
      Ok(if text in Keywords then AddToken(src, lx', Keywords[text], Lexeme(src, lx'))
         else AddToken(src, lx', Identifier, text))
  }

  /** `b` is `a` followed by tokens none of which is end-of-file. */
  predicate Extends(a: seq<Token>, b: seq<Token>) {
    && |a| <= |b| && b[..|a|] == a
    && forall k :: |a| <= k < |b| ==> b[k].kind != Eof
  }

  /** `b` is `a` with one more token, not end-of-file. */
  predicate AddsOne(a: seq<Token>, b: seq<Token>) {
    |b| == |a| + 1 && b[..|a|] == a && b[|a|].kind != Eof
  }

  lemma ExtendsTrans(a: seq<Token>, b: seq<Token>, c: seq<Token>)
    requires Extends(a, b) && Extends(b, c)
    ensures Extends(a, c)
  {
    assert c[..|a|] == c[..|b|][..|a|];
  }

  /** nextToken: consume one character and what its rule adds. */
  function NextToken(src: string, absorb: bool, lx: Lexer): (r: Result<Lexer, LexError>)
    requires lx.start == lx.current < |src|
    ensures r.Ok? ==> lx.current < r.value.current <= |src| + 1 && r.value.start == lx.start
    ensures r.Ok? ==> Extends(lx.tokens, r.value.tokens) && |r.value.tokens| <= |lx.tokens| + 1
  {
    var c := src[lx.current];
    var lx1 := Advance(lx);
    if c == ' ' || c == '\t' || c == '\r' then Ok(lx1)
    else if c == '\n' then Ok(lx1.(line := lx1.line + 1, col := 0))
    else if c in Singles then Ok(AddToken(src, lx1, Singles[c], Lexeme(src, lx1)))
    else if c == '"' then Ok(ScanString(src, lx1))
    else if IsNumeric(c) then Ok(ScanNumber(src, lx1))
    else if IsAlpha(c) then ScanIdentifier(src, absorb, lx1)
    else Err(UnexpectedChar(c, lx.line, lx1.col))
  }

  /** The loop of tokenize: scan while the cursor is before the end. */
  function Run(src: string, absorb: bool, lx: Lexer): (r: Result<Lexer, LexError>)
    requires lx.start <= |src| && lx.current <= |src| + 1
    ensures r.Ok? ==> r.value.start <= |src| && r.value.current >= |src|
    ensures r.Ok? ==> Extends(lx.tokens, r.value.tokens)
    decreases |src| + 1 - lx.current
  {
    if lx.current >= |src| then Ok(lx)
    else
      match NextToken(src, absorb, lx.(start := lx.current))
      case Err(e) => Err(e)
      case Ok(lx') =>
        var r := Run(src, absorb, lx');
        if r.Ok? then ExtendsTrans(lx.tokens, lx'.tokens, r.value.tokens); r else r
  }

  const Initial: Lexer := Lexer(0, 0, 1, 0, [])

  /** tokenize: run the scanner, then add the end-of-file token, whose text is the lexeme
      between the last token start and the cursor. */
  function Scan(src: string, absorb: bool): (r: Result<seq<Token>, LexError>)
    ensures r.Ok? ==> |r.value| > 0 && r.value[|r.value| - 1].kind == Eof
    ensures r.Ok? ==> forall k :: 0 <= k < |r.value| - 1 ==> r.value[k].kind != Eof
  {
    match Run(src, absorb, Initial)
    case Err(e) => Err(e)
    case Ok(lx) => Ok(AddToken(src, lx, Eof, Lexeme(src, lx)).tokens)
  }

  /** The scanner with the identifier scan as evidently intended. */
  function Tokenize(src: string): (r: Result<seq<Token>, LexError>)
    ensures r.Ok? ==> |r.value| > 0 && r.value[|r.value| - 1].kind == Eof
    ensures r.Ok? ==> forall k :: 0 <= k < |r.value| - 1 ==> r.value[k].kind != Eof
  {
    Scan(src, false)
  }

  /** The scanner as written, with the extra step of the identifier scan. */
  function TokenizeAsWritten(src: string): (r: Result<seq<Token>, LexError>)
    ensures r.Ok? ==> |r.value| > 0 && r.value[|r.value| - 1].kind == Eof
    ensures r.Ok? ==> forall k :: 0 <= k < |r.value| - 1 ==> r.value[k].kind != Eof
  {
    Scan(src, true)
  }

  /* Properties of one scanner step (nextToken), for both variants unless stated. */

  /** nextToken hands a quote, a digit or a letter to its scan, after the first character. */
  lemma Dispatch(src: string, absorb: bool, lx: Lexer)
    requires lx.start == lx.current < |src|
    ensures src[lx.current] == '"' ==> NextToken(src, absorb, lx) == Ok(ScanString(src, Advance(lx)))
    ensures IsNumeric(src[lx.current]) ==> NextToken(src, absorb, lx) == Ok(ScanNumber(src, Advance(lx)))
    ensures IsAlpha(src[lx.current]) ==> NextToken(src, absorb, lx) == ScanIdentifier(src, absorb, Advance(lx))
  {
  }

  /** Blanks add no token; a newline steps the line and resets the column. */
  lemma BlankAddsNoToken(src: string, absorb: bool, lx: Lexer)
    requires lx.start == lx.current < |src| && IsBlank(src[lx.current])
    ensures NextToken(src, absorb, lx).Ok?
    ensures var r := NextToken(src, absorb, lx).value;
      && r.tokens == lx.tokens && r.current == lx.current + 1
      && (src[lx.current] == '\n' ==> r.line == lx.line + 1 && r.col == 0)
      && (src[lx.current] != '\n' ==> r.line == lx.line && r.col == lx.col + 1)
  {
  }

  /** Each operator character is a token of its fixed type, carrying the character. */
  lemma SingleCharToken(src: string, absorb: bool, lx: Lexer)
    requires lx.start == lx.current < |src| && src[lx.current] in Singles
    ensures NextToken(src, absorb, lx).Ok?
    ensures var r := NextToken(src, absorb, lx).value;
      && r.current == lx.current + 1
      && r.tokens == lx.tokens + [Token(Singles[src[lx.current]], [src[lx.current]], lx.line, lx.col + 1)]
  {
    assert src[lx.current..lx.current + 1] == [src[lx.current]];
  }

  /** A character is rejected exactly when no rule accepts it ({, } and , included). */
  lemma RejectedIffNotAccepted(src: string, absorb: bool, lx: Lexer)
    requires lx.start == lx.current < |src|
    ensures NextToken(src, absorb, lx).Err? && NextToken(src, absorb, lx).error.UnexpectedChar? <==> !Accepted(src[lx.current])
    ensures !absorb ==> (NextToken(src, absorb, lx).Err? <==> !Accepted(src[lx.current]))
  {
  }

  /** A number token is the maximal run of digits at the token start; its column is the
      column after the run. */
  lemma NumberToken(src: string, absorb: bool, lx: Lexer)
    requires lx.start == lx.current < |src| && IsNumeric(src[lx.current])
    ensures NextToken(src, absorb, lx).Ok?
    ensures var r := NextToken(src, absorb, lx).value;
      && |r.tokens| == |lx.tokens| + 1
      && var t := r.tokens[|lx.tokens|];
      && t.kind == Number && t.line == lx.line
      && 1 <= |t.text| && r.current == lx.current + |t.text| <= |src|
      && t.text == src[lx.current..r.current]
      && (forall k :: 0 <= k < |t.text| ==> IsNumeric(t.text[k]))
      && (r.current == |src| || !IsNumeric(src[r.current]))
      && t.pos == lx.col + |t.text|
  {
    Dispatch(src, absorb, lx);
  }

  /** A string token holds the characters strictly between the quotes (up to the end of the
      text when the closing quote is missing), and the newlines in it step the line. */
  lemma StringToken(src: string, absorb: bool, lx: Lexer)
    requires lx.start == lx.current < |src| && src[lx.current] == '"'
    ensures NextToken(src, absorb, lx).Ok?
    ensures var r := NextToken(src, absorb, lx).value;
      && |r.tokens| == |lx.tokens| + 1
      && var t := r.tokens[|lx.tokens|];
      && var close := lx.current + 1 + |t.text|;
      && t.kind == String
      && close <= |src| && t.text == src[lx.current + 1..close]
      && (forall k :: 0 <= k < |t.text| ==> t.text[k] != '"')
      && ((close < |src| && src[close] == '"') || close == |src|)
      && r.current == close + 1
      && t.line == lx.line + Newlines(t.text)
  {
    Dispatch(src, absorb, lx);
    StringScan(src, Advance(lx));
  }

  /** tokenizeString after the opening quote. */
  lemma StringScan(src: string, lx: Lexer)
    requires lx.start + 1 == lx.current <= |src|
    ensures var r := ScanString(src, lx);
      && |r.tokens| == |lx.tokens| + 1
      && var t := r.tokens[|lx.tokens|];
      && var close := lx.current + |t.text|;
      && t.kind == String
      && close <= |src| && t.text == src[lx.current..close]
      && (forall k :: 0 <= k < |t.text| ==> t.text[k] != '"')
      && ((close < |src| && src[close] == '"') || close == |src|)
      && r.current == close + 1
      && t.line == lx.line + Newlines(t.text)
  {
    var e := StringLoop(src, lx);
    StringText(src, lx);
    StringLoopLines(src, lx);
    assert ScanString(src, lx).tokens[|lx.tokens|] == Token(String, src[lx.current..e.current], e.line, e.col + 1);
  }

  /** The text of a string token is what the loop skipped over. */
  lemma StringText(src: string, lx: Lexer)
    requires lx.start + 1 == lx.current <= |src|
    ensures var e := StringLoop(src, lx);
      && ScanString(src, lx).current == e.current + 1
      && ScanString(src, lx).tokens[|lx.tokens|] == Token(String, src[lx.current..e.current], e.line, e.col + 1)
  {
    var e := StringLoop(src, lx);
    StringSpan(src, lx, e);
  }

  /** The substring call of tokenizeString spans the characters between the quotes. */
  lemma StringSpan(src: string, lx: Lexer, e: Lexer)
    requires lx.start + 1 == lx.current <= e.current <= |src|
    ensures Substr(src, lx.start + 1, Advance(e).current - lx.start - 2) == src[lx.current..e.current]
  {
    SubstrSpan(src, lx.current, e.current);
  }

  lemma SubstrSpan(src: string, a: nat, b: nat)
    requires a <= b <= |src|
    ensures Substr(src, a, b - a) == src[a..b]
  {
  }

  /** An identifier token (as intended) is the maximal run of letters, digits and
      underscores at the token start; the words of the keyword table become their keyword
      type, every other word an Identifier. */
  lemma IdentifierToken(src: string, lx: Lexer)
    requires lx.start == lx.current < |src| && IsAlpha(src[lx.current])
    ensures NextToken(src, false, lx).Ok?
    ensures var r := NextToken(src, false, lx).value;
      && |r.tokens| == |lx.tokens| + 1
      && var t := r.tokens[|lx.tokens|];
      && 1 <= |t.text| && r.current == lx.current + |t.text| <= |src|
      && t.text == src[lx.current..r.current]
      && (forall k :: 0 <= k < |t.text| ==> IsAlpha(t.text[k]) || IsNumeric(t.text[k]))
      && (r.current == |src| || !(IsAlpha(src[r.current]) || IsNumeric(src[r.current])))
      && t.kind == (if t.text in Keywords then Keywords[t.text] else Identifier)
      && t.pos == lx.col + |t.text| && t.line == lx.line
  {
    Dispatch(src, false, lx);
    var lx1 := Advance(lx);
    var j := AlnumRun(src, lx1.current);
    assert src[lx.current..j] == src[lx.start..j];
  }

  /** As written, the identifier scan always takes the character after the first letter,
      whatever it is, and fails when the first letter is the last character. */
  lemma IdentifierTokenAsWritten(src: string, lx: Lexer)
    requires lx.start == lx.current < |src| && IsAlpha(src[lx.current])
    ensures lx.current + 1 == |src| ==> NextToken(src, true, lx).Err?
    ensures lx.current + 1 < |src| ==>
      && NextToken(src, true, lx).Ok?
      && var r := NextToken(src, true, lx).value;
      && |r.tokens| == |lx.tokens| + 1
      && var t := r.tokens[|lx.tokens|];
      && 2 <= |t.text| && t.text == src[lx.current..r.current]
      && (forall k :: 2 <= k < |t.text| ==> IsAlpha(t.text[k]) || IsNumeric(t.text[k]))
  {
    Dispatch(src, true, lx);
  }

  lemma SmallWords()
    ensures AlnumRun("a;", 1) == 1 && AlnumRun("a;", 2) == 2 && AlnumRun("a", 1) == 1
    ensures "a;"[0..1] == "a" && "a;"[0..2] == "a;" && "a"[0..1] == "a"
    ensures "a" !in Keywords && "a;" !in Keywords
  {
    assert |"a"| != |"print"| && |"a"| != |"var"|;
    assert |"a;"| != |"print"| && "a;" != "var";
  }

  /** The scan as written reads "a;" as one word. */
  lemma OneLetterAsWrittenStep()
    ensures NextToken("a;", true, Initial) == Ok(Lexer(0, 2, 1, 2, [Token(Identifier, "a;", 1, 2)]))
  {
    SmallWords();
  }

  /** "a;" as written: one identifier "a;" (the semicolon is swallowed). */
  lemma OneLetterAsWritten()
    ensures TokenizeAsWritten("a;") == Ok([Token(Identifier, "a;", 1, 2), Token(Eof, "a;", 1, 2)])
  {
    var w1 := Lexer(0, 2, 1, 2, [Token(Identifier, "a;", 1, 2)]);
    OneLetterAsWrittenStep();
    assert Initial.(start := 0) == Initial;
    assert Run("a;", true, w1) == Ok(w1);
    assert Run("a;", true, Initial) == Ok(w1);
    assert Lexeme("a;", w1) == "a;";
    assert AddToken("a;", w1, Eof, "a;").tokens == [Token(Identifier, "a;", 1, 2), Token(Eof, "a;", 1, 2)];
    assert Scan("a;", true) == Ok(AddToken("a;", w1, Eof, "a;").tokens);
  }

  /** The intended scan reads the letter of "a;" alone ... */
  lemma OneLetterIntendedFirst()
    ensures NextToken("a;", false, Initial) == Ok(Lexer(0, 1, 1, 1, [Token(Identifier, "a", 1, 1)]))
  {
    SmallWords();
  }

  /** ... and then the semicolon. */
  lemma OneLetterIntendedSecond()
    ensures NextToken("a;", false, Lexer(1, 1, 1, 1, [Token(Identifier, "a", 1, 1)])) ==
      Ok(Lexer(1, 2, 1, 2, [Token(Identifier, "a", 1, 1), Token(Semicolon, ";", 1, 2)]))
  {
    var lx := Lexer(1, 1, 1, 1, [Token(Identifier, "a", 1, 1)]);
    assert "a;"[1] == ';' && ';' in Singles && Singles[';'] == Semicolon;
    assert Lexeme("a;", Advance(lx)) == "a;"[1..2] == ";";
    assert NextToken("a;", false, lx) == Ok(AddToken("a;", Advance(lx), Semicolon, ";"));
    assert lx.tokens + [Token(Semicolon, ";", 1, 2)] == [Token(Identifier, "a", 1, 1), Token(Semicolon, ";", 1, 2)];
  }

  /** "a;" as intended: the identifier "a", then ";". */
  lemma OneLetterIntended()
    ensures Tokenize("a;") == Ok([Token(Identifier, "a", 1, 1), Token(Semicolon, ";", 1, 2), Token(Eof, ";", 1, 2)])
  {
    var a1 := Lexer(0, 1, 1, 1, [Token(Identifier, "a", 1, 1)]);
    var a2 := Lexer(1, 2, 1, 2, [Token(Identifier, "a", 1, 1), Token(Semicolon, ";", 1, 2)]);
    OneLetterIntendedFirst();
    OneLetterIntendedSecond();
    assert Initial.(start := 0) == Initial && a1.(start := 1) == Lexer(1, 1, 1, 1, a1.tokens);
    assert Run("a;", false, a2) == Ok(a2);
    assert Run("a;", false, a1) == Ok(a2);
    assert Run("a;", false, Initial) == Ok(a2);
    assert Lexeme("a;", a2) == ";";
    assert AddToken("a;", a2, Eof, ";").tokens == [Token(Identifier, "a", 1, 1), Token(Semicolon, ";", 1, 2), Token(Eof, ";", 1, 2)];
    assert Scan("a;", false) == Ok(AddToken("a;", a2, Eof, ";").tokens);
  }

  /** A lone letter: the scan as written reads past the end ... */
  lemma LoneLetterAsWritten()
    ensures TokenizeAsWritten("a").Err?
  {
    assert NextToken("a", true, Initial.(start := 0)).Err?;
    assert Run("a", true, Initial).Err?;
  }

  /** ... while the intended scan accepts it. */
  lemma LoneLetterIntended()
    ensures Tokenize("a").Ok?
  {
    SmallWords();
    var b1 := NextToken("a", false, Initial.(start := 0)).value;
    assert Run("a", false, b1) == Ok(b1);
    assert Run("a", false, Initial).Ok?;
  }

  lemma LoneLetter()
    ensures TokenizeAsWritten("a").Err? && Tokenize("a").Ok?
  {
    LoneLetterAsWritten();
    LoneLetterIntended();
  }

  /* The intended scanner on text without string literals: the token texts, joined, are
     exactly the non-blank characters of the source, and it fails exactly when some
     character is not accepted. */

  /** The token texts, joined. */
  function Texts(ts: seq<Token>): string {
    if ts == [] then "" else Texts(ts[..|ts| - 1]) + ts[|ts| - 1].text
  }

  /** The characters of `s` that are not blanks. */
  function NonBlank(s: string): string {
    if s == [] then "" else NonBlank(s[..|s| - 1]) + (if IsBlank(s[|s| - 1]) then "" else [s[|s| - 1]])
  }

  predicate QuoteFree(src: string) {
    forall k :: 0 <= k < |src| ==> src[k] != '"'
  }

  lemma {:induction false} NonBlankAppend(a: string, b: string)
    ensures NonBlank(a + b) == NonBlank(a) + NonBlank(b)
    decreases |b|
  {
    if b == [] {
      assert a + b == a;
    } else {
      assert (a + b)[..|a + b| - 1] == a + b[..|b| - 1];
      NonBlankAppend(a, b[..|b| - 1]);
    }
  }

  lemma {:induction false} NonBlankOfWord(s: string)
    requires forall k :: 0 <= k < |s| ==> !IsBlank(s[k])
    ensures NonBlank(s) == s
    decreases |s|
  {
    if s != [] {
      NonBlankOfWord(s[..|s| - 1]);
    }
  }

  /** What one step adds to the joined texts: the non-blank characters it consumed. */
  ghost predicate SpellsStep(src: string, lx: Lexer, r: Lexer)
    requires lx.current <= |src|
  {
    && lx.current <= r.current <= |src|
    && Texts(r.tokens) == Texts(lx.tokens) + NonBlank(src[lx.current..r.current])
    && forall k :: lx.current <= k < r.current ==> Accepted(src[k])
  }

  /** A step that adds one token whose text is the consumed word. */
  lemma WordSpells(src: string, lx: Lexer, r: Lexer)
    requires lx.current <= r.current <= |src|
    requires |r.tokens| == |lx.tokens| + 1 && r.tokens[..|lx.tokens|] == lx.tokens
    requires r.tokens[|lx.tokens|].text == src[lx.current..r.current]
    requires forall k :: lx.current <= k < r.current ==> Accepted(src[k]) && !IsBlank(src[k])
    ensures SpellsStep(src, lx, r)
  {
    var t := r.tokens[|lx.tokens|];
    NonBlankOfWord(t.text);
    assert r.tokens[..|r.tokens| - 1] == lx.tokens;
  }

  lemma BlankSpells(src: string, lx: Lexer)
    requires lx.start == lx.current < |src| && IsBlank(src[lx.current])
    ensures NextToken(src, false, lx).Ok? && SpellsStep(src, lx, NextToken(src, false, lx).value)
  {
    var c := src[lx.current];
    BlankAddsNoToken(src, false, lx);
    assert src[lx.current..lx.current + 1] == [c];
    assert NonBlank([c]) == NonBlank([]) + "";
  }

  lemma SingleSpells(src: string, lx: Lexer)
    requires lx.start == lx.current < |src| && src[lx.current] in Singles
    ensures NextToken(src, false, lx).Ok? && SpellsStep(src, lx, NextToken(src, false, lx).value)
  {
    SingleCharToken(src, false, lx);
    assert src[lx.current..lx.current + 1] == [src[lx.current]];
    WordSpells(src, lx, NextToken(src, false, lx).value);
  }

  lemma NumberSpells(src: string, lx: Lexer)
    requires lx.start == lx.current < |src| && IsNumeric(src[lx.current])
    ensures NextToken(src, false, lx).Ok? && SpellsStep(src, lx, NextToken(src, false, lx).value)
  {
    NumberToken(src, false, lx);
    WordSpells(src, lx, NextToken(src, false, lx).value);
  }

  lemma IdentifierSpells(src: string, lx: Lexer)
    requires lx.start == lx.current < |src| && IsAlpha(src[lx.current])
    ensures NextToken(src, false, lx).Ok? && SpellsStep(src, lx, NextToken(src, false, lx).value)
  {
    IdentifierToken(src, lx);
    WordSpells(src, lx, NextToken(src, false, lx).value);
  }

  /** One step of the intended scanner on text without string literals succeeds exactly on
      an accepted character, and adds the non-blank characters it consumed. */
  lemma StepPartition(src: string, lx: Lexer)
    requires QuoteFree(src) && lx.start == lx.current < |src|
    ensures NextToken(src, false, lx).Ok? <==> Accepted(src[lx.current])
    ensures NextToken(src, false, lx).Ok? ==> SpellsStep(src, lx, NextToken(src, false, lx).value)
  {
    var c := src[lx.current];
    RejectedIffNotAccepted(src, false, lx);
    if IsBlank(c) {
      BlankSpells(src, lx);
    } else if c in Singles {
      SingleSpells(src, lx);
    } else if IsNumeric(c) {
      NumberSpells(src, lx);
    } else if IsAlpha(c) {
      IdentifierSpells(src, lx);
    }
  }

  /** The rest of the scan succeeds exactly when every remaining character is accepted. */
  lemma {:induction false} RunAccepts(src: string, lx: Lexer)
    requires QuoteFree(src) && lx.start <= |src| && lx.current <= |src|
    ensures Run(src, false, lx).Ok? <==> forall k :: lx.current <= k < |src| ==> Accepted(src[k])
    decreases |src| - lx.current
  {
    if lx.current < |src| {
      var lx0 := lx.(start := lx.current);
      StepPartition(src, lx0);
      if NextToken(src, false, lx0).Ok? {
        var r := NextToken(src, false, lx0).value;
        RunAccepts(src, r);
      }
    }
  }

  /** A step that spells what it consumed keeps the joined texts equal to the non-blank
      characters read so far. */
  lemma SpellsPrefix(src: string, lx: Lexer, r: Lexer)
    requires lx.current <= |src| && SpellsStep(src, lx, r)
    requires Texts(lx.tokens) == NonBlank(src[..lx.current])
    ensures Texts(r.tokens) == NonBlank(src[..r.current])
  {
    assert src[..r.current] == src[..lx.current] + src[lx.current..r.current];
    NonBlankAppend(src[..lx.current], src[lx.current..r.current]);
  }

  /** A successful rest of the scan spells the non-blank characters of the text. */
  lemma {:induction false} RunSpells(src: string, lx: Lexer)
    requires QuoteFree(src) && lx.start <= |src| && lx.current <= |src|
    requires Texts(lx.tokens) == NonBlank(src[..lx.current])
    ensures Run(src, false, lx).Ok? ==> Texts(Run(src, false, lx).value.tokens) == NonBlank(src)
    decreases |src| - lx.current
  {
    if lx.current == |src| {
      assert src[..lx.current] == src;
    } else {
      var lx0 := lx.(start := lx.current);
      StepPartition(src, lx0);
      if NextToken(src, false, lx0).Ok? {
        var r := NextToken(src, false, lx0).value;
        SpellsPrefix(src, lx0, r);
        RunSpells(src, r);
        assert Run(src, false, lx) == Run(src, false, r);
      }
    }
  }

  lemma RunPartition(src: string, lx: Lexer)
    requires QuoteFree(src) && lx.start <= |src| && lx.current <= |src|
    requires Texts(lx.tokens) == NonBlank(src[..lx.current])
    ensures Run(src, false, lx).Ok? <==> forall k :: lx.current <= k < |src| ==> Accepted(src[k])
    ensures Run(src, false, lx).Ok? ==> Texts(Run(src, false, lx).value.tokens) == NonBlank(src)
  {
    RunAccepts(src, lx);
    RunSpells(src, lx);
  }

  /** On text without string literals, the intended scanner succeeds exactly when every
      character is accepted, and then its tokens before end-of-file spell the non-blank
      characters of the text, in order. */
  lemma TokensSpellSource(src: string)
    requires QuoteFree(src)
    ensures Tokenize(src).Ok? <==> forall k :: 0 <= k < |src| ==> Accepted(src[k])
    ensures Tokenize(src).Ok? ==>
      var ts := Tokenize(src).value;
      Texts(ts[..|ts| - 1]) == NonBlank(src)
  {
    assert src[..0] == [];
    RunPartition(src, Initial);
    if Tokenize(src).Ok? {
      var lx := Run(src, false, Initial).value;
      var ts := Tokenize(src).value;
      assert ts[..|ts| - 1] == lx.tokens;
    }
  }
}
