// The tokenizer of the assembly text (src/MajiroLib/Script/Assembler.cs, `Tokenize`): a
// character-level state machine with a pending-text buffer, a row and column counter and the
// in-string, in-escape and in-comment flags. Each character may finish the pending text as a
// token before it is appended, be appended or discarded, and finish the text after it. The end
// of the input finishes the pending text and adds one end-of-file token.

module Tokenizer {
  import opened Wrappers
  import opened Numerals

  datatype TokenType =
    | ReadMark | Enable | Disable | Unknown | Address | Label | Name | Hash
    | IntLiteral | HexLiteral | FloatLiteral | StringLiteral | LineNo | Resource | Punctuation
    | Func | Index | EntryPoint | VarType | Scope | Modifier | InvertMode | Dimension | EndOfFile

  datatype Token = Token(kind: TokenType, value: string, row: int, column: int)

  /** The characters that stand alone as punctuation tokens. */
  const PunctuationChars: string := "([{,%}])"

  /** Membership in the punctuation characters, spelt out. */
  predicate IsPunctuation(c: char)
    ensures IsPunctuation(c) <==> c in PunctuationChars
  {
    c == '(' || c == '[' || c == '{' || c == ',' || c == '%' || c == '}' || c == ']' || c == ')'
  }

  // ---------------------------------------------------------------------------------------
  // Classifying the text of a token

  predicate EndsWith(s: string, c: char) {
    |s| > 0 && s[|s| - 1] == c
  }

  predicate StartsWith(s: string, c: char) {
    |s| > 0 && s[0] == c
  }

  predicate IsVarTypeWord(w: string) {
    w == "int" || w == "float" || w == "string" || w == "intarray" || w == "floatarray" || w == "stringarray"
  }

  predicate IsScopeWord(w: string) {
    w == "persist" || w == "persistent" || w == "save" || w == "savefile" || w == "thread" || w == "local"
  }

  predicate IsDimensionWord(w: string) {
    w == "dim1" || w == "dim2" || w == "dim3"
  }

  predicate IsModifierWord(w: string) {
    w == "preinc" || w == "predec" || w == "postinc" || w == "postdec"
  }

  predicate IsInvertModeWord(w: string) {
    w == "invert_numeric" || w == "invert_boolean" || w == "invert_bitwise"
  }

  /** The case-insensitive keyword tests at the end of `GetType`, given the lowered text. */
  function KeywordType(w: string): (r: TokenType)
    ensures r == VarType ==> IsVarTypeWord(w)
    ensures r == Scope ==> IsScopeWord(w)
    ensures r == Dimension ==> IsDimensionWord(w)
    ensures r == Modifier ==> IsModifierWord(w)
    ensures r == InvertMode ==> IsInvertModeWord(w)
    ensures r == VarType || r == Scope || r == Dimension || r == Modifier || r == InvertMode ||
            r == ReadMark || r == Enable || r == Disable || r == Name
  {
    if IsVarTypeWord(w) then VarType
    else if IsScopeWord(w) then Scope
    else if IsDimensionWord(w) then Dimension
    else if IsModifierWord(w) then Modifier
    else if IsInvertModeWord(w) then InvertMode
    else if w == "readmark" then ReadMark
    else if w == "enable" || w == "enabled" then Enable
    else if w == "disable" || w == "disabled" then Disable
    else Name
  }

  /**
   * `GetType`: the first matching test wins. A text ending in ':' or starting with '@' is an
   * address when all but its last character is a hexadecimal int, otherwise a label; then
   * line numbers and hashes follow, then the numbers and then the remaining words.
   */
  function GetType(text: string): (r: TokenType)
    ensures r != EndOfFile && r != Unknown && r != Resource
    ensures r == Address || r == Label || r == LineNo || r == Hash || r == NumberType(text)
  {
    if EndsWith(text, ':') || StartsWith(text, '@') then
      if TryParseHexInt32(text[..|text| - 1]).Some? then Address else Label
    else if StartsWith(text, '#') then LineNo
    else if StartsWith(text, '$') then Hash
    else NumberType(text)
  }

  /** The decimal ints, the "0x" hexadecimal ints and the floats, in that order. */
  function NumberType(text: string): (r: TokenType)
    ensures r != EndOfFile && r != Unknown && r != Resource
    ensures r == IntLiteral || r == HexLiteral || r == FloatLiteral || r == WordType(text)
  {
    if TryParseInt32(text).Some? then IntLiteral
    else if IsHexLiteral(text) then HexLiteral
    else if FloatShape(text) then FloatLiteral
    else WordType(text)
  }

  predicate IsHexLiteral(text: string) {
    |text| >= 2 && text[0] == '0' && (text[1] == 'x' || text[1] == 'X') && TryParseHexInt32(text[2..]).Some?
  }

  /** Strings, single punctuation characters, the case-sensitive and then the case-insensitive keywords, and names. */
  function WordType(text: string): (r: TokenType)
    ensures r != EndOfFile && r != Unknown && r != Resource
    ensures r == StringLiteral || r == Punctuation || r == Func || r == Index || r == EntryPoint ||
            r == KeywordType(Lower(text))
  {
    if '"' in text then StringLiteral
    else if |text| == 1 && IsPunctuation(text[0]) then Punctuation
    else if text == "func" then Func
    else if text == "index" then Index
    else if text == "entry" || text == "entrypoint" then EntryPoint
    else KeywordType(Lower(text))
  }

  /** A text without the address, label, line-number and hash marks is classified by its number shape. */
  lemma Unmarked(text: string)
    requires !EndsWith(text, ':') && !StartsWith(text, '@') && !StartsWith(text, '#') && !StartsWith(text, '$')
    ensures GetType(text) == NumberType(text)
  {
  }

  /** A text that is no number is classified as a word. */
  lemma NotNumber(text: string)
    requires TryParseInt32(text).None? && !IsHexLiteral(text) && !FloatShape(text)
    ensures NumberType(text) == WordType(text)
  {
  }

  /** A single punctuation character is a punctuation word. */
  lemma PunctuationWord(t: string)
    requires |t| == 1 && IsPunctuation(t[0])
    ensures WordType(t) == Punctuation
  {
    assert '"' !in t;
  }

  /** A lone punctuation character is classified as punctuation, and no earlier test claims it. */
  lemma PunctuationType(c: char)
    requires IsPunctuation(c)
    ensures GetType([c]) == Punctuation
  {
    var t := [c];
    assert !EndsWith(t, ':') && !StartsWith(t, '@') && !StartsWith(t, '#') && !StartsWith(t, '$');
    Unmarked(t);
    NotDecimal(t);
    assert !IsHexLiteral(t);
    NoFloat(t);
    NotNumber(t);
    PunctuationWord(t);
  }

  /** A text that starts with a quote is a string literal. */
  lemma QuotedType(text: string)
    requires StartsWith(text, '"') && !EndsWith(text, ':')
    ensures GetType(text) == StringLiteral
  {
    Unmarked(text);
    NotDecimal(text);
    NoFloat(text);
    NotNumber(text);
    assert text[0] in text;
  }

  /**
   * The keyword kinds come only from the case-insensitive tests: a token of one of them is,
   * lowered, one of that kind's words.
   */
  lemma KeywordKinds(text: string)
    ensures GetType(text) == VarType ==> IsVarTypeWord(Lower(text))
    ensures GetType(text) == Scope ==> IsScopeWord(Lower(text))
    ensures GetType(text) == Dimension ==> IsDimensionWord(Lower(text))
    ensures GetType(text) == Modifier ==> IsModifierWord(Lower(text))
    ensures GetType(text) == InvertMode ==> IsInvertModeWord(Lower(text))
  {
    var r := GetType(text);
    if r == VarType || r == Scope || r == Dimension || r == Modifier || r == InvertMode {
      assert NumberType(text) == r;
      assert WordType(text) == r;
    }
  }

  /**
   * Hence the modifier aliases "incx", "decx", "xinc", "xdec" and the invert-mode aliases
   * "neg", "not", "notl" the parser's lookups accept never reach them: no token of those
   * kinds spells them, in any case.
   */
  lemma AliasesUnreachable(text: string)
    ensures GetType(text) == Modifier ==> Lower(text) !in {"incx", "decx", "xinc", "xdec"}
    ensures GetType(text) == InvertMode ==> Lower(text) !in {"neg", "not", "notl"}
  {
    KeywordKinds(text);
  }

  // ---------------------------------------------------------------------------------------
  // The state machine

  /** A column counter; it starts at 1 and never falls below it. */
  type Column = c: int | c >= 1 witness 1

  /** The pending text, the position after the last character read, and the three flags. */
  datatype Lexer = Lexer(text: string, row: int, column: Column, inString: bool, inEscape: bool, inComment: bool)

  function Start(): Lexer {
    Lexer("", 1, 1, false, false, false)
  }

  function NextRow(row: int, c: char): int {
    if c == '\n' then row + 1 else row
  }

  /** A newline resets the column, a tab advances it to the next multiple of four plus one. */
  function NextColumn(column: Column, c: char): (r: Column)
    ensures c == '\n' ==> r == 1
    ensures c == '\t' ==> column < r <= column + 4 && (r - 1) % 4 == 0
    ensures c != '\n' && c != '\t' ==> r == column + 1
  {
    if c == '\n' then 1
    else if c == '\t' then column + 4 - (column - 1) % 4
    else column + 1
  }

  /** `char.IsWhiteSpace`: the Unicode space, line and paragraph separators and U+0009-U+000D, U+0085. */
  predicate IsWhiteSpace(c: char) {
    var x := c as int;
    (0x09 <= x <= 0x0D) || x == 0x20 || x == 0x85 || x == 0xA0 || x == 0x1680 ||
    (0x2000 <= x <= 0x200A) || x == 0x2028 || x == 0x2029 || x == 0x202F || x == 0x205F || x == 0x3000
  }

  /** The text of a finished token and the position it was finished at, before `GetType` classifies it. */
  datatype Lexeme = Lexeme(text: string, row: int, column: int)

  /** `FinishToken`: the pending text becomes a lexeme at the current position, if there is any. */
  function Finish(text: string, row: int, column: int): seq<Lexeme> {
    if |text| > 0 then [Lexeme(text, row, column)] else []
  }

  /** A classification of token texts; the tokenizer's is `GetType`. */
  type Classifier = string -> TokenType

  /** The token a finished lexeme becomes. */
  function Classify(kind: Classifier, x: Lexeme): Token {
    Token(kind(x.text), x.text, x.row, x.column)
  }

  /** A classifier that never calls a text the end of the file, as `GetType` does not. */
  ghost predicate NeverEnd(kind: Classifier) {
    forall text :: kind(text) != EndOfFile
  }

  predicate NoEnd(tokens: seq<Token>) {
    forall k | 0 <= k < |tokens| :: tokens[k].kind != EndOfFile
  }

  /** The lexemes classified in order. */
  function Typed(kind: Classifier, xs: seq<Lexeme>): (r: seq<Token>)
    ensures |r| == |xs|
    decreases |xs|
  {
    if |xs| == 0 then [] else [Classify(kind, xs[0])] + Typed(kind, xs[1..])
  }

  /** None of the classified lexemes is an end-of-file token. */
  lemma TypedNoEnd(kind: Classifier, xs: seq<Lexeme>)
    requires NeverEnd(kind)
    ensures NoEnd(Typed(kind, xs))
  {
    forall k | 0 <= k < |xs|
      ensures Typed(kind, xs)[k].kind != EndOfFile
    {
      TypedAt(kind, xs, k);
    }
  }

  /** The k-th token is the k-th lexeme classified. */
  lemma {:induction false} TypedAt(kind: Classifier, xs: seq<Lexeme>, k: nat)
    requires k < |xs|
    ensures Typed(kind, xs)[k] == Classify(kind, xs[k])
    decreases k
  {
    if k > 0 {
      TypedAt(kind, xs[1..], k - 1);
    }
  }

  /** Classifying is done lexeme by lexeme. */
  lemma {:induction false} TypedAppend(kind: Classifier, a: seq<Lexeme>, b: seq<Lexeme>)
    ensures Typed(kind, a + b) == Typed(kind, a) + Typed(kind, b)
    decreases |a|
  {
    if |a| == 0 {
      assert a + b == b;
    } else {
      assert (a + b)[0] == a[0];
      assert (a + b)[1..] == a[1..] + b;
      TypedAppend(kind, a[1..], b);
    }
  }

  /** The lexemes one character finishes, and the state after it. */
  datatype Emitted = Emitted(state: Lexer, lexemes: seq<Lexeme>)

  const PercentInName: string := "sb.ToString().StartsWith('$')"

  /** The `Debug.Assert` on a '%' that follows pending text: only a hash name may contain one. */
  predicate PercentFails(s: Lexer, c: char) {
    !s.inString && !s.inComment && c == '%' && |s.text| > 0 && s.text[0] != '$'
  }

  /** What the loop decides for one character: whether to finish before and after it, whether to drop it, and the new flags. */
  datatype Action = Action(finishBefore: bool, finishAfter: bool, discard: bool, inString: bool, inEscape: bool, inComment: bool)

  /** The decision of one turn of the loop, from the flags, the pending text and the character. */
  function Decide(s: Lexer, c: char): (r: Result<Action>)
    ensures r.Err? <==> PercentFails(s, c)
  {
    var keep := Action(false, false, false, s.inString, s.inEscape, s.inComment);
    if s.inString then
      if s.inEscape then Ok(keep.(inEscape := false))
      else if c == '\\' then Ok(keep.(inEscape := true))
      else if c == '"' then Ok(keep.(inString := false, finishAfter := true))
      else Ok(keep)
    else if s.inComment then Ok(keep.(discard := true, inComment := c != '\n'))
    else if c == '"' then Ok(keep.(inString := true))
    else if c == ';' then Ok(keep.(discard := true, inComment := true))
    else if c == '%' then
      if |s.text| == 0 then Ok(keep.(finishBefore := true, finishAfter := true))
      else if s.text[0] == '$' then Ok(keep)
      else Err(AssertFailed(PercentInName))
    else if IsPunctuation(c) then Ok(keep.(finishBefore := true, finishAfter := true))
    else if IsWhiteSpace(c) then Ok(keep.(finishBefore := true, discard := true))
    else Ok(keep)
  }

  /**
   * Carrying out a decision. The position moves first, so lexemes carry the position after
   * the character that finished them; then the pending text may be finished, the character
   * appended, and the text finished again.
   */
  function Apply(s: Lexer, c: char, a: Action): (r: Emitted)
    ensures r.state.row == NextRow(s.row, c) && r.state.column == NextColumn(s.column, c)
    ensures r.state.inString == a.inString && r.state.inEscape == a.inEscape && r.state.inComment == a.inComment
  {
    var row := NextRow(s.row, c);
    var column := NextColumn(s.column, c);
    var first := if a.finishBefore then Finish(s.text, row, column) else [];
    var kept := if a.finishBefore then "" else s.text;
    var grown := if a.discard then kept else kept + [c];
    var second := if a.finishAfter then Finish(grown, row, column) else [];
    var left := if a.finishAfter then "" else grown;
    Emitted(Lexer(left, row, column, a.inString, a.inEscape, a.inComment), first + second)
  }

  /** One turn of the loop. */
  function Step(s: Lexer, c: char): (r: Result<Emitted>)
    ensures r.Err? <==> PercentFails(s, c)
    ensures r.Ok? ==> r.value.state.row == NextRow(s.row, c) && r.value.state.column == NextColumn(s.column, c)
  {
    match Decide(s, c)
    case Err(e) => Err(e)
    case Ok(a) => Ok(Apply(s, c, a))
  }

  /** A machine that reads one character: the state after it and the lexemes it finishes. */
  type Machine = (Lexer, char) -> Result<Emitted>

  /** The characters of the input fed to the machine one by one, with the lexemes they finish. */
  function Run(step: Machine, s: Lexer, input: string): Result<Emitted>
    decreases |input|, 1
  {
    if |input| == 0 then Ok(Emitted(s, [])) else RunFrom(step, s, input)
  }

  /** One turn of the loop: the first character, then the rest of the input. */
  function RunFrom(step: Machine, s: Lexer, input: string): Result<Emitted>
    requires |input| > 0
    decreases |input|, 0
  {
    match step(s, input[0])
    case Err(e) => Err(e)
    case Ok(first) =>
      match Run(step, first.state, input[1..])
      case Err(e) => Err(e)
      case Ok(rest) => Ok(Emitted(rest.state, first.lexemes + rest.lexemes))
  }

  /** The end of the input: the pending text, then the end-of-file token. */
  function EndTokens(kind: Classifier, s: Lexer): seq<Token> {
    Typed(kind, Finish(s.text, s.row, s.column)) + [Token(EndOfFile, "", s.row, s.column)]
  }

  /** The whole token stream of an input. */
  function Tokens(input: string): Result<seq<Token>> {
    Then(Step, GetType, [], Start(), input)
  }

  /** The tokens already yielded, then the stream of the rest of the input from state s. */
  function Then(step: Machine, kind: Classifier, yielded: seq<Token>, s: Lexer, rest: string): Result<seq<Token>> {
    match Run(step, s, rest)
    case Err(e) => Err(e)
    case Ok(e) => Ok(yielded + Typed(kind, e.lexemes) + EndTokens(kind, e.state))
  }

  /** One character moves from the rest of the input to the tokens yielded. */
  lemma ThenStep(step: Machine, kind: Classifier, yielded: seq<Token>, s: Lexer, rest: string)
    requires |rest| > 0
    ensures step(s, rest[0]).Err? ==> Then(step, kind, yielded, s, rest) == Err(step(s, rest[0]).error)
    ensures step(s, rest[0]).Ok? ==>
      Then(step, kind, yielded, s, rest) == Then(step, kind, yielded + Typed(kind, step(s, rest[0]).value.lexemes), step(s, rest[0]).value.state, rest[1..])
  {
    assert Run(step, s, rest) == RunFrom(step, s, rest);
    match step(s, rest[0])
    case Err(_) =>
    case Ok(first) =>
      match Run(step, first.state, rest[1..])
      case Err(_) =>
      case Ok(e) =>
        TypedAppend(kind, first.lexemes, e.lexemes);
        assert yielded + (Typed(kind, first.lexemes) + Typed(kind, e.lexemes)) + EndTokens(kind, e.state) ==
          (yielded + Typed(kind, first.lexemes)) + Typed(kind, e.lexemes) + EndTokens(kind, e.state);
  }

  /** At the end of the input the pending text is finished and the end-of-file token follows. */
  lemma ThenEnd(step: Machine, kind: Classifier, yielded: seq<Token>, s: Lexer)
    ensures Then(step, kind, yielded, s, []) ==
      Ok(yielded + (if |s.text| > 0 then [Token(kind(s.text), s.text, s.row, s.column)] else []) +
         [Token(EndOfFile, "", s.row, s.column)])
  {
    var pending := Finish(s.text, s.row, s.column);
    if |s.text| > 0 {
      TypedOne(kind, pending[0]);
    }
    assert Typed(kind, []) == [];
    assert yielded + Typed(kind, []) + EndTokens(kind, s) == yielded + Typed(kind, pending) + [Token(EndOfFile, "", s.row, s.column)];
  }

  /** The token of one lexeme. */
  lemma TypedOne(kind: Classifier, x: Lexeme)
    ensures Typed(kind, [x]) == [Classify(kind, x)]
  {
    assert [x][1..] == [];
  }

  /**
   * One turn of `Tokenize`'s loop over the state's buffer, counters and flags: the position
   * moves, the flags decide, and the pending text is finished, grown and finished again.
   */
  method Turn(s: Lexer, c: char) returns (r: Result<Emitted>, yielded: seq<Token>)
    ensures r == Step(s, c)
    ensures r.Ok? ==> yielded == Typed(GetType, r.value.lexemes)
  {
    var sb := s.text;
    var inString, inEscape, inComment := s.inString, s.inEscape, s.inComment;
    var finishBefore, finishAfter, discard := false, false, false;
    var row := NextRow(s.row, c);
    var column := NextColumn(s.column, c);
    if inString {
      if inEscape {
        inEscape := false;
      } else if c == '\\' {
        inEscape := true;
      } else if c == '"' {
        inString := false;
        finishAfter := true;
      }
    } else if inComment {
      discard := true;
      if c == '\n' {
        inComment := false;
      }
    } else if c == '"' {
      inString := true;
    } else if c == ';' {
      discard := true;
      inComment := true;
    } else if c == '%' {
      if |sb| == 0 {
        finishBefore, finishAfter := true, true;
      } else if sb[0] != '$' {
        return Err(AssertFailed(PercentInName)), [];
      }
    } else if IsPunctuation(c) {
      finishBefore, finishAfter := true, true;
    } else if IsWhiteSpace(c) {
      finishBefore, discard := true, true;
    }
    ghost var action := Action(finishBefore, finishAfter, discard, inString, inEscape, inComment);
    assert Decide(s, c) == Ok(action);
    yielded := [];
    var finished: seq<Lexeme> := [];
    if finishBefore && |sb| > 0 {
      yielded := [Token(GetType(sb), sb, row, column)];
      finished := [Lexeme(sb, row, column)];
      TypedOne(GetType, finished[0]);
      sb := "";
    }
    if !discard {
      sb := sb + [c];
    }
    if finishAfter && |sb| > 0 {
      TypedOne(GetType, Lexeme(sb, row, column));
      TypedAppend(GetType, finished, [Lexeme(sb, row, column)]);
      yielded := yielded + [Token(GetType(sb), sb, row, column)];
      finished := finished + [Lexeme(sb, row, column)];
      sb := "";
    }
    r := Ok(Emitted(Lexer(sb, row, column, inString, inEscape, inComment), finished));
    assert Apply(s, c, action) == r.value;
  }

  /**
   * `Tokenize`: the source's loop over the characters, and the tokens it yields collected in
   * order; at the end the pending text is finished and the end-of-file token added.
   */
  method Tokenize(input: string) returns (r: Result<seq<Token>>)
    ensures r == Tokens(input)
  {
    var state := Start();
    var tokens: seq<Token> := [];
    var i := 0;
    while i < |input|
      invariant 0 <= i <= |input|
      invariant Tokens(input) == Then(Step, GetType, tokens, state, input[i..])
    {
      ThenStep(Step, GetType, tokens, state, input[i..]);
      assert input[i..][0] == input[i] && input[i..][1..] == input[i + 1..];
      var next, yielded := Turn(state, input[i]);
      if next.Err? {
        return Err(next.error);
      }
      state := next.value.state;
      tokens := tokens + yielded;
      i := i + 1;
    }
    assert input[i..] == [];
    ThenEnd(Step, GetType, tokens, state);
    var last: seq<Token> := [];
    if |state.text| > 0 {
      last := [Token(GetType(state.text), state.text, state.row, state.column)];
    }
    return Ok(tokens + last + [Token(EndOfFile, "", state.row, state.column)]);
  }

  // ---------------------------------------------------------------------------------------
  // Properties of the token stream

  /**
   * Whatever the machine, and with any classifier that never yields the end-of-file kind, a
   * stream that ends ends with the end-of-file token and holds no other.
   */
  lemma EndsOnce(step: Machine, kind: Classifier, s: Lexer, input: string)
    requires NeverEnd(kind) && Then(step, kind, [], s, input).Ok?
    ensures var ts := Then(step, kind, [], s, input).value;
      |ts| > 0 && ts[|ts| - 1].kind == EndOfFile && forall k | 0 <= k < |ts| - 1 :: ts[k].kind != EndOfFile
  {
    var e := Run(step, s, input).value;
    var pending := Finish(e.state.text, e.state.row, e.state.column);
    var body := Typed(kind, e.lexemes) + Typed(kind, pending);
    var ts := Then(step, kind, [], s, input).value;
    assert ts == body + [Token(EndOfFile, "", e.state.row, e.state.column)];
    TypedAppend(kind, e.lexemes, pending);
    TypedNoEnd(kind, e.lexemes + pending);
    forall k | 0 <= k < |ts| - 1
      ensures ts[k].kind != EndOfFile
    {
      assert ts[k] == body[k];
    }
  }

  /** The stream of any input that tokenizes ends with the end-of-file token, and holds no other. */
  lemma EndOfFileOnce(input: string)
    requires Tokens(input).Ok?
    ensures var ts := Tokens(input).value;
      |ts| > 0 && ts[|ts| - 1].kind == EndOfFile && forall k | 0 <= k < |ts| - 1 :: ts[k].kind != EndOfFile
  {
    assert NeverEnd(GetType);
    EndsOnce(Step, GetType, Start(), input);
  }

  /** What running b after the outcome of a gives. */
  function Continue(step: Machine, first: Result<Emitted>, b: string): Result<Emitted> {
    match first
    case Err(e) => Err(e)
    case Ok(f) =>
      match Run(step, f.state, b)
      case Err(e) => Err(e)
      case Ok(rest) => Ok(Emitted(rest.state, f.lexemes + rest.lexemes))
  }

  /** Running two pieces of input one after the other is running their concatenation. */
  lemma {:induction false} RunAppend(step: Machine, s: Lexer, a: string, b: string)
    ensures Run(step, s, a + b) == Continue(step, Run(step, s, a), b)
    decreases |a|
  {
    if |a| == 0 {
      assert a + b == b;
      assert Run(step, s, a) == Ok(Emitted(s, []));
      match Run(step, s, b)
      case Err(_) =>
      case Ok(rest) => assert [] + rest.lexemes == rest.lexemes;
    } else {
      assert (a + b)[0] == a[0];
      assert (a + b)[1..] == a[1..] + b;
      assert Run(step, s, a) == RunFrom(step, s, a);
      assert Run(step, s, a + b) == RunFrom(step, s, a + b);
      match step(s, a[0])
      case Err(_) =>
      case Ok(first) =>
        RunAppend(step, first.state, a[1..], b);
        match Run(step, first.state, a[1..])
        case Err(_) =>
        case Ok(mid) =>
          match Run(step, mid.state, b)
          case Err(_) =>
          case Ok(last) =>
            assert first.lexemes + (mid.lexemes + last.lexemes) == (first.lexemes + mid.lexemes) + last.lexemes;
    }
  }

  /** Running one character is one step. */
  lemma RunOne(step: Machine, s: Lexer, c: char)
    ensures Run(step, s, [c]) == match step(s, c)
      case Err(e) => Err(e)
      case Ok(f) => Ok(Emitted(f.state, f.lexemes + []))
  {
    assert [c][1..] == [];
    assert Run(step, s, [c]) == RunFrom(step, s, [c]);
  }

  /**
   * Each of `([{,}])` outside a string or a comment finishes the pending text and then stands
   * alone as a lexeme of its own, which `PunctuationType` classifies as punctuation; the
   * pending text is empty afterwards.
   */
  lemma PunctuationAlone(s: Lexer, c: char)
    requires !s.inString && !s.inComment && IsPunctuation(c) && c != '%'
    ensures var row, column := NextRow(s.row, c), NextColumn(s.column, c);
      Step(s, c) == Ok(Emitted(s.(text := "", row := row, column := column),
                               Finish(s.text, row, column) + [Lexeme([c], row, column)]))
  {
    var a := Action(true, true, false, s.inString, s.inEscape, s.inComment);
    assert Decide(s, c) == Ok(a);
    assert "" + [c] == [c];
  }

  /** A '%' with nothing pending stands alone too (the start of a "%{key}" operand). */
  lemma PercentAlone(s: Lexer)
    requires !s.inString && !s.inComment && s.text == ""
    ensures var row, column := NextRow(s.row, '%'), NextColumn(s.column, '%');
      Step(s, '%') == Ok(Emitted(s.(row := row, column := column), [Lexeme("%", row, column)]))
  {
    var a := Action(true, true, false, s.inString, s.inEscape, s.inComment);
    assert Decide(s, '%') == Ok(a);
    var row, column := NextRow(s.row, '%'), NextColumn(s.column, '%');
    assert s.text + ['%'] == "%";
    assert Finish("%", row, column) == [Lexeme("%", row, column)];
    assert Apply(s, '%', a).lexemes == [Lexeme("%", row, column)];
    assert Apply(s, '%', a).state == s.(row := row, column := column);
    assert Step(s, '%') == Ok(Apply(s, '%', a));
  }

  /** A '%' after pending text that starts with '$' is part of that hash name. */
  lemma PercentInHash(s: Lexer)
    requires !s.inString && !s.inComment && StartsWith(s.text, '$')
    ensures var row, column := NextRow(s.row, '%'), NextColumn(s.column, '%');
      Step(s, '%') == Ok(Emitted(s.(text := s.text + "%", row := row, column := column), []))
  {
    var a := Action(false, false, false, s.inString, s.inEscape, s.inComment);
    assert Decide(s, '%') == Ok(a);
    assert Apply(s, '%', a).lexemes == [];
    assert Apply(s, '%', a).state == s.(text := s.text + "%", row := NextRow(s.row, '%'), column := NextColumn(s.column, '%'));
    assert Step(s, '%') == Ok(Apply(s, '%', a));
  }

  /** A machine that drops every character of a comment but the newline, moving only the column. */
  ghost predicate DropsComment(step: Machine) {
    forall t: Lexer, c: char | t.inComment && !t.inString && c != '\n' ::
      step(t, c) == Ok(Emitted(t.(column := NextColumn(t.column, c)), []))
  }

  lemma StepDropsComment()
    ensures DropsComment(Step)
  {
    forall t: Lexer, c: char | t.inComment && !t.inString && c != '\n'
      ensures Step(t, c) == Ok(Emitted(t.(column := NextColumn(t.column, c)), []))
    {
      var a := Action(false, false, true, false, t.inEscape, true);
      assert Decide(t, c) == Ok(a);
      assert NextRow(t.row, c) == t.row;
      assert Apply(t, c, a).lexemes == [];
      assert Apply(t, c, a).state == t.(column := NextColumn(t.column, c));
    }
  }

  /** Such a machine reads a comment line's body without finishing anything. */
  lemma {:induction false} CommentRun(step: Machine, s: Lexer, body: string)
    requires DropsComment(step) && s.inComment && !s.inString && '\n' !in body
    ensures Run(step, s, body).Ok? && Run(step, s, body).value.lexemes == []
    ensures Run(step, s, body).value.state == s.(column := Run(step, s, body).value.state.column)
    decreases |body|
  {
    if |body| > 0 {
      assert body[0] in body;
      assert forall c | c in body[1..] :: c in body;
      assert Run(step, s, body) == RunFrom(step, s, body);
      var next := step(s, body[0]).value.state;
      CommentRun(step, next, body[1..]);
    }
  }

  /** Inside a comment every character up to a newline is discarded: nothing is finished and nothing pends. */
  lemma CommentBody(s: Lexer, body: string)
    requires s.inComment && !s.inString && '\n' !in body
    ensures Run(Step, s, body).Ok? && Run(Step, s, body).value.lexemes == []
    ensures Run(Step, s, body).value.state == s.(column := Run(Step, s, body).value.state.column)
  {
    StepDropsComment();
    CommentRun(Step, s, body);
  }

  /** Outside a string, ';' starts a comment and is itself discarded. */
  lemma CommentOpens(s: Lexer)
    requires !s.inString && !s.inComment
    ensures Step(s, ';') == Ok(Emitted(s.(column := NextColumn(s.column, ';'), inComment := true), []))
  {
    var a := Action(false, false, true, false, s.inEscape, true);
    assert Decide(s, ';') == Ok(a);
    assert Apply(s, ';', a).lexemes == [];
    assert Apply(s, ';', a).state == s.(column := NextColumn(s.column, ';'), inComment := true);
    assert Step(s, ';') == Ok(Apply(s, ';', a));
  }

  /** The newline ends a comment; it is discarded too, and only moves to the next row. */
  lemma CommentCloses(t: Lexer)
    requires !t.inString && t.inComment
    ensures Step(t, '\n') == Ok(Emitted(t.(row := t.row + 1, column := 1, inComment := false), []))
  {
    var a := Action(false, false, true, false, t.inEscape, false);
    assert Decide(t, '\n') == Ok(a);
    assert Apply(t, '\n', a).lexemes == [];
    assert Apply(t, '\n', a).state == t.(row := t.row + 1, column := 1, inComment := false);
    assert Step(t, '\n') == Ok(Apply(t, '\n', a));
  }

  /**
   * ';' starts a comment that runs to the end of the line: the characters up to and
   * including the newline finish nothing and leave the pending text as it was, so a comment
   * does not even end the word it interrupts.
   */
  lemma Comment(s: Lexer, body: string)
    requires !s.inString && !s.inComment && '\n' !in body
    ensures Run(Step, s, ";" + body + "\n") == Ok(Emitted(s.(row := s.row + 1, column := 1), []))
  {
    CommentOpens(s);
    var entered := Step(s, ';').value.state;
    RunOne(Step, s, ';');
    CommentBody(entered, body);
    var inside := Run(Step, entered, body).value.state;
    RunAppend(Step, s, ";", body);
    CommentCloses(inside);
    RunOne(Step, inside, '\n');
    RunAppend(Step, s, ";" + body, "\n");
  }

  /**
   * The body of a quoted string: every quote in it is escaped by a backslash, and it does
   * not end in a backslash that would escape the closing quote.
   */
  predicate Escaped(body: string)
    decreases |body|
  {
    |body| == 0 ||
    (body[0] == '\\' && |body| >= 2 && Escaped(body[2..])) ||
    (body[0] != '\\' && body[0] != '"' && Escaped(body[1..]))
  }

  /** A machine that, inside a string, appends every character but an unescaped quote, a backslash escaping the next one. */
  ghost predicate AppendsInString(step: Machine) {
    forall t: Lexer, c: char | t.inString && (t.inEscape || c != '"') ::
      step(t, c) == Ok(Emitted(t.(text := t.text + [c], row := NextRow(t.row, c), column := NextColumn(t.column, c),
                                  inEscape := !t.inEscape && c == '\\'), []))
  }

  lemma StepAppendsInString()
    ensures AppendsInString(Step)
  {
    forall t: Lexer, c: char | t.inString && (t.inEscape || c != '"')
      ensures Step(t, c) == Ok(Emitted(t.(text := t.text + [c], row := NextRow(t.row, c), column := NextColumn(t.column, c),
                                          inEscape := !t.inEscape && c == '\\'), []))
    {
      var a := Action(false, false, false, true, !t.inEscape && c == '\\', t.inComment);
      assert Decide(t, c) == Ok(a);
      assert Apply(t, c, a).lexemes == [];
      assert Apply(t, c, a).state == t.(text := t.text + [c], row := NextRow(t.row, c), column := NextColumn(t.column, c),
                                        inEscape := !t.inEscape && c == '\\');
    }
  }

  /** Whether a string body, entered with the given escape flag, meets no unescaped quote. */
  predicate Unclosed(escaping: bool, body: string)
    decreases |body|
  {
    |body| == 0 || ((escaping || body[0] != '"') && Unclosed(!escaping && body[0] == '\\', body[1..]))
  }

  /** Whether a backslash is left escaping the character after the body. */
  function EscapingAfter(escaping: bool, body: string): bool
    decreases |body|
  {
    if |body| == 0 then escaping else EscapingAfter(!escaping && body[0] == '\\', body[1..])
  }

  /** An escaped body meets no unescaped quote and leaves no escape pending. */
  lemma {:induction false} EscapedUnclosed(body: string)
    requires Escaped(body)
    ensures Unclosed(false, body) && !EscapingAfter(false, body)
    decreases |body|
  {
    if |body| > 0 {
      if body[0] == '\\' {
        assert body[1..][1..] == body[2..];
        EscapedUnclosed(body[2..]);
      } else {
        EscapedUnclosed(body[1..]);
      }
    }
  }

  /** Such a machine reads a body that meets no unescaped quote into the pending text, finishing nothing. */
  lemma {:induction false} StringRun(step: Machine, s: Lexer, body: string)
    requires AppendsInString(step) && s.inString && Unclosed(s.inEscape, body)
    ensures Run(step, s, body).Ok? && Run(step, s, body).value.lexemes == []
    ensures var t := Run(step, s, body).value.state;
      t == s.(text := s.text + body, row := t.row, column := t.column, inEscape := EscapingAfter(s.inEscape, body))
    decreases |body|
  {
    if |body| == 0 {
      assert s.text + body == s.text;
    } else {
      assert Run(step, s, body) == RunFrom(step, s, body);
      var first := step(s, body[0]).value.state;
      StringRun(step, first, body[1..]);
      assert s.text + [body[0]] + body[1..] == s.text + body;
    }
  }

  /** Inside a string the characters of an escaped body only pend: nothing is finished. */
  lemma StringBody(s: Lexer, body: string)
    requires s.inString && !s.inEscape && Escaped(body)
    ensures Run(Step, s, body).Ok? && Run(Step, s, body).value.lexemes == []
    ensures var t := Run(Step, s, body).value.state;
      t == s.(text := s.text + body, row := t.row, column := t.column)
  {
    StepAppendsInString();
    EscapedUnclosed(body);
    StringRun(Step, s, body);
  }

  /** Outside a string and a comment, a quote opens a string and starts the pending text. */
  lemma QuoteOpens(s: Lexer)
    requires !s.inString && !s.inComment && s.text == ""
    ensures Step(s, '"') == Ok(Emitted(s.(text := "\"", column := NextColumn(s.column, '"'), inString := true), []))
  {
    var a := Action(false, false, false, true, s.inEscape, false);
    assert Decide(s, '"') == Ok(a);
    assert Apply(s, '"', a).lexemes == [];
    assert Apply(s, '"', a).state == s.(text := "\"", column := NextColumn(s.column, '"'), inString := true);
    assert Step(s, '"') == Ok(Apply(s, '"', a));
  }

  /** An unescaped quote inside a string closes it and finishes the pending text with the quote. */
  lemma QuoteCloses(t: Lexer)
    requires t.inString && !t.inEscape
    ensures var column := NextColumn(t.column, '"');
      Step(t, '"') == Ok(Emitted(t.(text := "", column := column, inString := false), [Lexeme(t.text + "\"", t.row, column)]))
  {
    var column := NextColumn(t.column, '"');
    var a := Action(false, true, false, false, false, t.inComment);
    assert Decide(t, '"') == Ok(a);
    assert Finish(t.text + "\"", t.row, column) == [Lexeme(t.text + "\"", t.row, column)];
    assert Apply(t, '"', a).lexemes == [Lexeme(t.text + "\"", t.row, column)];
    assert Apply(t, '"', a).state == t.(text := "", column := column, inString := false);
    assert Step(t, '"') == Ok(Apply(t, '"', a));
  }

  /** A quoted string met with nothing pending is read as one lexeme holding the quotes and the escapes as written. */
  lemma QuotedRun(s: Lexer, body: string)
    requires !s.inString && !s.inEscape && !s.inComment && s.text == "" && Escaped(body)
    ensures var quoted := "\"" + body + "\"";
      Run(Step, s, quoted).Ok? &&
      var t := Run(Step, s, quoted).value.state;
      t == s.(row := t.row, column := t.column) &&
      Run(Step, s, quoted).value.lexemes == [Lexeme(quoted, t.row, t.column)]
  {
    QuoteOpens(s);
    var entered := Step(s, '"').value.state;
    RunOne(Step, s, '"');
    StringBody(entered, body);
    var inside := Run(Step, entered, body).value.state;
    RunAppend(Step, s, "\"", body);
    QuoteCloses(inside);
    RunOne(Step, inside, '"');
    RunAppend(Step, s, "\"" + body, "\"");
  }

  /**
   * A quoted string met with nothing pending is one string-literal token holding the quotes
   * and the escapes as written, whatever quotes, semicolons or white space the escapes hide.
   */
  lemma QuotedString(s: Lexer, body: string)
    requires !s.inString && !s.inEscape && !s.inComment && s.text == "" && Escaped(body)
    ensures var quoted := "\"" + body + "\"";
      Run(Step, s, quoted).Ok? &&
      var t := Run(Step, s, quoted).value.state;
      t == s.(row := t.row, column := t.column) &&
      Run(Step, s, quoted).value.lexemes == [Lexeme(quoted, t.row, t.column)] &&
      GetType(quoted) == StringLiteral
  {
    QuotedRun(s, body);
    QuotedType("\"" + body + "\"");
  }

  /** The number of newlines in a text. */
  function Newlines(s: string): nat {
    if |s| == 0 then 0 else (if s[0] == '\n' then 1 else 0) + Newlines(s[1..])
  }

  /** A machine whose row counter moves with the newlines. */
  ghost predicate CountsRows(step: Machine) {
    forall t: Lexer, c: char | step(t, c).Ok? :: step(t, c).value.state.row == NextRow(t.row, c)
  }

  /** Such a machine's row counter counts the newlines read. */
  lemma {:induction false} RowsRun(step: Machine, s: Lexer, input: string)
    requires CountsRows(step) && Run(step, s, input).Ok?
    ensures Run(step, s, input).value.state.row == s.row + Newlines(input)
    decreases |input|
  {
    if |input| > 0 {
      assert Run(step, s, input) == RunFrom(step, s, input);
      RowsRun(step, step(s, input[0]).value.state, input[1..]);
    }
  }

  /** The row counter counts the newlines read. */
  lemma RunCountsRows(s: Lexer, input: string)
    requires Run(Step, s, input).Ok?
    ensures Run(Step, s, input).value.state.row == s.row + Newlines(input)
  {
    assert CountsRows(Step);
    RowsRun(Step, s, input);
  }
}
