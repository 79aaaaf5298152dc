// The assembly-text parser of src/MajiroLib/Script/Assembler.cs (`Parse` and its local
// functions). The local functions share a cursor over the token stream (the current token
// `ct`, the one before it `lt`, the enumerator) and the label dictionary `blocks` of the
// function being parsed; here they are the fields of a `Parser` object and its methods.
// Each loop is proved against a function over the token stream that says what it reads.

module Parser {
  import opened Wrappers
  import Flags
  import opened Numerals
  import opened Tokenizer
  import opened Instructions
  import opened Graph
  import Opcodes
  import Crc
  import Encoder
  import opened Scripts

  /** `Opcode.ByMnemonic`: the table of opcodes keyed by mnemonic. */
  type Mnemonics = map<string, Opcodes.Opcode>

  /** What the parser looks up or calls that is not part of this model. */
  datatype Externals = Externals(
    /** `Opcode.ByMnemonic`. */
    byMnemonic: Mnemonics,
    /** `Data.KnownSyscallNames.Contains`. */
    knownSyscall: string -> bool,
    /** `Data.KnownFunctionNamesByHash.ContainsKey`. */
    knownFunction: bv32 -> bool,
    /** `Data.SyscallSuffix`. */
    syscallSuffix: string,
    /** `Helpers.ShiftJis.GetBytes`. */
    encode: string -> seq<bv8>,
    /** The `Unescape` extension on strings. */
    unescape: string -> string,
    /** `float.Parse` with the invariant culture, as the bits of the single; None when it throws. */
    parseFloat: string -> Option<bv32>)

  const NoMoreTokens: string := "No more tokens to read"
  const UnexpectedToken: string := "Unexpected token"
  const OutOfRange: string := "Index and length must refer to a location within the string."

  /** The token the cursor holds before the first `Advance`: C#'s default struct value. */
  const DefaultToken: Token := Token(ReadMark, "", 0, 0)

  /** C#'s `s[start..^dropEnd]`, which throws when the range does not fit. */
  function Slice(s: string, start: nat, dropEnd: nat): (r: Result<string>)
    ensures r.Ok? <==> start + dropEnd <= |s|
    ensures r.Ok? ==> |r.value| == |s| - start - dropEnd
    ensures r.Ok? ==> forall k | 0 <= k < |r.value| :: r.value[k] == s[start + k]
  {
    if start + dropEnd <= |s| then Ok(s[start..|s| - dropEnd]) else Err(Thrown(OutOfRange))
  }

  /** `allowedTypes.Any() && !allowedTypes.Contains(type)` negated: an empty list allows every type. */
  predicate Allows(allowed: seq<TokenType>, kind: TokenType) {
    |allowed| == 0 || kind in allowed
  }

  predicate AllowsText(allowed: seq<string>, text: string) {
    |allowed| == 0 || text in allowed
  }

  /**
   * A token stream as the tokenizer yields it: it ends with the end-of-file token and holds
   * no other (Tokenizer.EndOfFileOnce).
   */
  predicate Stream(ts: seq<Token>) {
    |ts| > 0 && ts[|ts| - 1].kind == EndOfFile &&
    forall k | 0 <= k < |ts| - 1 :: ts[k].kind != EndOfFile
  }

  /** In a stream, a token that is not the end of the file has a successor. */
  lemma StreamNext(ts: seq<Token>, p: nat)
    requires Stream(ts) && p < |ts|
    ensures ts[p].kind != EndOfFile <==> p + 1 < |ts|
  {
  }

  // ---------------------------------------------------------------------------------------
  // The keyword lookups: `ParseType`, `ParseScope`, `ParseModifier`, `ParseInvertMode` and
  // `ParseDimension` switch over the lowered token text.

  function TypeNamed(w: string): (r: Result<Flags.MjoType>)
    ensures r.Ok? <==> IsVarTypeWord(w)
    ensures r.Ok? ==> r.value <= 5
  {
    if w == "int" then Ok(Flags.Int)
    else if w == "float" then Ok(Flags.Float)
    else if w == "string" then Ok(Flags.String)
    else if w == "intarray" then Ok(Flags.IntArray)
    else if w == "floatarray" then Ok(Flags.FloatArray)
    else if w == "stringarray" then Ok(Flags.StringArray)
    else Err(Thrown("invalid type name: " + w))
  }

  function ScopeNamed(w: string): (r: Result<Flags.MjoScope>)
    ensures r.Ok? <==> IsScopeWord(w)
    ensures r.Ok? ==> r.value <= 3
  {
    if w == "persistent" || w == "persist" then Ok(Flags.Persistent)
    else if w == "savefile" || w == "save" then Ok(Flags.SaveFile)
    else if w == "thread" then Ok(Flags.Thread)
    else if w == "local" then Ok(Flags.Local)
    else Err(Thrown("invalid scope name: " + w))
  }

  /** The modifier words and the aliases "incx", "decx", "xinc" and "xdec". */
  function ModifierNamed(w: string): (r: Result<Flags.MjoModifier>)
    ensures r.Ok? <==> IsModifierWord(w) || w == "incx" || w == "decx" || w == "xinc" || w == "xdec"
    ensures r.Ok? ==> 1 <= r.value <= 4
  {
    if w == "preinc" || w == "incx" then Ok(Flags.PreIncrement)
    else if w == "predec" || w == "decx" then Ok(Flags.PreDecrement)
    else if w == "postinc" || w == "xinc" then Ok(Flags.PostIncrement)
    else if w == "postdec" || w == "xdec" then Ok(Flags.PostDecrement)
    else Err(Thrown("invalid modifier name: " + w))
  }

  /** The invert-mode words and the aliases "neg", "not" and "notl". */
  function InvertModeNamed(w: string): (r: Result<Flags.MjoInvertMode>)
    ensures r.Ok? <==> IsInvertModeWord(w) || w == "neg" || w == "not" || w == "notl"
    ensures r.Ok? ==> 1 <= r.value <= 3
  {
    if w == "invert_numeric" || w == "neg" then Ok(Flags.InvertNumeric)
    else if w == "invert_bitwise" || w == "not" then Ok(Flags.InvertBitwise)
    else if w == "invert_boolean" || w == "notl" then Ok(Flags.InvertBoolean)
    else Err(Thrown("invalid invert mode: " + w))
  }

  function DimensionNamed(w: string): (r: Result<int>)
    ensures r.Ok? <==> IsDimensionWord(w)
    ensures r.Ok? ==> 1 <= r.value <= 3
  {
    if w == "dim1" then Ok(1)
    else if w == "dim2" then Ok(2)
    else if w == "dim3" then Ok(3)
    else Err(Thrown("invalid dimension specifier: " + w))
  }

  /** The lookups never fail on a token the tokenizer classified: its kind already names its word list. */
  lemma KeywordsKnown(text: string)
    ensures GetType(text) == VarType ==> TypeNamed(Lower(text)).Ok?
    ensures GetType(text) == TokenType.Scope ==> ScopeNamed(Lower(text)).Ok?
    ensures GetType(text) == TokenType.Modifier ==> ModifierNamed(Lower(text)).Ok?
    ensures GetType(text) == TokenType.InvertMode ==> InvertModeNamed(Lower(text)).Ok?
    ensures GetType(text) == TokenType.Dimension ==> DimensionNamed(Lower(text)).Ok?
  {
    KeywordKinds(text);
  }

  // ---------------------------------------------------------------------------------------
  // The flag keywords (`ParseFlags`)

  predicate IsFlagKind(k: TokenType) {
    k == VarType || k == TokenType.Scope || k == TokenType.Modifier || k == TokenType.InvertMode ||
    k == TokenType.Dimension
  }

  /** The five locals of `ParseFlags`. */
  datatype FlagFields = FlagFields(varType: int, scope: int, modifier: int, invertMode: int, dimension: int)

  const NoFields: FlagFields := FlagFields(0, 0, 0, 0, 0)

  /** The field a flag keyword kind sets. */
  function Field(f: FlagFields, k: TokenType): int {
    match k
    case VarType => f.varType
    case Scope => f.scope
    case Modifier => f.modifier
    case InvertMode => f.invertMode
    case _ => f.dimension
  }

  function SetField(f: FlagFields, k: TokenType, v: int): (g: FlagFields)
    requires IsFlagKind(k)
    ensures Field(g, k) == v
    ensures forall j | IsFlagKind(j) && j != k :: Field(g, j) == Field(f, j)
  {
    match k
    case VarType => f.(varType := v)
    case Scope => f.(scope := v)
    case Modifier => f.(modifier := v)
    case InvertMode => f.(invertMode := v)
    case _ => f.(dimension := v)
  }

  /** The value a flag keyword stands for, by the lookup of its kind. */
  function KeywordValue(t: Token): (r: Result<int>)
    requires IsFlagKind(t.kind)
    ensures r.Ok? ==> 0 <= r.value <= 5
    ensures r.Ok? && (t.kind == TokenType.InvertMode || t.kind == TokenType.Dimension) ==> r.value <= 3
  {
    var w := Lower(t.value);
    match t.kind
    case VarType => (match TypeNamed(w) case Ok(v) => Ok(v as int) case Err(e) => Err(e))
    case Scope => (match ScopeNamed(w) case Ok(v) => Ok(v as int) case Err(e) => Err(e))
    case Modifier => (match ModifierNamed(w) case Ok(v) => Ok(v as int) case Err(e) => Err(e))
    case InvertMode => (match InvertModeNamed(w) case Ok(v) => Ok(v as int) case Err(e) => Err(e))
    case _ => DimensionNamed(w)
  }

  const FlagGivenTwice: string := "flag category given twice"

  /**
   * One turn of the loop as written: `Debug.Assert(field == 0)`, then the lookup. The field
   * reads 0 both when no keyword of its kind came yet and after "int" or "persistent".
   */
  function AddAsWritten(f: FlagFields, t: Token): Result<FlagFields>
    requires IsFlagKind(t.kind)
  {
    if Field(f, t.kind) != 0 then Err(AssertFailed(FlagGivenTwice))
    else match KeywordValue(t)
      case Err(e) => Err(e)
      case Ok(v) => Ok(SetField(f, t.kind, v))
  }

  /** The loop as written over a run of flag keywords. */
  function FieldsAsWritten(run: seq<Token>, f: FlagFields): Result<FlagFields>
    requires forall k | 0 <= k < |run| :: IsFlagKind(run[k].kind)
  {
    if |run| == 0 then Ok(f)
    else match AddAsWritten(f, run[0])
      case Err(e) => Err(e)
      case Ok(g) => FieldsAsWritten(run[1..], g)
  }

  /** One turn of the loop as intended: a kind already seen fails the assertion. */
  function AddOnce(f: FlagFields, seen: set<TokenType>, t: Token): Result<FlagFields>
    requires IsFlagKind(t.kind)
  {
    if t.kind in seen then Err(AssertFailed(FlagGivenTwice))
    else match KeywordValue(t)
      case Err(e) => Err(e)
      case Ok(v) => Ok(SetField(f, t.kind, v))
  }

  /** The loop as intended over a run of flag keywords. */
  function FieldsOnce(run: seq<Token>, f: FlagFields, seen: set<TokenType>): Result<FlagFields>
    requires forall k | 0 <= k < |run| :: IsFlagKind(run[k].kind)
  {
    if |run| == 0 then Ok(f)
    else match AddOnce(f, seen, run[0])
      case Err(e) => Err(e)
      case Ok(g) => FieldsOnce(run[1..], g, seen + {run[0].kind})
  }

  /** No two keywords of a run share a kind, none has a kind in seen, and each is a known word. */
  predicate OnceEach(run: seq<Token>, seen: set<TokenType>)
    requires forall k | 0 <= k < |run| :: IsFlagKind(run[k].kind)
  {
    forall i | 0 <= i < |run| ::
      run[i].kind !in seen && KeywordValue(run[i]).Ok? && forall j | i < j < |run| :: run[i].kind != run[j].kind
  }

  /** The intended loop succeeds exactly on runs that give each kind at most once, in known words. */
  lemma {:induction false} FieldsOnceOk(run: seq<Token>, f: FlagFields, seen: set<TokenType>)
    requires forall k | 0 <= k < |run| :: IsFlagKind(run[k].kind)
    ensures FieldsOnce(run, f, seen).Ok? <==> OnceEach(run, seen)
    decreases |run|
  {
    if |run| > 0 {
      OnceEachStep(run, seen);
      if run[0].kind !in seen && KeywordValue(run[0]).Ok? {
        var g := SetField(f, run[0].kind, KeywordValue(run[0]).value);
        FieldsOnceOk(run[1..], g, seen + {run[0].kind});
      }
    }
  }

  /** A run gives each kind once when its first keyword is new and known and the rest gives each kind once besides. */
  lemma OnceEachStep(run: seq<Token>, seen: set<TokenType>)
    requires |run| > 0 && forall k | 0 <= k < |run| :: IsFlagKind(run[k].kind)
    ensures OnceEach(run, seen) <==>
      run[0].kind !in seen && KeywordValue(run[0]).Ok? && OnceEach(run[1..], seen + {run[0].kind})
  {
    var rest := run[1..];
    assert forall k | 0 <= k < |rest| :: rest[k] == run[k + 1];
    if run[0].kind !in seen && KeywordValue(run[0]).Ok? && OnceEach(rest, seen + {run[0].kind}) {
      forall i | 0 <= i < |run|
        ensures run[i].kind !in seen && KeywordValue(run[i]).Ok? && forall j | i < j < |run| :: run[i].kind != run[j].kind
      {
        if i > 0 {
          assert run[i] == rest[i - 1];
        }
      }
    }
  }


  /**
   * After the intended loop, a kind that occurs in the run holds the value of its keyword,
   * and a kind that does not keeps its value from before: absent fields stay 0.
   */
  lemma {:induction false} FieldsOnceValues(run: seq<Token>, f: FlagFields, seen: set<TokenType>, k: TokenType)
    requires forall i | 0 <= i < |run| :: IsFlagKind(run[i].kind)
    requires IsFlagKind(k) && FieldsOnce(run, f, seen).Ok?
    ensures forall i | 0 <= i < |run| && run[i].kind == k :: KeywordValue(run[i]) == Ok(Field(FieldsOnce(run, f, seen).value, k))
    ensures (forall i | 0 <= i < |run| :: run[i].kind != k) ==> Field(FieldsOnce(run, f, seen).value, k) == Field(f, k)
    decreases |run|
  {
    if |run| > 0 {
      var rest := run[1..];
      assert forall i | 0 <= i < |rest| :: rest[i] == run[i + 1];
      var g := SetField(f, run[0].kind, KeywordValue(run[0]).value);
      FieldsOnceValues(rest, g, seen + {run[0].kind}, k);
      FieldsOnceOk(rest, g, seen + {run[0].kind});
      forall i | 0 <= i < |run| && run[i].kind == k
        ensures KeywordValue(run[i]) == Ok(Field(FieldsOnce(run, f, seen).value, k))
      {
        if i == 0 {
          assert forall j | 0 <= j < |rest| :: rest[j].kind != k;
        } else {
          assert rest[i - 1] == run[i];
        }
      }
    }
  }

  /** A lone "int" then "float": the loop as written takes both, the intended one fails. */
  lemma IntThenFloat()
    ensures var run := [Token(VarType, "int", 1, 1), Token(VarType, "float", 1, 5)];
      FieldsAsWritten(run, NoFields) == Ok(NoFields.(varType := Flags.Float as int)) &&
      FieldsOnce(run, NoFields, {}) == Err(AssertFailed(FlagGivenTwice))
  {
    var run := [Token(VarType, "int", 1, 1), Token(VarType, "float", 1, 5)];
    assert Lower("int") == "int";
    assert Lower("float") == "float";
    assert run[1..] == [run[1]];
    assert run[1..][1..] == [];
  }

  /** The fields packed: `FlagHelpers.Build(type, scope, modifier, invertMode, dimension)`. */
  function BuildFields(f: FlagFields): Flags.MjoFlags
    requires 0 <= f.varType < 256 && 0 <= f.scope < 256 && 0 <= f.modifier < 256 && 0 <= f.invertMode < 256
  {
    Flags.Build(f.varType as bv8, f.scope as bv8, f.modifier as bv8, f.invertMode as bv8, f.dimension)
  }

  /** The fields any run of known keywords leaves are within the bounds `Build` packs without spilling. */
  predicate InRange(f: FlagFields) {
    0 <= f.varType <= 5 && 0 <= f.scope <= 5 && 0 <= f.modifier <= 5 && 0 <= f.invertMode <= 3 && 0 <= f.dimension <= 3
  }

  lemma {:induction false} FieldsOnceInRange(run: seq<Token>, f: FlagFields, seen: set<TokenType>)
    requires forall i | 0 <= i < |run| :: IsFlagKind(run[i].kind)
    requires InRange(f) && FieldsOnce(run, f, seen).Ok?
    ensures InRange(FieldsOnce(run, f, seen).value)
    decreases |run|
  {
    if |run| > 0 {
      var g := SetField(f, run[0].kind, KeywordValue(run[0]).value);
      FieldsOnceInRange(run[1..], g, seen + {run[0].kind});
    }
  }

  /** Each extractor of the packed word reads back its field. */
  lemma BuildReadsBack(f: FlagFields)
    requires InRange(f)
    ensures var w := BuildFields(f);
      Flags.Type(w) as int == f.varType && Flags.Scope(w) as int == f.scope && Flags.Modifier(w) as int == f.modifier &&
      Flags.InvertMode(w) as int == f.invertMode && Flags.Dimension(w) == f.dimension
  {
  }

  /** The end of the run of flag keywords that starts at p. */
  function FlagRunEnd(ts: seq<Token>, p: nat): (q: nat)
    requires p <= |ts|
    ensures p <= q <= |ts|
    ensures forall k | p <= k < q :: IsFlagKind(ts[k].kind)
    ensures q < |ts| ==> !IsFlagKind(ts[q].kind)
    decreases |ts| - p
  {
    if p < |ts| && IsFlagKind(ts[p].kind) then FlagRunEnd(ts, p + 1) else p
  }

  /** What `ParseFlags` reads at position p: the run of keywords there, packed. */
  function FlagsAt(ts: seq<Token>, p: nat): Result<Flags.MjoFlags>
    requires p <= |ts|
  {
    var run := ts[p..FlagRunEnd(ts, p)];
    match FieldsOnce(run, NoFields, {})
    case Err(e) => Err(e)
    case Ok(f) =>
      FieldsOnceInRange(run, NoFields, {});
      Ok(BuildFields(f))
  }

  /**
   * `ParseFlags` accepts each keyword kind at most once and packs the values it read, the
   * absent fields being 0: every extractor of the result reads back its keyword or 0.
   */
  lemma FlagsRead(ts: seq<Token>, p: nat, k: TokenType)
    requires p <= |ts| && IsFlagKind(k)
    ensures var run := ts[p..FlagRunEnd(ts, p)];
      FlagsAt(ts, p).Ok? <==> OnceEach(run, {})
    ensures var run := ts[p..FlagRunEnd(ts, p)];
      FlagsAt(ts, p).Ok? ==>
        var w := FlagsAt(ts, p).value;
        var read := FlagFields(Flags.Type(w) as int, Flags.Scope(w) as int, Flags.Modifier(w) as int,
                               Flags.InvertMode(w) as int, Flags.Dimension(w));
        (forall i | 0 <= i < |run| && run[i].kind == k :: KeywordValue(run[i]) == Ok(Field(read, k))) &&
        ((forall i | 0 <= i < |run| :: run[i].kind != k) ==> Field(read, k) == 0)
  {
    var run := ts[p..FlagRunEnd(ts, p)];
    FieldsOnceOk(run, NoFields, {});
    if FieldsOnce(run, NoFields, {}).Ok? {
      var f := FieldsOnce(run, NoFields, {}).value;
      FieldsOnceInRange(run, NoFields, {});
      FieldsOnceValues(run, NoFields, {}, k);
      BuildReadsBack(f);
    }
  }

  // ---------------------------------------------------------------------------------------
  // What the cursor reads, as functions of the token stream and a position. A position p
  // stands for the enumerator's current token `ct` = ts[p]; `Advance` throws once the
  // enumerator has nothing after the current token.

  /** A value read and the position of the current token after it. */
  datatype Got<T> = Got(value: T, next: nat)

  function AdvanceAt(ts: seq<Token>, p: nat): (r: Result<nat>)
    requires p < |ts|
    ensures r.Ok? <==> p + 1 < |ts|
    ensures r.Ok? ==> r.value == p + 1
  {
    if p + 1 < |ts| then Ok(p + 1) else Err(Thrown(NoMoreTokens))
  }

  /** `Consume(allowedTypes)`. */
  function ConsumeAt(ts: seq<Token>, p: nat, allowed: seq<TokenType>): (r: Result<nat>)
    requires p < |ts|
    ensures r.Ok? <==> Allows(allowed, ts[p].kind) && p + 1 < |ts|
    ensures r.Ok? ==> r.value == p + 1
  {
    if !Allows(allowed, ts[p].kind) then Err(Thrown(UnexpectedToken)) else AdvanceAt(ts, p)
  }

  /** `ConsumePunctuation(allowedText)`: the text is checked after the token was consumed. */
  function PunctuationAt(ts: seq<Token>, p: nat, allowedText: seq<string>): (r: Result<nat>)
    requires p < |ts|
    ensures r.Ok? <==> ts[p].kind == Punctuation && AllowsText(allowedText, ts[p].value) && p + 1 < |ts|
    ensures r.Ok? ==> r.value == p + 1
  {
    match ConsumeAt(ts, p, [Punctuation])
    case Err(e) => Err(e)
    case Ok(q) => if AllowsText(allowedText, ts[p].value) then Ok(q) else Err(Thrown(UnexpectedToken))
  }

  /**
   * `TryConsumePunctuation(out _, allowedText)`: any punctuation token is consumed, and the
   * answer is yes only when its text is allowed and the token after it is not the end of the file.
   */
  function TryPunctuationAt(ts: seq<Token>, p: nat, allowedText: seq<string>): (r: Result<Got<bool>>)
    requires p < |ts|
    ensures r.Ok? ==> r.value.next < |ts|
    ensures ts[p].kind != Punctuation ==> r == Ok(Got(false, p))
    ensures ts[p].kind == Punctuation ==> (r.Ok? <==> p + 1 < |ts|)
    ensures ts[p].kind == Punctuation && r.Ok? ==>
      r.value.next == p + 1 && (r.value.value <==> AllowsText(allowedText, ts[p].value) && ts[p + 1].kind != EndOfFile)
  {
    if ts[p].kind != Punctuation then Ok(Got(false, p))
    else match AdvanceAt(ts, p)
      case Err(e) => Err(e)
      case Ok(q) => Ok(Got(ts[q].kind != EndOfFile && AllowsText(allowedText, ts[p].value), q))
  }

  /** `ParseType()` at p: a type keyword, looked up by its lowered text. */
  function TypeAt(ts: seq<Token>, p: nat): (r: Result<Got<Flags.MjoType>>)
    requires p < |ts|
    ensures r.Ok? <==> ts[p].kind == VarType && TypeNamed(Lower(ts[p].value)).Ok? && p + 1 < |ts|
    ensures r.Ok? ==> r.value == Got(TypeNamed(Lower(ts[p].value)).value, p + 1)
  {
    match ConsumeAt(ts, p, [VarType])
    case Err(e) => Err(e)
    case Ok(q) =>
      match TypeNamed(Lower(ts[p].value))
      case Err(e) => Err(e)
      case Ok(t) => Ok(Got(t, q))
  }

  /** Put the items already read in front of what the rest of a list reads. */
  function Prepend<T>(xs: seq<T>, r: Result<Got<seq<T>>>): Result<Got<seq<T>>> {
    match r
    case Err(e) => Err(e)
    case Ok(g) => Ok(Got(xs + g.value, g.next))
  }

  /** `ParseTypeList(open, close)`: the open mark, then nothing or types separated by commas, then the close mark. */
  function TypeListAt(ts: seq<Token>, p: nat, open: string, close: string): (r: Result<Got<seq<Flags.MjoType>>>)
    requires p < |ts|
    ensures r.Ok? ==> p < r.value.next < |ts|
  {
    match PunctuationAt(ts, p, [open])
    case Err(e) => Err(e)
    case Ok(q) =>
      if ts[q].value != close then TypeItemsAt(ts, q, close)
      else match PunctuationAt(ts, q, [close])
        case Err(e) => Err(e)
        case Ok(n) => Ok(Got([], n))
  }

  /** The do-while loop of `ParseTypeList`: a type, then a comma to go on or the close mark to stop. */
  function TypeItemsAt(ts: seq<Token>, q: nat, close: string): (r: Result<Got<seq<Flags.MjoType>>>)
    requires q < |ts|
    ensures r.Ok? ==> q < r.value.next < |ts| && |r.value.value| > 0
    decreases |ts| - q
  {
    match TypeAt(ts, q)
    case Err(e) => Err(e)
    case Ok(t) =>
      match PunctuationAt(ts, t.next, [",", close])
      case Err(e) => Err(e)
      case Ok(n) =>
        if ts[t.next].value == "," then Prepend([t.value], TypeItemsAt(ts, n, close))
        else Ok(Got([t.value], n))
  }

  /**
   * The do-while loops over label operands ('c' and 'p'): a label, read by item, then
   * another while `TryConsumePunctuation(out _, ",")` says yes.
   */
  function LabelsAt<T>(ts: seq<Token>, p: nat, item: string -> Result<T>): (r: Result<Got<seq<T>>>)
    requires p < |ts|
    ensures r.Ok? ==> p < r.value.next < |ts| && |r.value.value| > 0
    decreases |ts| - p
  {
    match ConsumeAt(ts, p, [TokenType.Label])
    case Err(e) => Err(e)
    case Ok(q) =>
      match item(ts[p].value)
      case Err(e) => Err(e)
      case Ok(x) =>
        match TryPunctuationAt(ts, q, [","])
        case Err(e) => Err(e)
        case Ok(more) =>
          if more.value then Prepend([x], LabelsAt(ts, more.next, item)) else Ok(Got([x], more.next))
  }

  // ---------------------------------------------------------------------------------------
  // Operand values

  /** `ParseHash` once the hash token is consumed: hexadecimal digits, or else a name to hash. */
  function HashValue(ext: Externals, text: string): (r: Result<bv32>)
  {
    match Slice(text, 1, 0)
    case Err(e) => Err(e)
    case Ok(name) =>
      match TryParseHex(name)
      case Some(h) => Ok(h as bv32)
      case None => NameHash(ext, name)
  }

  /**
   * A name without '@' is a syscall, hashed as '$', the name and the syscall suffix; any other
   * must start with '$' and is hashed as it stands. Both must be names the tables know.
   */
  function NameHash(ext: Externals, name: string): (r: Result<bv32>)
    ensures r.Ok? && '@' !in name ==> ext.knownSyscall(name) && r.value == Crc.HashValue32(ext.encode("$" + name + ext.syscallSuffix), 0)
    ensures r.Ok? && '@' in name ==> |name| > 0 && name[0] == '$' && r.value == Crc.HashValue32(ext.encode(name), 0) && ext.knownFunction(r.value)
  {
    if '@' !in name then
      if !ext.knownSyscall(name) then Err(AssertFailed("Data.KnownSyscallNames.Contains(name)"))
      else Ok(Crc.HashValue32(ext.encode("$" + name + ext.syscallSuffix), 0))
    else if !(|name| > 0 && name[0] == '$') then Err(AssertFailed("name.StartsWith('$')"))
    else
      var h := Crc.HashValue32(ext.encode(name), 0);
      if !ext.knownFunction(h) then Err(AssertFailed("Data.KnownFunctionNamesByHash.ContainsKey(hash)")) else Ok(h)
  }

  lemma Bv32RoundTrip(h: bv32)
    ensures (h as int) as bv32 == h
  {
  }

  /** A hash printed as `${hash:x8}` reads back as that hash, whatever the name tables hold. */
  lemma HashReadsBack(ext: Externals, h: bv32)
    ensures HashValue(ext, "$" + Hex8(h as int)) == Ok(h)
  {
    var name := Hex8(h as int);
    assert ("$" + name)[1..|"$" + name| - 0] == name;
    Hex8Parses(h as int);
    Bv32RoundTrip(h);
  }

  /** `ParseIntLiteral` once the token is consumed: decimal, "0x" hexadecimal, or a '$' hash in hexadecimal. */
  function IntLiteralValue(t: Token): (r: Result<int>)
    requires t.kind == IntLiteral || t.kind == HexLiteral || t.kind == Hash
    ensures t.kind == IntLiteral ==> r == ParseInt32(t.value)
  {
    if t.kind == IntLiteral then ParseInt32(t.value)
    else
      match Slice(t.value, if t.kind == HexLiteral then 2 else 1, 0)
      case Err(e) => Err(e)
      case Ok(digits) => ParseHexInt32(digits)
  }

  /** "0x" literals give the 32 bits of their digits as a signed int. */
  lemma HexLiteralValue(digits: string)
    requires TryParseHex(digits).Some?
    ensures IntLiteralValue(Token(HexLiteral, "0x" + digits, 0, 0)) == Ok(SignedOf(TryParseHex(digits).value))
  {
    var t := Token(HexLiteral, "0x" + digits, 0, 0);
    assert t.value[2..|t.value| - 0] == digits;
    assert Slice(t.value, 2, 0) == Ok(digits);
    assert IntLiteralValue(t) == ParseHexInt32(digits);
  }

  /** So do '$' hash literals used as integers. */
  lemma HashLiteralValue(digits: string)
    requires TryParseHex(digits).Some?
    ensures IntLiteralValue(Token(Hash, "$" + digits, 0, 0)) == Ok(SignedOf(TryParseHex(digits).value))
  {
    var t := Token(Hash, "$" + digits, 0, 0);
    assert t.value[1..|t.value| - 0] == digits;
    assert Slice(t.value, 1, 0) == Ok(digits);
    assert IntLiteralValue(t) == ParseHexInt32(digits);
  }

  /**
   * `ParseRelativeJumpLabel`: "~-h" is minus h, "~+h" is h and "~h" is h, h hexadecimal; the
   * label must start with '~' and hold at least two characters.
   */
  function RelativeJump(jump: string): (r: Result<int>)
    ensures r.Ok? ==> |jump| >= 2 && jump[0] == '~'
  {
    if !(|jump| > 0 && jump[0] == '~') then Err(AssertFailed("jumpLabel.StartsWith('~')"))
    else if |jump| < 2 then Err(AssertFailed("jumpLabel.Length >= 2"))
    else if jump[1] == '-' then
      match ParseHexInt32(jump[2..])
      case Err(e) => Err(e)
      case Ok(v) => Ok(Negate32(v))
    else if jump[1] == '+' then ParseHexInt32(jump[2..])
    else ParseHexInt32(jump[1..])
  }

  /** The three forms of a relative jump in front of eight hexadecimal digits below 2^31. */
  lemma RelativeJumpForms(h: nat)
    requires h < 0x8000_0000
    ensures RelativeJump("~-" + Hex8(h)) == Ok(-(h as int))
    ensures RelativeJump("~+" + Hex8(h)) == Ok(h)
    ensures RelativeJump("~" + Hex8(h)) == Ok(h)
  {
    Hex8Parses(h);
    assert ("~-" + Hex8(h))[2..] == Hex8(h);
    assert ("~+" + Hex8(h))[2..] == Hex8(h);
    assert ("~" + Hex8(h))[1..] == Hex8(h);
  }

  /**
   * The disassembler prints a jump as "@~" and `{offset:x8}`, the eight digits of the offset
   * modulo 2^32: that label without its '@' reads back as the offset.
   */
  lemma RelativeJumpReadsBack(offset: Int32)
    ensures RelativeJump("~" + Hex8(offset % 0x1_0000_0000)) == Ok(offset)
  {
    var bits := offset % 0x1_0000_0000;
    var digits := Hex8(bits);
    Hex8Parses(bits);
    assert ("~" + digits)[1..] == digits;
    assert ("~" + digits)[0] == '~';
    assert ("~" + digits)[1] == digits[0] && IsHexDigit(digits[0]);
    Int32Modulo(offset);
    assert SignedOf(bits) == offset;
    assert ParseHexInt32(digits) == Ok(offset);
  }

  /** The 'j' and 'c' operands inside a block name a block; a relative label there fails the assertion. */
  function BlockLabel(text: string): (r: Result<string>)
    ensures r.Ok? ==> |text| >= 1 && r.value == text[1..] && !(|r.value| > 0 && r.value[0] == '~')
  {
    match Slice(text, 1, 0)
    case Err(e) => Err(e)
    case Ok(name) => if |name| > 0 && name[0] == '~' then Err(AssertFailed("!jumpLabel.StartsWith('~')")) else Ok(name)
  }

  /** The 'j' and 'c' operands outside a block: a relative jump after the '@'. */
  function JumpLabel(text: string): Result<int> {
    match Slice(text, 1, 0)
    case Err(e) => Err(e)
    case Ok(name) => RelativeJump(name)
  }

  /** The 'p' operand reads labels and keeps nothing. */
  function AnyLabel(text: string): Result<()> { Ok(()) }

  /** The opcode a mnemonic names: "phi" is the synthetic phi opcode, any other goes through the table. */
  function OpcodeNamed(ext: Externals, mnemonic: string): (r: Result<Opcodes.Opcode>)
    ensures r.Ok? <==> mnemonic == "phi" || mnemonic in ext.byMnemonic
    ensures mnemonic == "phi" ==> r == Ok(PhiOpcode())
  {
    if mnemonic == "phi" then Ok(PhiOpcode())
    else if mnemonic in ext.byMnemonic then Ok(ext.byMnemonic[mnemonic])
    else Err(Thrown(KeyNotFound))
  }

  // ---------------------------------------------------------------------------------------
  // Which fields of an instruction each operand letter writes

  /** b is a with at most the fields operand letter c writes changed. */
  predicate OperandFields(c: char, a: Instruction, b: Instruction) {
    b.opcode == a.opcode && b.offset == a.offset && b.size == a.size && b.block == a.block &&
    b.beforeValues == a.beforeValues && b.poppedValues == a.poppedValues && b.pushedValues == a.pushedValues &&
    (c != 't' ==> b.typeList == a.typeList) &&
    (c != 's' ==> b.str == a.str && b.externalKey == a.externalKey) &&
    (c != 'f' ==> b.flags == a.flags) &&
    (c != 'h' ==> b.hash == a.hash) &&
    (c != 'o' ==> b.varOffset == a.varOffset) &&
    (c != 'i' ==> b.intValue == a.intValue) &&
    (c != 'r' ==> b.floatValue == a.floatValue) &&
    (c != 'a' ==> b.argumentCount == a.argumentCount) &&
    (c != 'j' ==> b.jumpTarget == a.jumpTarget && b.jumpOffset == a.jumpOffset) &&
    (c != 'l' ==> b.lineNumber == a.lineNumber) &&
    (c != 'c' ==> b.switchTargets == a.switchTargets && b.switchOffsets == a.switchOffsets)
  }

  /** ins differs from base only in fields that some letter of enc writes. */
  predicate KeptOutside(enc: string, base: Instruction, ins: Instruction) {
    ins.opcode == base.opcode && ins.offset == base.offset && ins.size == base.size && ins.block == base.block &&
    ins.beforeValues == base.beforeValues && ins.poppedValues == base.poppedValues && ins.pushedValues == base.pushedValues &&
    ('t' !in enc ==> ins.typeList == base.typeList) &&
    ('s' !in enc ==> ins.str == base.str && ins.externalKey == base.externalKey) &&
    ('f' !in enc ==> ins.flags == base.flags) &&
    ('h' !in enc ==> ins.hash == base.hash) &&
    ('o' !in enc ==> ins.varOffset == base.varOffset) &&
    ('i' !in enc ==> ins.intValue == base.intValue) &&
    ('r' !in enc ==> ins.floatValue == base.floatValue) &&
    ('a' !in enc ==> ins.argumentCount == base.argumentCount) &&
    ('j' !in enc ==> ins.jumpTarget == base.jumpTarget && ins.jumpOffset == base.jumpOffset) &&
    ('l' !in enc ==> ins.lineNumber == base.lineNumber) &&
    ('c' !in enc ==> ins.switchTargets == base.switchTargets && ins.switchOffsets == base.switchOffsets)
  }

  lemma KeptOutsideStep(enc: string, c: char, base: Instruction, a: Instruction, b: Instruction)
    requires KeptOutside(enc, base, a) && OperandFields(c, a, b)
    ensures KeptOutside(enc + [c], base, b)
  {
    assert forall x :: x in enc + [c] <==> x in enc || x == c;
  }

  /** The instruction `new Instruction(opcode, block)` starts from. */
  function Blank(op: Opcodes.Opcode, block: Option<BlockId>): (b: Instruction)
    ensures b.opcode == op && b.block == block
  {
    NewInstruction(op, None).(block := block)
  }

  // ---------------------------------------------------------------------------------------
  // The labels of a function

  /** `blocks` maps each label to the block of that name, and every block of the arena is in it. */
  predicate Labelled(labels: map<string, BlockId>, arena: seq<BasicBlock>) {
    (forall l | l in labels :: labels[l] < |arena| && arena[labels[l]].name == l) &&
    (forall i | 0 <= i < |arena| :: arena[i].name in labels && labels[arena[i].name] == i)
  }

  /** Changing what a block holds, but not its name, keeps the labels. */
  lemma LabelledRefill(labels: map<string, BlockId>, arena: seq<BasicBlock>, id: BlockId, b: BasicBlock)
    requires Labelled(labels, arena) && id < |arena| && b.name == arena[id].name
    ensures Labelled(labels, arena[id := b])
  {
  }

  /** `function.Instructions.Single(inst => inst.IsAlloca)`: exactly one alloca, else it throws. */
  function SingleAlloca(instructions: seq<Instruction>): (r: Result<Instruction>)
    ensures r.Ok? <==> |AllocaPositions(instructions)| == 1
    ensures r.Ok? ==> IsAlloca(r.value) && r.value in instructions
  {
    var ks := AllocaPositions(instructions);
    if |ks| == 0 then Err(Thrown("Sequence contains no matching element"))
    else if |ks| > 1 then Err(Thrown("Sequence contains more than one matching element"))
    else Ok(instructions[ks[0]])
  }

  /** The positions of the allocas, in order. */
  function AllocaPositions(instructions: seq<Instruction>): (ks: seq<nat>)
    ensures forall j | 0 <= j < |ks| :: ks[j] < |instructions| && IsAlloca(instructions[ks[j]])
    ensures forall k | 0 <= k < |instructions| && IsAlloca(instructions[k]) :: k in ks
  {
    if |instructions| == 0 then []
    else
      var rest := AllocaPositions(instructions[..|instructions| - 1]);
      if IsAlloca(instructions[|instructions| - 1]) then rest + [|instructions| - 1] else rest
  }

  // ---------------------------------------------------------------------------------------
  // The operands of one instruction, as read outside a function body (the instruction-list
  // form, where jumps are relative)

  /** The read value without its position. */
  function Value<T>(r: Result<Got<T>>): Result<T> {
    match r
    case Err(e) => Err(e)
    case Ok(g) => Ok(g.value)
  }

  /** `ParseHash()`: a hash token, read by `HashValue`. */
  function HashAt(ext: Externals, ts: seq<Token>, p: nat): (r: Result<Got<bv32>>)
    requires p < |ts|
    ensures r.Ok? <==> ts[p].kind == Hash && p + 1 < |ts| && HashValue(ext, ts[p].value).Ok?
    ensures r.Ok? ==> r.value == Got(HashValue(ext, ts[p].value).value, p + 1)
  {
    match ConsumeAt(ts, p, [Hash])
    case Err(e) => Err(e)
    case Ok(q) =>
      match HashValue(ext, ts[p].value)
      case Err(e) => Err(e)
      case Ok(h) => Ok(Got(h, q))
  }

  /** `ParseIntLiteral()`. */
  function IntLiteralAt(ts: seq<Token>, p: nat): (r: Result<Got<int>>)
    requires p < |ts|
    ensures r.Ok? ==> r.value.next == p + 1 < |ts| && -0x8000_0000 <= r.value.value < 0x8000_0000
  {
    match ConsumeAt(ts, p, [IntLiteral, HexLiteral, Hash])
    case Err(e) => Err(e)
    case Ok(q) =>
      match IntLiteralValue(ts[p])
      case Err(e) => Err(e)
      case Ok(v) => Ok(Got(v, q))
  }

  /** `float.Parse`, which throws on text it does not accept. */
  function FloatOf(ext: Externals, text: string): Result<bv32> {
    match ext.parseFloat(text)
    case None => Err(Thrown(BadNumber))
    case Some(f) => Ok(f)
  }

  /** The 'l' operand: `ushort.Parse` of the text after '#'. */
  function LineNumberOf(text: string): (r: Result<nat>)
    ensures r.Ok? ==> r.value < 0x1_0000
  {
    match Slice(text, 1, 0)
    case Err(e) => Err(e)
    case Ok(digits) => ParseUInt16(digits)
  }

  /** A string literal without its quotes, unescaped, as the Shift-JIS bytes the instruction keeps. */
  function StringOf(ext: Externals, text: string): Result<seq<bv8>> {
    match Slice(text, 1, 1)
    case Err(e) => Err(e)
    case Ok(inner) => Ok(ext.encode(ext.unescape(inner)))
  }

  /** The 's' operand: "%{key}" names an externalised string, anything else must be a string literal. */
  function StringOperandAt(ext: Externals, ts: seq<Token>, p: nat, ins: Instruction): (r: Result<Got<Instruction>>)
    requires p < |ts|
    ensures r.Ok? ==> p < r.value.next < |ts| && OperandFields('s', ins, r.value.value)
  {
    if ts[p].value == "%" then
      match PunctuationAt(ts, p, ["%"])
      case Err(e) => Err(e)
      case Ok(q1) =>
        match PunctuationAt(ts, q1, ["{"])
        case Err(e) => Err(e)
        case Ok(q2) =>
          match ConsumeAt(ts, q2, [Name])
          case Err(e) => Err(e)
          case Ok(q3) =>
            match PunctuationAt(ts, q3, ["}"])
            case Err(e) => Err(e)
            case Ok(q4) => Ok(Got(ins.(externalKey := Some(ts[q2].value)), q4))
    else
      match ConsumeAt(ts, p, [StringLiteral])
      case Err(e) => Err(e)
      case Ok(q) =>
        match StringOf(ext, ts[p].value)
        case Err(e) => Err(e)
        case Ok(bytes) => Ok(Got(ins.(str := Some(bytes)), q))
  }

  /** The 'o' operand: -1 without reading when the scope is not local and no integer follows. */
  function VarOffsetAt(ts: seq<Token>, p: nat, ins: Instruction): (r: Result<Got<Instruction>>)
    requires p < |ts|
    ensures r.Ok? ==> p <= r.value.next < |ts| && OperandFields('o', ins, r.value.value)
    ensures Flags.Scope(ins.flags) != Flags.Local && ts[p].kind != IntLiteral ==> r == Ok(Got(ins.(varOffset := -1), p))
  {
    if Flags.Scope(ins.flags) != Flags.Local && ts[p].kind != IntLiteral then Ok(Got(ins.(varOffset := -1), p))
    else
      match ConsumeAt(ts, p, [IntLiteral])
      case Err(e) => Err(e)
      case Ok(q) =>
        match ParseInt16(ts[p].value)
        case Err(e) => Err(e)
        case Ok(v) => Ok(Got(ins.(varOffset := v), q))
  }

  /** The 'a' operand: a count in parentheses. */
  function ArgumentCountAt(ts: seq<Token>, p: nat, ins: Instruction): (r: Result<Got<Instruction>>)
    requires p < |ts|
    ensures r.Ok? ==> p < r.value.next < |ts| && OperandFields('a', ins, r.value.value)
  {
    match PunctuationAt(ts, p, ["("])
    case Err(e) => Err(e)
    case Ok(q) =>
      match ConsumeAt(ts, q, [IntLiteral])
      case Err(e) => Err(e)
      case Ok(q2) =>
        match ParseUInt16(ts[q].value)
        case Err(e) => Err(e)
        case Ok(count) =>
          match PunctuationAt(ts, q2, [")"])
          case Err(e) => Err(e)
          case Ok(n) => Ok(Got(ins.(argumentCount := count), n))
  }

  /** The 't' operand: a type list in brackets. */
  function TypesOperandAt(ts: seq<Token>, p: nat, ins: Instruction): (r: Result<Got<Instruction>>)
    requires p < |ts|
    ensures r.Ok? ==> p < r.value.next < |ts| && OperandFields('t', ins, r.value.value)
  {
    match TypeListAt(ts, p, "[", "]")
    case Err(e) => Err(e)
    case Ok(g) => Ok(Got(ins.(typeList := g.value), g.next))
  }

  /** The 'f' operand: the run of flag keywords; it fails when the run reaches the end of the stream. */
  function FlagsOperandAt(ts: seq<Token>, p: nat, ins: Instruction): (r: Result<Got<Instruction>>)
    requires p < |ts|
    ensures r.Ok? ==> p <= r.value.next < |ts| && OperandFields('f', ins, r.value.value)
  {
    match FlagsAt(ts, p)
    case Err(e) => Err(e)
    case Ok(f) =>
      var q := FlagRunEnd(ts, p);
      if q < |ts| then Ok(Got(ins.(flags := f), q)) else Err(Thrown(NoMoreTokens))
  }

  /** The 'h' operand. */
  function HashOperandAt(ext: Externals, ts: seq<Token>, p: nat, ins: Instruction): (r: Result<Got<Instruction>>)
    requires p < |ts|
    ensures r.Ok? ==> p < r.value.next < |ts| && OperandFields('h', ins, r.value.value)
  {
    match HashAt(ext, ts, p)
    case Err(e) => Err(e)
    case Ok(g) => Ok(Got(ins.(hash := g.value), g.next))
  }

  /** The 'i' operand. */
  function IntOperandAt(ts: seq<Token>, p: nat, ins: Instruction): (r: Result<Got<Instruction>>)
    requires p < |ts|
    ensures r.Ok? ==> p < r.value.next < |ts| && OperandFields('i', ins, r.value.value)
  {
    match IntLiteralAt(ts, p)
    case Err(e) => Err(e)
    case Ok(g) => Ok(Got(ins.(intValue := g.value), g.next))
  }

  /** The 'r' operand: an integer or a float literal, read by `float.Parse`. */
  function FloatOperandAt(ext: Externals, ts: seq<Token>, p: nat, ins: Instruction): (r: Result<Got<Instruction>>)
    requires p < |ts|
    ensures r.Ok? ==> p < r.value.next < |ts| && OperandFields('r', ins, r.value.value)
  {
    match ConsumeAt(ts, p, [IntLiteral, FloatLiteral])
    case Err(e) => Err(e)
    case Ok(q) =>
      match FloatOf(ext, ts[p].value)
      case Err(e) => Err(e)
      case Ok(f) => Ok(Got(ins.(floatValue := f), q))
  }

  /** The 'j' operand outside a block: a relative jump, which must fit an int. */
  function JumpOperandAt(ts: seq<Token>, p: nat, ins: Instruction): (r: Result<Got<Instruction>>)
    requires p < |ts|
    ensures r.Ok? ==> p < r.value.next < |ts| && OperandFields('j', ins, r.value.value)
    ensures r.Ok? ==> r.value.value.jumpOffset.Some? && -0x8000_0000 <= r.value.value.jumpOffset.value < 0x8000_0000
  {
    match ConsumeAt(ts, p, [TokenType.Label])
    case Err(e) => Err(e)
    case Ok(q) =>
      match JumpLabel(ts[p].value)
      case Err(e) => Err(e)
      case Ok(offset) => if -0x8000_0000 <= offset < 0x8000_0000 then Ok(Got(ins.(jumpOffset := Some(offset)), q)) else Err(Thrown(BadNumber))
  }

  /** The label of a 'j' operand inside a block, as `GetBlock` is given it. */
  function BlockNameAt(ts: seq<Token>, p: nat): (r: Result<Got<string>>)
    requires p < |ts|
    ensures r.Ok? ==> r.value.next == p + 1 < |ts| && ts[p].kind == TokenType.Label
  {
    match ConsumeAt(ts, p, [TokenType.Label])
    case Err(e) => Err(e)
    case Ok(q) =>
      match BlockLabel(ts[p].value)
      case Err(e) => Err(e)
      case Ok(name) => Ok(Got(name, q))
  }

  /** The 'l' operand. */
  function LineOperandAt(ts: seq<Token>, p: nat, ins: Instruction): (r: Result<Got<Instruction>>)
    requires p < |ts|
    ensures r.Ok? ==> p < r.value.next < |ts| && OperandFields('l', ins, r.value.value)
  {
    match ConsumeAt(ts, p, [LineNo])
    case Err(e) => Err(e)
    case Ok(q) =>
      match LineNumberOf(ts[p].value)
      case Err(e) => Err(e)
      case Ok(n) => Ok(Got(ins.(lineNumber := n), q))
  }

  /** The 'c' operand outside a block: relative jumps separated by commas, each fitting an int. */
  function SwitchOperandAt(ts: seq<Token>, p: nat, ins: Instruction): (r: Result<Got<Instruction>>)
    requires p < |ts|
    ensures r.Ok? ==> p < r.value.next < |ts| && OperandFields('c', ins, r.value.value)
    ensures r.Ok? ==> r.value.value.switchOffsets.Some? && AllInt32(r.value.value.switchOffsets.value)
  {
    match LabelsAt(ts, p, JumpLabel)
    case Err(e) => Err(e)
    case Ok(g) => if AllInt32(g.value) then Ok(Got(ins.(switchOffsets := Some(g.value)), g.next)) else Err(Thrown(BadNumber))
  }

  /** The 'p' operand of a phi: labels read and dropped. */
  function PhiOperandAt(ts: seq<Token>, p: nat, ins: Instruction): (r: Result<Got<Instruction>>)
    requires p < |ts|
    ensures r.Ok? ==> p < r.value.next < |ts| && r.value.value == ins
  {
    match LabelsAt(ts, p, AnyLabel)
    case Err(e) => Err(e)
    case Ok(g) => Ok(Got(ins, g.next))
  }

  /**
   * One operand letter as `ParseInstruction(null)` reads it: the 'j' and 'c' labels are
   * relative jumps, 'p' labels are read and dropped, '0' and unknown letters read nothing.
   */
  function OperandAt(ext: Externals, ts: seq<Token>, p: nat, c: char, ins: Instruction): (r: Result<Got<Instruction>>)
    requires p < |ts|
    ensures r.Ok? ==> p <= r.value.next < |ts| && OperandFields(c, ins, r.value.value)
  {
    if c == 't' then TypesOperandAt(ts, p, ins)
    else if c == 's' then StringOperandAt(ext, ts, p, ins)
    else if c == 'f' then FlagsOperandAt(ts, p, ins)
    else if c == 'h' then HashOperandAt(ext, ts, p, ins)
    else if c == 'o' then VarOffsetAt(ts, p, ins)
    else if c == 'i' then IntOperandAt(ts, p, ins)
    else if c == 'r' then FloatOperandAt(ext, ts, p, ins)
    else if c == 'a' then ArgumentCountAt(ts, p, ins)
    else if c == 'j' then JumpOperandAt(ts, p, ins)
    else if c == 'l' then LineOperandAt(ts, p, ins)
    else if c == 'c' then SwitchOperandAt(ts, p, ins)
    else if c == 'p' then PhiOperandAt(ts, p, ins)
    else Ok(Got(ins, p))
  }

  predicate AllInt32(xs: seq<int>) {
    forall k | 0 <= k < |xs| :: -0x8000_0000 <= xs[k] < 0x8000_0000
  }

  /** The `foreach` over the encoding letters. */
  function OperandsAt(ext: Externals, ts: seq<Token>, p: nat, enc: string, ins: Instruction): (r: Result<Got<Instruction>>)
    requires p < |ts|
    ensures r.Ok? ==> p <= r.value.next < |ts|
    decreases |enc|, 1
  {
    if |enc| == 0 then Ok(Got(ins, p)) else FirstOperandAt(ext, ts, p, enc, ins)
  }

  /** One turn of that loop: the first letter, then the rest. */
  function FirstOperandAt(ext: Externals, ts: seq<Token>, p: nat, enc: string, ins: Instruction): (r: Result<Got<Instruction>>)
    requires p < |ts| && |enc| > 0
    decreases |enc|, 0
  {
    match OperandAt(ext, ts, p, enc[0], ins)
    case Err(e) => Err(e)
    case Ok(g) => OperandsAt(ext, ts, g.next, enc[1..], g.value)
  }

  /** The operands of an encoding write only the fields of its letters. */
  lemma {:induction false} OperandsKeep(ext: Externals, ts: seq<Token>, p: nat, enc: string, ins: Instruction)
    requires p < |ts|
    ensures OperandsAt(ext, ts, p, enc, ins).Ok? ==> KeptOutside(enc, ins, OperandsAt(ext, ts, p, enc, ins).value.value)
    decreases |enc|
  {
    if |enc| > 0 {
      var first := OperandAt(ext, ts, p, enc[0], ins);
      if first.Ok? {
        var g := first.value;
        OperandsKeep(ext, ts, g.next, enc[1..], g.value);
        KeptOutsideFront(enc, ins, g.value, OperandsAt(ext, ts, g.next, enc[1..], g.value));
      }
    }
  }

  lemma KeptOutsideFront(enc: string, base: Instruction, a: Instruction, rest: Result<Got<Instruction>>)
    requires |enc| > 0 && OperandFields(enc[0], base, a) && (rest.Ok? ==> KeptOutside(enc[1..], a, rest.value.value))
    ensures rest.Ok? ==> KeptOutside(enc, base, rest.value.value)
  {
    assert forall x :: x in enc <==> x == enc[0] || x in enc[1..];
  }

  /** `ParseInstruction(null)`: a mnemonic, then its operands in encoding order. */
  function InstructionAt(ext: Externals, ts: seq<Token>, p: nat): (r: Result<Got<Instruction>>)
    requires p < |ts|
    ensures r.Ok? ==> p < r.value.next < |ts|
    ensures r.Ok? ==> ts[p].kind == Name && OpcodeNamed(ext, ts[p].value).Ok?
    ensures r.Ok? ==> r.value.value.opcode == OpcodeNamed(ext, ts[p].value).value
  {
    match ConsumeAt(ts, p, [Name])
    case Err(e) => Err(e)
    case Ok(q) =>
      match OpcodeNamed(ext, ts[p].value)
      case Err(e) => Err(e)
      case Ok(op) =>
        OperandsKeep(ext, ts, q, op.encoding, Blank(op, None));
        OperandsAt(ext, ts, q, op.encoding, Blank(op, None))
  }

  /** An instruction read outside a block is the blank one of its opcode but for the fields its operands write. */
  lemma InstructionKeeps(ext: Externals, ts: seq<Token>, p: nat)
    requires p < |ts|
    ensures InstructionAt(ext, ts, p).Ok? ==>
      var op := OpcodeNamed(ext, ts[p].value).value;
      KeptOutside(op.encoding, Blank(op, None), InstructionAt(ext, ts, p).value.value)
  {
    if InstructionAt(ext, ts, p).Ok? {
      var op := OpcodeNamed(ext, ts[p].value).value;
      OperandsKeep(ext, ts, p + 1, op.encoding, Blank(op, None));
    }
  }

  /** The block references of an instruction name blocks below n. */
  predicate TargetsWithin(ins: Instruction, n: nat) {
    (ins.jumpTarget.Some? ==> ins.jumpTarget.value < n) &&
    (ins.switchTargets.Some? ==> forall j | 0 <= j < |ins.switchTargets.value| :: ins.switchTargets.value[j] < n)
  }

  /** Every instruction in the arena names its own block, and jumps only to blocks of the arena. */
  predicate Targeted(arena: seq<BasicBlock>) {
    forall i, k | 0 <= i < |arena| && 0 <= k < |arena[i].instructions| ::
      arena[i].instructions[k].block == Some(i) && TargetsWithin(arena[i].instructions[k], |arena|)
  }

  /** The arena only grew: the blocks it had are still there, unchanged, at their places. */
  predicate Extends(before: seq<BasicBlock>, after: seq<BasicBlock>) {
    |before| <= |after| && after[..|before|] == before
  }

  /** A method result r, with the cursor at p afterwards, is what spec reads. */
  ghost predicate ReadTo<T>(r: Result<T>, spec: Result<Got<T>>, p: nat) {
    r == Value(spec) && (r.Ok? ==> p == spec.value.next)
  }

  /**
   * The 'j' operand inside a block: the label after '@', which must not be relative, becomes
   * the jump target, the block `GetBlock` gives for that name.
   */
  predicate JumpedTo(r: Result<Instruction>, ins: Instruction, name: Result<Got<string>>, p: nat, labels: map<string, BlockId>) {
    (r.Ok? <==> name.Ok?) && (r.Err? ==> r.error == name.error) &&
    (r.Ok? ==> p == name.value.next && name.value.value in labels &&
               r.value == ins.(jumpTarget := Some(labels[name.value.value])))
  }

  /** The 'c' operand inside a block: each label after '@' becomes a switch target, in order. */
  predicate SwitchedTo(r: Result<Instruction>, ins: Instruction, names: Result<Got<seq<string>>>, p: nat, labels: map<string, BlockId>) {
    (r.Ok? <==> names.Ok?) && (r.Err? ==> r.error == names.error) &&
    (r.Ok? ==> p == names.value.next && r.value.switchTargets.Some? &&
               r.value == ins.(switchTargets := r.value.switchTargets) &&
               |r.value.switchTargets.value| == |names.value.value| &&
               forall k | 0 <= k < |names.value.value| ::
                 names.value.value[k] in labels && r.value.switchTargets.value[k] == labels[names.value.value[k]])
  }

  /** One turn of the operand loop, read off the function. */
  lemma OperandsStep(ext: Externals, ts: seq<Token>, p: nat, enc: string, i: nat, ins: Instruction)
    requires p < |ts| && i < |enc|
    ensures OperandsAt(ext, ts, p, enc[i..], ins) ==
      match OperandAt(ext, ts, p, enc[i], ins)
      case Err(e) => Err(e)
      case Ok(g) => OperandsAt(ext, ts, g.next, enc[i + 1..], g.value)
  {
    assert enc[i..][0] == enc[i] && enc[i..][1..] == enc[i + 1..];
  }

  // ---------------------------------------------------------------------------------------
  // The script as a whole: `ParseScript`'s header, its index lines and its addressed lines

  /** `TryConsume(out _, allowedTypes)`: a token of an allowed kind is consumed, and the answer is whether the one after it is not the end of the file. */
  function TryConsumeAt(ts: seq<Token>, p: nat, allowed: seq<TokenType>): (r: Result<Got<bool>>)
    requires p < |ts|
    ensures r.Ok? ==> p <= r.value.next < |ts| && (r.value.value ==> r.value.next == p + 1)
  {
    if !Allows(allowed, ts[p].kind) then Ok(Got(false, p))
    else match AdvanceAt(ts, p)
      case Err(e) => Err(e)
      case Ok(q) => Ok(Got(ts[q].kind != EndOfFile, q))
  }

  /**
   * In a token stream, trying one kind other than the end of the file never fails; it says yes
   * exactly when the current token has that kind and is not the last before the end, and it
   * moves past the token exactly when the kind matches.
   */
  lemma TryConsumeInStream(ts: seq<Token>, p: nat, kind: TokenType)
    requires Stream(ts) && p < |ts| && kind != EndOfFile
    ensures TryConsumeAt(ts, p, [kind]).Ok?
    ensures TryConsumeAt(ts, p, [kind]).value.value <==>
      ts[p].kind == kind && p + 2 < |ts|
    ensures TryConsumeAt(ts, p, [kind]).value.next == if ts[p].kind == kind then p + 1 else p
  {
    StreamNext(ts, p);
    if ts[p].kind == kind {
      StreamNext(ts, p + 1);
    }
  }

  /** `EnableReadMark = true`, then an optional `readmark enable` or `readmark disable`: the flag, and where the body starts. */
  function ReadMarkAt(ts: seq<Token>): (r: Result<Got<bool>>)
    requires |ts| > 0
    ensures r.Ok? ==> r.value.next < |ts|
  {
    match TryConsumeAt(ts, 0, [ReadMark])
    case Err(e) => Err(e)
    case Ok(g) =>
      if !g.value then Ok(Got(true, g.next))
      else match ConsumeAt(ts, g.next, [Enable, Disable])
        case Err(e) => Err(e)
        case Ok(q) => Ok(Got(ts[g.next].kind == Enable, q))
  }

  /** The function index and the entry point offset read so far. */
  datatype Indexed = Indexed(entries: seq<FunctionEntry>, entryPoint: Option<UInt32>)

  const MultipleEntryPoints: string := "Multiple entry points found"

  /**
   * One index line after its keyword: a hash, an offset literal cast to `uint` (so taken modulo
   * 2^32), and an optional entry point mark, which no earlier line may have carried.
   */
  function IndexLineAt(ext: Externals, ts: seq<Token>, p: nat, acc: Indexed): (r: Result<Got<Indexed>>)
    requires p < |ts|
    ensures r.Ok? ==> p < r.value.next < |ts|
    ensures r.Ok? ==> |r.value.value.entries| == |acc.entries| + 1
    ensures r.Ok? ==> r.value.value.entries[..|acc.entries|] == acc.entries
    ensures r.Ok? && acc.entryPoint.Some? ==> r.value.value.entryPoint == acc.entryPoint
  {
    match HashAt(ext, ts, p)
    case Err(e) => Err(e)
    case Ok(h) => IndexOffsetAt(ts, h.next, acc, h.value)
  }

  lemma IndexLineHashed(ext: Externals, ts: seq<Token>, p: nat, acc: Indexed, hash: bv32)
    requires p + 1 < |ts| && HashAt(ext, ts, p) == Ok(Got(hash, p + 1))
    ensures IndexLineAt(ext, ts, p, acc) == IndexOffsetAt(ts, p + 1, acc, hash)
  {
  }

  lemma IndexOffsetRead(ts: seq<Token>, p: nat, acc: Indexed, hash: bv32, n: int)
    requires p + 1 < |ts| && IntLiteralAt(ts, p) == Ok(Got(n, p + 1))
    ensures IndexOffsetAt(ts, p, acc, hash) == IndexEntryAt(ts, p + 1, acc, FunctionEntry(hash, n % 0x1_0000_0000))
  {
  }

  /** An index line after its hash: the offset, then the end of the line. */
  function IndexOffsetAt(ts: seq<Token>, p: nat, acc: Indexed, hash: bv32): (r: Result<Got<Indexed>>)
    requires p < |ts|
    ensures r.Ok? ==> p < r.value.next < |ts|
    ensures r.Ok? ==> |r.value.value.entries| == |acc.entries| + 1
    ensures r.Ok? ==> r.value.value.entries[..|acc.entries|] == acc.entries
    ensures r.Ok? && acc.entryPoint.Some? ==> r.value.value.entryPoint == acc.entryPoint
  {
    match IntLiteralAt(ts, p)
    case Err(e) => Err(e)
    case Ok(o) => IndexEntryAt(ts, o.next, acc, FunctionEntry(hash, o.value % 0x1_0000_0000))
  }

  /** The end of an index line: the entry, then an optional entry point mark, of which there is at most one. */
  function IndexEntryAt(ts: seq<Token>, p: nat, acc: Indexed, entry: FunctionEntry): (r: Result<Got<Indexed>>)
    requires p < |ts|
    ensures r.Ok? ==> p <= r.value.next < |ts| && r.value.value.entries == acc.entries + [entry]
    ensures r.Ok? ==>
              r.value.value.entryPoint == acc.entryPoint ||
              (acc.entryPoint.None? && r.value.value.entryPoint == Some(entry.offset))
  {
    match TryConsumeAt(ts, p, [EntryPoint])
    case Err(e) => Err(e)
    case Ok(m) =>
      if m.value && acc.entryPoint.Some? then Err(AssertFailed(MultipleEntryPoints))
      else
        var point := if m.value then Some(entry.offset) else acc.entryPoint;
        Ok(Got(Indexed(acc.entries + [entry], point), m.next))
  }

  /** The `while(TryConsume(out _, Index))` loop from position p, after earlier lines gave acc. */
  function IndexFrom(ext: Externals, ts: seq<Token>, p: nat, acc: Indexed): (r: Result<Got<Indexed>>)
    requires p < |ts|
    ensures r.Ok? ==> p <= r.value.next < |ts|
    decreases |ts| - p
  {
    match TryConsumeAt(ts, p, [TokenType.Index])
    case Err(e) => Err(e)
    case Ok(g) =>
      if !g.value then Ok(Got(acc, g.next))
      else match IndexLineAt(ext, ts, g.next, acc)
        case Err(e) => Err(e)
        case Ok(l) => IndexFrom(ext, ts, l.next, l.value)
  }

  /**
   * One addressed line, its address token at p: the instruction after it, which takes the
   * address (the token's hex digits without the trailing colon) as its offset and what
   * `GetInstructionSize` says as its size.
   */
  function AddressedLineAt(ext: Externals, ts: seq<Token>, p: nat): (r: Result<Got<Instruction>>)
    requires p + 1 < |ts|
    ensures r.Ok? ==> p + 1 < r.value.next < |ts| && Placed(r.value.value)
  {
    match InstructionAt(ext, ts, p + 1)
    case Err(e) => Err(e)
    case Ok(g) =>
      match Slice(ts[p].value, 0, 1)
      case Err(e) => Err(e)
      case Ok(digits) =>
        match ParseHexUInt32(digits)
        case Err(e) => Err(e)
        case Ok(offset) =>
          var ins := g.value.(offset := Some(offset));
          match Encoder.InstructionSize(ins)
          case Err(e) => Err(e)
          case Ok(size) =>
            Encoder.PlacementKeepsSize(ins, ins.offset, Some(size));
            Ok(Got(ins.(size := Some(size)), g.next))
  }

  /**
   * The `while(TryConsume(out addressToken, Address))` loop from position p, after earlier lines
   * gave acc: each line is an instruction read outside any block.
   */
  function AddressedFrom(ext: Externals, ts: seq<Token>, p: nat, acc: seq<Instruction>): (r: Result<Got<seq<Instruction>>>)
    requires p < |ts|
    ensures r.Ok? ==> p <= r.value.next < |ts|
    decreases |ts| - p
  {
    match TryConsumeAt(ts, p, [Address])
    case Err(e) => Err(e)
    case Ok(g) =>
      if !g.value then Ok(Got(acc, g.next))
      else match AddressedLineAt(ext, ts, p)
        case Err(e) => Err(e)
        case Ok(l) => AddressedFrom(ext, ts, l.next, acc + [l.value])
  }

  /** Whether `ParseScript` takes the instruction-list branch: the body starts with an index line. */
  predicate ListForm(ts: seq<Token>) {
    |ts| > 0 && ReadMarkAt(ts).Ok? && ts[ReadMarkAt(ts).value.next].kind == TokenType.Index
  }

  /** Whether `ParseScript` takes the control-flow-graph branch: the body starts with a function. */
  predicate GraphForm(ts: seq<Token>) {
    |ts| > 0 && ReadMarkAt(ts).Ok? && ts[ReadMarkAt(ts).value.next].kind == Func
  }

  /** What `ParseScript` builds from text in the instruction-list form. */
  datatype ListScript = ListScript(
    enableReadMark: bool,
    index: seq<FunctionEntry>,
    entryPointOffset: Option<UInt32>,
    instructions: seq<Instruction>)

  const EndOfFileAssert: string := "ct.Type == EndOfFile"

  /** The instruction-list branch of `ParseScript` from p: the index lines, the addressed lines, then the end of the file. */
  function ListBodyAt(ext: Externals, ts: seq<Token>, p: nat, enableReadMark: bool): (r: Result<ListScript>)
    requires p < |ts|
    ensures r.Ok? ==> r.value.enableReadMark == enableReadMark
  {
    match IndexFrom(ext, ts, p, Indexed([], None))
    case Err(e) => Err(e)
    case Ok(ix) =>
      match AddressedFrom(ext, ts, ix.next, [])
      case Err(e) => Err(e)
      case Ok(a) =>
        if ts[a.next].kind != EndOfFile then Err(AssertFailed(EndOfFileAssert))
        else Ok(ListScript(enableReadMark, ix.value.entries, ix.value.entryPoint, a.value))
  }

  /** `ParseScript` on text in the instruction-list form. */
  function ListScriptAt(ext: Externals, ts: seq<Token>): Result<ListScript>
    requires ListForm(ts)
  {
    ListBodyAt(ext, ts, ReadMarkAt(ts).value.next, ReadMarkAt(ts).value.value)
  }

  /** The script object holds what `ListScriptAt` read. */
  ghost predicate Holds(script: MjoScript, l: ListScript)
    reads script
  {
    script.representation == InstructionList && script.enableReadMark == l.enableReadMark &&
    script.functionIndex == Some(l.index) && script.entryPointOffset == l.entryPointOffset &&
    script.instructions == l.instructions && script.functions.None? && script.entryPointFunction.None? &&
    !script.instructionsNull
  }

  // ---------------------------------------------------------------------------------------
  // Properties of the instruction-list form

  /** One turn of the addressed loop, read off the function. */
  lemma AddressedStep(ext: Externals, ts: seq<Token>, p: nat, acc: seq<Instruction>, l: Got<Instruction>)
    requires p + 1 < |ts| && TryConsumeAt(ts, p, [Address]) == Ok(Got(true, p + 1)) && AddressedLineAt(ext, ts, p) == Ok(l)
    ensures AddressedFrom(ext, ts, p, acc) == AddressedFrom(ext, ts, l.next, acc + [l.value])
  {
  }

  /** The index loop only appends to what earlier lines gave, and an entry point once read stays. */
  lemma {:induction false} IndexKeeps(ext: Externals, ts: seq<Token>, p: nat, acc: Indexed)
    requires p < |ts| && IndexFrom(ext, ts, p, acc).Ok?
    ensures acc.entries <= IndexFrom(ext, ts, p, acc).value.value.entries
    ensures acc.entryPoint.Some? ==> IndexFrom(ext, ts, p, acc).value.value.entryPoint == acc.entryPoint
    decreases |ts| - p
  {
    var g := TryConsumeAt(ts, p, [TokenType.Index]).value;
    if g.value {
      var l := IndexLineAt(ext, ts, g.next, acc).value;
      IndexKeeps(ext, ts, l.next, l.value);
    }
  }

  /** Every instruction the addressed lines give carries its address as offset and its encoded size. */
  lemma {:induction false} AddressedPlaced(ext: Externals, ts: seq<Token>, p: nat, acc: seq<Instruction>)
    requires p < |ts| && AddressedFrom(ext, ts, p, acc).Ok?
    requires forall k | 0 <= k < |acc| :: Placed(acc[k])
    ensures acc <= AddressedFrom(ext, ts, p, acc).value.value
    ensures forall k | 0 <= k < |AddressedFrom(ext, ts, p, acc).value.value| :: Placed(AddressedFrom(ext, ts, p, acc).value.value[k])
    decreases |ts| - p
  {
    var g := TryConsumeAt(ts, p, [Address]).value;
    if g.value {
      var l := AddressedLineAt(ext, ts, p).value;
      AddressedPlaced(ext, ts, l.next, acc + [l.value]);
    }
  }

  /** An instruction of the instruction-list form: an offset, and a size that is the one its operands encode to. */
  predicate Placed(ins: Instruction) {
    ins.offset.Some? && ins.size.Some? && Encoder.InstructionSize(ins) == Ok(ins.size.value)
  }

  /** The head of a function: its name hash and parameter types. */
  datatype Signature = Signature(hash: bv32, types: seq<Flags.MjoType>)

  /** `Consume(Func)`, `ParseHash()`, `ParseTypeList("(", ")")`. */
  function SignatureAt(ext: Externals, ts: seq<Token>, p: nat): (r: Result<Got<Signature>>)
    requires p < |ts|
    ensures r.Ok? ==> p + 2 < r.value.next < |ts| && ts[p].kind == Func
  {
    match ConsumeAt(ts, p, [Func])
    case Err(e) => Err(e)
    case Ok(q) =>
      match HashAt(ext, ts, q)
      case Err(e) => Err(e)
      case Ok(h) =>
        match TypeListAt(ts, h.next, "(", ")")
        case Err(e) => Err(e)
        case Ok(t) => Ok(Got(Signature(h.value, t.value), t.next))
  }

  /** The function has the hash and parameter types a signature read gave. */
  predicate WithSignature(f: Function, s: Result<Got<Signature>>) {
    s.Ok? && f.nameHash == s.value.value.hash && f.parameterTypes == Some(s.value.value.types)
  }

  /**
   * What `ParseFunction` returns, read against the arena it filled and the signature it read:
   * a parsed function over that arena, with that signature, whose local types are those of the
   * one `alloca` among the instructions of its blocks, taken in block order.
   */
  predicate Built(f: Function, arena: seq<BasicBlock>, signature: Result<Got<Signature>>) {
    signature.Ok? && f.blocks.Some? && InArena(f.blocks.value, |arena|) && Targeted(arena) &&
    SingleAlloca(BlockInstructions(arena, f.blocks.value)).Ok? &&
    f == Function(signature.value.value.hash, -1, -1, None, None, arena, f.blocks, Some(signature.value.value.types),
                  Some(SingleAlloca(BlockInstructions(arena, f.blocks.value)).value.typeList))
  }

  /** A built function is a parsed one, with the signature it was read with. */
  lemma BuiltParsed(f: Function, arena: seq<BasicBlock>, signature: Result<Got<Signature>>)
    requires Built(f, arena, signature)
    ensures Parsed(f) && f.arena == arena && WithSignature(f, signature)
  {
  }

  /** An entry point once set stays, and a new one is the function about to be added at index n. */
  predicate EntryPointKept(before: Option<nat>, after: Option<nat>, n: nat) {
    (before.Some? ==> after == before) && (after != before ==> after == Some(n))
  }


  /**
   * What `ParseFunction` leaves in a function: no index range and no entry or exit blocks yet,
   * its blocks listed, each in the arena, whose instructions are placed in their own block and
   * jump only inside it, and both type lists set.
   */
  predicate Parsed(f: Function) {
    f.firstInstructionIndex == -1 && f.lastInstructionIndex == -1 &&
    f.entryBlock.None? && f.exitBlocks.None? &&
    f.blocks.Some? && InArena(f.blocks.value, |f.arena|) && Targeted(f.arena) &&
    f.parameterTypes.Some? && f.localTypes.Some?
  }

  /** The functions a script holds so far are all parsed, and its entry point is one of them. */
  ghost predicate Collected(script: MjoScript)
    reads script
  {
    script.functions.Some? &&
    (forall k | 0 <= k < |script.functions.value| :: Parsed(script.functions.value[k])) &&
    (script.entryPointFunction.Some? ==> script.entryPointFunction.value < |script.functions.value|)
  }

  /** A script in the control-flow-graph form, as `ParseScript` leaves it. */
  ghost predicate Functions(script: MjoScript)
    reads script
  {
    script.representation == ControlFlowGraph && Collected(script) &&
    script.functionIndex.None? && script.entryPointOffset.None? && script.instructions == [] &&
    !script.instructionsNull
  }

  /**
   * `function.Instructions.Single(IsAlloca)` as written: `Instructions` reads the script's
   * instruction list at the function's index range, which `ParseFunction` never sets.
   */
  function LocalTypesAsWritten(f: Function, script: seq<Instruction>): (r: Result<seq<Flags.MjoType>>)
    ensures r.Ok? ==> FunctionInstructions(f, script).Ok?
  {
    match FunctionInstructions(f, script)
    case Err(e) => Err(e)
    case Ok(instructions) =>
      match SingleAlloca(instructions)
      case Err(e) => Err(e)
      case Ok(alloca) => Ok(alloca.typeList)
  }

  /** So as written, reading the local types fails for every function `ParseFunction` builds. */
  lemma LocalTypesAsWrittenFail(f: Function, script: seq<Instruction>)
    requires f.firstInstructionIndex == -1 && f.lastInstructionIndex == -1
    ensures LocalTypesAsWritten(f, script).Err?
  {
  }

  // ---------------------------------------------------------------------------------------
  // The parser object: the enumerator with `lt` and `ct`, and the label dictionary

  class Parser {
    /** What `Tokenize` yields, in order. */
    const tokens: seq<Token>
    const ext: Externals
    /** The position of the current token `ct`. */
    var pos: nat
    /** `lt`, the token before the current one, which a parse failure reports. */
    var last: Token
    /** `blocks`: the block each label of the function being parsed names. */
    var labels: map<string, BlockId>
    /** The blocks those labels name. */
    var arena: seq<BasicBlock>

    /** The current token is one of the stream's. */
    ghost predicate Cursor()
      reads this`pos
    {
      Stream(tokens) && pos < |tokens|
    }

    /** The labels name the blocks of the arena, whose instructions jump only there. */
    ghost predicate Blocks()
      reads this`labels, this`arena
    {
      Labelled(labels, arena) && Targeted(arena)
    }

    ghost predicate Valid()
      reads this`pos, this`labels, this`arena
    {
      Cursor() && Blocks()
    }

    /** `Parse` opens the enumerator and advances to the first token, so `lt` is still the default token. */
    constructor(tokens: seq<Token>, ext: Externals)
      requires Stream(tokens)
      ensures Valid() && this.tokens == tokens && this.ext == ext
      ensures pos == 0 && last == DefaultToken && labels == map[] && arena == []
    {
      this.tokens := tokens;
      this.ext := ext;
      pos := 0;
      last := DefaultToken;
      labels := map[];
      arena := [];
    }

    /** `Advance`: `lt` takes the current token and the next one becomes current; past the end it throws. */
    method Advance() returns (r: Result<bool>)
      requires Cursor()
      modifies this`pos, this`last
      ensures Cursor()
      ensures r.Ok? <==> old(pos) + 1 < |tokens|
      ensures r.Err? ==> r == Err(Thrown(NoMoreTokens)) && pos == old(pos) && last == old(last)
      ensures r.Ok? ==> pos == old(pos) + 1 && last == tokens[old(pos)] && r.value == (tokens[pos].kind != EndOfFile)
    {
      if pos + 1 >= |tokens| {
        return Err(Thrown(NoMoreTokens));
      }
      last := tokens[pos];
      pos := pos + 1;
      r := Ok(tokens[pos].kind != EndOfFile);
    }

    /** `Consume(allowedTypes)`: the current token if its kind is allowed, which it then moves past. */
    method Consume(allowed: seq<TokenType>) returns (r: Result<Token>)
      requires Cursor()
      modifies this`pos, this`last
      ensures Cursor()
      ensures r.Ok? <==> ConsumeAt(tokens, old(pos), allowed).Ok?
      ensures r.Ok? ==> r.value == tokens[old(pos)] && pos == old(pos) + 1 && last == tokens[old(pos)]
      ensures r.Err? ==> r.error == ConsumeAt(tokens, old(pos), allowed).error
    {
      var token := tokens[pos];
      if !Allows(allowed, token.kind) {
        return Err(Thrown(UnexpectedToken));
      }
      var more := Advance();
      if more.Err? {
        return Err(more.error);
      }
      r := Ok(token);
    }

    /** `TryConsume(out token, allowedTypes)`: no when the kind is not allowed, else what `Advance` says. */
    method TryConsume(allowed: seq<TokenType>) returns (token: Token, r: Result<bool>)
      requires Cursor()
      modifies this`pos, this`last
      ensures Cursor() && token == tokens[old(pos)]
      ensures !Allows(allowed, token.kind) ==> r == Ok(false) && pos == old(pos)
      ensures Allows(allowed, token.kind) ==> (r.Ok? <==> old(pos) + 1 < |tokens|)
      ensures Allows(allowed, token.kind) && r.Ok? ==>
        pos == old(pos) + 1 && last == token && r.value == (tokens[pos].kind != EndOfFile)
      ensures r.Err? ==> r == Err(Thrown(NoMoreTokens))
      ensures token.kind != EndOfFile ==> r.Ok?
    {
      token := tokens[pos];
      if !Allows(allowed, token.kind) {
        return token, Ok(false);
      }
      r := Advance();
    }

    /** `ConsumePunctuation(allowedText)`. */
    method ConsumePunctuation(allowedText: seq<string>) returns (r: Result<Token>)
      requires Cursor()
      modifies this`pos, this`last
      ensures Cursor()
      ensures r.Ok? <==> PunctuationAt(tokens, old(pos), allowedText).Ok?
      ensures r.Ok? ==> r.value == tokens[old(pos)] && pos == old(pos) + 1
      ensures r.Err? ==> r.error == PunctuationAt(tokens, old(pos), allowedText).error
    {
      r := Consume([Punctuation]);
      if r.Ok? && !AllowsText(allowedText, r.value.value) {
        return Err(Thrown(UnexpectedToken));
      }
    }

    /**
     * `TryConsumePunctuation(out _, allowedText)`. The token it may consume is punctuation, so
     * never the end of the file, and `Advance` cannot run out there.
     */
    method TryConsumePunctuation(allowedText: seq<string>) returns (more: bool)
      requires Cursor()
      modifies this`pos, this`last
      ensures Cursor() && TryPunctuationAt(tokens, old(pos), allowedText) == Ok(Got(more, pos))
    {
      var token, consumed := TryConsume([Punctuation]);
      more := consumed.value && AllowsText(allowedText, token.value);
    }

    /** `GetBlock`: the block of that label, made and recorded the first time the label is met. */
    method GetBlock(name: string) returns (id: BlockId)
      requires Blocks()
      modifies this`labels, this`arena
      ensures Blocks() && Extends(old(arena), arena)
      ensures id < |arena| && arena[id].name == name && name in labels && labels[name] == id
      ensures name in old(labels) ==> id == old(labels)[name] && labels == old(labels) && arena == old(arena)
      ensures name !in old(labels) ==>
        id == |old(arena)| && arena == old(arena) + [NewBlock(name)] && labels == old(labels)[name := id]
    {
      if name in labels {
        return labels[name];
      }
      id := |arena|;
      LabelledAdd(labels, arena, name);
      arena := arena + [NewBlock(name)];
      labels := labels[name := id];
    }

    /** `GetBlock` for each name in turn (a 'c' operand inside a block). */
    method GetBlocks(names: seq<string>) returns (ids: seq<BlockId>)
      requires Blocks()
      modifies this`labels, this`arena
      ensures Blocks() && Extends(old(arena), arena) && |ids| == |names|
      ensures forall k | 0 <= k < |ids| :: ids[k] < |arena| && names[k] in labels && labels[names[k]] == ids[k]
    {
      ids := [];
      var i := 0;
      while i < |names|
        invariant Blocks() && Extends(old(arena), arena) && 0 <= i <= |names| && |ids| == i
        invariant forall k | 0 <= k < i :: ids[k] < |arena| && names[k] in labels && labels[names[k]] == ids[k]
      {
        ghost var before := arena;
        var id := GetBlock(names[i]);
        assert arena[..|before|] == before;
        ids := ids + [id];
        i := i + 1;
      }
    }

    // The keyword lookups, each after consuming a token of its kind

    method ParseType() returns (r: Result<Flags.MjoType>)
      requires Cursor()
      modifies this`pos, this`last
      ensures Cursor()
      ensures ReadTo(r, TypeAt(tokens, old(pos)), pos)
    {
      var t := Consume([VarType]);
      if t.Err? {
        return Err(t.error);
      }
      r := TypeNamed(Lower(t.value.value));
    }

    method ParseScope() returns (r: Result<Flags.MjoScope>)
      requires Cursor()
      modifies this`pos, this`last
      ensures Cursor() && (r.Ok? ==> pos == old(pos) + 1)
      ensures tokens[old(pos)].kind != TokenType.Scope ==> r == Err(Thrown(UnexpectedToken))
      ensures tokens[old(pos)].kind == TokenType.Scope ==> r == ScopeNamed(Lower(tokens[old(pos)].value))
    {
      var t := Consume([TokenType.Scope]);
      if t.Err? {
        return Err(t.error);
      }
      r := ScopeNamed(Lower(t.value.value));
    }

    method ParseModifier() returns (r: Result<Flags.MjoModifier>)
      requires Cursor()
      modifies this`pos, this`last
      ensures Cursor() && (r.Ok? ==> pos == old(pos) + 1)
      ensures tokens[old(pos)].kind != TokenType.Modifier ==> r == Err(Thrown(UnexpectedToken))
      ensures tokens[old(pos)].kind == TokenType.Modifier ==> r == ModifierNamed(Lower(tokens[old(pos)].value))
    {
      var t := Consume([TokenType.Modifier]);
      if t.Err? {
        return Err(t.error);
      }
      r := ModifierNamed(Lower(t.value.value));
    }

    method ParseInvertMode() returns (r: Result<Flags.MjoInvertMode>)
      requires Cursor()
      modifies this`pos, this`last
      ensures Cursor() && (r.Ok? ==> pos == old(pos) + 1)
      ensures tokens[old(pos)].kind != TokenType.InvertMode ==> r == Err(Thrown(UnexpectedToken))
      ensures tokens[old(pos)].kind == TokenType.InvertMode ==> r == InvertModeNamed(Lower(tokens[old(pos)].value))
    {
      var t := Consume([TokenType.InvertMode]);
      if t.Err? {
        return Err(t.error);
      }
      r := InvertModeNamed(Lower(t.value.value));
    }

    method ParseDimension() returns (r: Result<int>)
      requires Cursor()
      modifies this`pos, this`last
      ensures Cursor() && (r.Ok? ==> pos == old(pos) + 1)
      ensures tokens[old(pos)].kind != TokenType.Dimension ==> r == Err(Thrown(UnexpectedToken))
      ensures tokens[old(pos)].kind == TokenType.Dimension ==> r == DimensionNamed(Lower(tokens[old(pos)].value))
    {
      var t := Consume([TokenType.Dimension]);
      if t.Err? {
        return Err(t.error);
      }
      r := DimensionNamed(Lower(t.value.value));
    }

    /** The lookup of the current flag keyword, by its kind. */
    method ParseKeyword() returns (r: Result<int>)
      requires Cursor() && IsFlagKind(tokens[pos].kind)
      modifies this`pos, this`last
      ensures Cursor()
      ensures r == KeywordValue(tokens[old(pos)]) && (r.Ok? ==> pos == old(pos) + 1)
    {
      var k := tokens[pos].kind;
      if k == VarType {
        var v := ParseType();
        r := Widen(v);
      } else if k == TokenType.Scope {
        var v := ParseScope();
        r := Widen(v);
      } else if k == TokenType.Modifier {
        var v := ParseModifier();
        r := Widen(v);
      } else if k == TokenType.InvertMode {
        var v := ParseInvertMode();
        r := Widen(v);
      } else {
        r := ParseDimension();
      }
    }

    /**
     * `ParseFlags`: the run of flag keywords at the cursor, each kind at most once, packed by
     * `FlagHelpers.Build`.
     */
    method ParseFlags() returns (r: Result<Flags.MjoFlags>)
      requires Cursor()
      modifies this`pos, this`last
      ensures Cursor()
      ensures r == FlagsAt(tokens, old(pos))
      ensures r.Ok? ==> pos == FlagRunEnd(tokens, old(pos))
    {
      ghost var start := pos;
      ghost var end := FlagRunEnd(tokens, pos);
      var f := NoFields;
      var seen: set<TokenType> := {};
      FlagLoopStart(tokens, pos);
      while IsFlagKind(tokens[pos].kind)
        invariant Cursor() && FlagLoop(tokens, start, pos, end, f, seen)
        decreases end - pos
      {
        FlagLoopStep(tokens, start, pos, end, f, seen);
        var k := tokens[pos].kind;
        if k in seen {
          return Err(AssertFailed(FlagGivenTwice));
        }
        var v := ParseKeyword();
        if v.Err? {
          return Err(v.error);
        }
        f := SetField(f, k, v.value);
        seen := seen + {k};
      }
      FlagLoopEnd(tokens, start, pos, end, f, seen);
      r := Ok(BuildFields(f));
    }

    /** `ParseIntLiteral`. */
    method ParseIntLiteral() returns (r: Result<int>)
      requires Cursor()
      modifies this`pos, this`last
      ensures Cursor()
      ensures r == Value(IntLiteralAt(tokens, old(pos))) && (r.Ok? ==> pos == old(pos) + 1)
    {
      var t := Consume([IntLiteral, HexLiteral, Hash]);
      if t.Err? {
        return Err(t.error);
      }
      r := IntLiteralValue(t.value);
    }

    /** `ParseHash`, hashing a name with the CRC-32 loop. */
    method ParseHash() returns (r: Result<bv32>)
      requires Cursor()
      modifies this`pos, this`last
      ensures Cursor()
      ensures r == Value(HashAt(ext, tokens, old(pos))) && (r.Ok? ==> pos == old(pos) + 1)
    {
      var t := Consume([Hash]);
      if t.Err? {
        return Err(t.error);
      }
      var sliced := Slice(t.value.value, 1, 0);
      if sliced.Err? {
        return Err(sliced.error);
      }
      var name := sliced.value;
      var parsed := TryParseHex(name);
      if parsed.Some? {
        return Ok(parsed.value as bv32);
      }
      r := HashName(name);
    }

    /** The name half of `ParseHash`, with the CRC-32 loop. */
    method HashName(name: string) returns (r: Result<bv32>)
      ensures r == NameHash(ext, name)
    {
      if '@' !in name {
        if !ext.knownSyscall(name) {
          return Err(AssertFailed("Data.KnownSyscallNames.Contains(name)"));
        }
        var h := Crc.Hash32(ext.encode("$" + name + ext.syscallSuffix), 0);
        return Ok(h);
      }
      if !(|name| > 0 && name[0] == '$') {
        return Err(AssertFailed("name.StartsWith('$')"));
      }
      var h := Crc.Hash32(ext.encode(name), 0);
      if !ext.knownFunction(h) {
        return Err(AssertFailed("Data.KnownFunctionNamesByHash.ContainsKey(hash)"));
      }
      r := Ok(h);
    }

    /** `ParseTypeList(start, end)`. */
    method ParseTypeList(open: string, close: string) returns (r: Result<seq<Flags.MjoType>>)
      requires Cursor()
      modifies this`pos, this`last
      ensures Cursor() && ReadTo(r, TypeListAt(tokens, old(pos), open, close), pos)
    {
      var o := ConsumePunctuation([open]);
      if o.Err? {
        return Err(o.error);
      }
      if tokens[pos].value != close {
        r := ParseTypeItems(close);
        return;
      }
      var c := ConsumePunctuation([close]);
      if c.Err? {
        return Err(c.error);
      }
      r := Ok([]);
    }

    /** The do-while loop of `ParseTypeList`. */
    method ParseTypeItems(close: string) returns (r: Result<seq<Flags.MjoType>>)
      requires Cursor()
      modifies this`pos, this`last
      ensures Cursor() && ReadTo(r, TypeItemsAt(tokens, old(pos), close), pos)
    {
      ghost var q := pos;
      var types: seq<Flags.MjoType> := [];
      PrependNothing(TypeItemsAt(tokens, q, close));
      while true
        invariant Cursor() && q <= pos
        invariant TypeItemsAt(tokens, q, close) == Prepend(types, TypeItemsAt(tokens, pos, close))
        decreases |tokens| - pos
      {
        ghost var here := pos;
        var t := ParseType();
        if t.Err? {
          return Err(t.error);
        }
        var tok := ConsumePunctuation([",", close]);
        if tok.Err? {
          return Err(tok.error);
        }
        TypeItemsStep(tokens, here, close);
        if tok.value.value != "," {
          return Ok(types + [t.value]);
        }
        PrependTwice(types, [t.value], TypeItemsAt(tokens, pos, close));
        types := types + [t.value];
      }
    }

    /** The do-while loops of the 'c' and 'p' operands: labels separated by commas, each read by item. */
    method ParseLabels<T>(item: string -> Result<T>) returns (r: Result<seq<T>>)
      requires Cursor()
      modifies this`pos, this`last
      ensures Cursor()
      ensures r == Value(LabelsAt(tokens, old(pos), item))
      ensures r.Ok? ==> pos == LabelsAt(tokens, old(pos), item).value.next
    {
      ghost var q := pos;
      var xs: seq<T> := [];
      PrependNothing(LabelsAt(tokens, q, item));
      while true
        invariant Cursor() && q <= pos
        invariant LabelsAt(tokens, q, item) == Prepend(xs, LabelsAt(tokens, pos, item))
        decreases |tokens| - pos
      {
        var l := Consume([TokenType.Label]);
        if l.Err? {
          return Err(l.error);
        }
        var x := item(l.value.value);
        if x.Err? {
          return Err(x.error);
        }
        var more := TryConsumePunctuation([","]);
        PrependTwice(xs, [x.value], LabelsAt(tokens, pos, item));
        xs := xs + [x.value];
        if !more {
          return Ok(xs);
        }
      }
    }

    /** The 's' operand. */
    method ParseStringOperand(ins: Instruction) returns (r: Result<Instruction>)
      requires Cursor()
      modifies this`pos, this`last
      ensures Cursor() && ReadTo(r, StringOperandAt(ext, tokens, old(pos), ins), pos)
    {
      if tokens[pos].value == "%" {
        var percent := ConsumePunctuation(["%"]);
        if percent.Err? {
          return Err(percent.error);
        }
        var open := ConsumePunctuation(["{"]);
        if open.Err? {
          return Err(open.error);
        }
        var key := Consume([Name]);
        if key.Err? {
          return Err(key.error);
        }
        var close := ConsumePunctuation(["}"]);
        if close.Err? {
          return Err(close.error);
        }
        return Ok(ins.(externalKey := Some(key.value.value)));
      }
      var t := Consume([StringLiteral]);
      if t.Err? {
        return Err(t.error);
      }
      var bytes := StringOf(ext, t.value.value);
      if bytes.Err? {
        return Err(bytes.error);
      }
      r := Ok(ins.(str := Some(bytes.value)));
    }

    /** The 'o' operand. */
    method ParseVarOffset(ins: Instruction) returns (r: Result<Instruction>)
      requires Cursor()
      modifies this`pos, this`last
      ensures Cursor() && ReadTo(r, VarOffsetAt(tokens, old(pos), ins), pos)
    {
      if Flags.Scope(ins.flags) != Flags.Local && tokens[pos].kind != IntLiteral {
        return Ok(ins.(varOffset := -1));
      }
      var t := Consume([IntLiteral]);
      if t.Err? {
        return Err(t.error);
      }
      var v := ParseInt16(t.value.value);
      if v.Err? {
        return Err(v.error);
      }
      r := Ok(ins.(varOffset := v.value));
    }

    /** The 'a' operand. */
    method ParseArgumentCount(ins: Instruction) returns (r: Result<Instruction>)
      requires Cursor()
      modifies this`pos, this`last
      ensures Cursor() && ReadTo(r, ArgumentCountAt(tokens, old(pos), ins), pos)
    {
      var open := ConsumePunctuation(["("]);
      if open.Err? {
        return Err(open.error);
      }
      var t := Consume([IntLiteral]);
      if t.Err? {
        return Err(t.error);
      }
      var n := ParseUInt16(t.value.value);
      if n.Err? {
        return Err(n.error);
      }
      var close := ConsumePunctuation([")"]);
      if close.Err? {
        return Err(close.error);
      }
      r := Ok(ins.(argumentCount := n.value));
    }

    /** The 't' operand. */
    method ParseTypesOperand(ins: Instruction) returns (r: Result<Instruction>)
      requires Cursor()
      modifies this`pos, this`last
      ensures Cursor() && ReadTo(r, TypesOperandAt(tokens, old(pos), ins), pos)
    {
      var types := ParseTypeList("[", "]");
      if types.Err? {
        return Err(types.error);
      }
      r := Ok(ins.(typeList := types.value));
    }

    /** The 'f' operand. */
    method ParseFlagsOperand(ins: Instruction) returns (r: Result<Instruction>)
      requires Cursor()
      modifies this`pos, this`last
      ensures Cursor() && ReadTo(r, FlagsOperandAt(tokens, old(pos), ins), pos)
    {
      var f := ParseFlags();
      if f.Err? {
        return Err(f.error);
      }
      r := Ok(ins.(flags := f.value));
    }

    /** The 'h' operand. */
    method ParseHashOperand(ins: Instruction) returns (r: Result<Instruction>)
      requires Cursor()
      modifies this`pos, this`last
      ensures Cursor() && ReadTo(r, HashOperandAt(ext, tokens, old(pos), ins), pos)
    {
      var h := ParseHash();
      if h.Err? {
        return Err(h.error);
      }
      r := Ok(ins.(hash := h.value));
    }

    /** The 'i' operand. */
    method ParseIntOperand(ins: Instruction) returns (r: Result<Instruction>)
      requires Cursor()
      modifies this`pos, this`last
      ensures Cursor() && ReadTo(r, IntOperandAt(tokens, old(pos), ins), pos)
    {
      var v := ParseIntLiteral();
      if v.Err? {
        return Err(v.error);
      }
      r := Ok(ins.(intValue := v.value));
    }

    /** The 'r' operand. */
    method ParseFloatOperand(ins: Instruction) returns (r: Result<Instruction>)
      requires Cursor()
      modifies this`pos, this`last
      ensures Cursor() && ReadTo(r, FloatOperandAt(ext, tokens, old(pos), ins), pos)
    {
      var t := Consume([IntLiteral, FloatLiteral]);
      if t.Err? {
        return Err(t.error);
      }
      var v := FloatOf(ext, t.value.value);
      if v.Err? {
        return Err(v.error);
      }
      r := Ok(ins.(floatValue := v.value));
    }

    /** The 'l' operand. */
    method ParseLineOperand(ins: Instruction) returns (r: Result<Instruction>)
      requires Cursor()
      modifies this`pos, this`last
      ensures Cursor() && ReadTo(r, LineOperandAt(tokens, old(pos), ins), pos)
    {
      var t := Consume([LineNo]);
      if t.Err? {
        return Err(t.error);
      }
      var n := LineNumberOf(t.value.value);
      if n.Err? {
        return Err(n.error);
      }
      r := Ok(ins.(lineNumber := n.value));
    }

    /** The 'p' operand. */
    method ParsePhiOperand(ins: Instruction) returns (r: Result<Instruction>)
      requires Cursor()
      modifies this`pos, this`last
      ensures Cursor() && ReadTo(r, PhiOperandAt(tokens, old(pos), ins), pos)
    {
      var xs := ParseLabels(AnyLabel);
      if xs.Err? {
        return Err(xs.error);
      }
      r := Ok(ins);
    }

    /** The 'j' operand outside a block. */
    method ParseJumpOffset(ins: Instruction) returns (r: Result<Instruction>)
      requires Cursor()
      modifies this`pos, this`last
      ensures Cursor() && ReadTo(r, JumpOperandAt(tokens, old(pos), ins), pos)
    {
      var t := Consume([TokenType.Label]);
      if t.Err? {
        return Err(t.error);
      }
      var offset := JumpLabel(t.value.value);
      if offset.Err? {
        return Err(offset.error);
      }
      if !(-0x8000_0000 <= offset.value < 0x8000_0000) {
        return Err(Thrown(BadNumber));
      }
      r := Ok(ins.(jumpOffset := Some(offset.value)));
    }

    /** The 'c' operand outside a block. */
    method ParseSwitchOffsets(ins: Instruction) returns (r: Result<Instruction>)
      requires Cursor()
      modifies this`pos, this`last
      ensures Cursor() && ReadTo(r, SwitchOperandAt(tokens, old(pos), ins), pos)
    {
      var offsets := ParseLabels(JumpLabel);
      if offsets.Err? {
        return Err(offsets.error);
      }
      if !AllInt32(offsets.value) {
        return Err(Thrown(BadNumber));
      }
      r := Ok(ins.(switchOffsets := Some(offsets.value)));
    }

    /** One operand letter outside a block, or any letter but 'j' and 'c' inside one. */
    method ParseUnplacedOperand(c: char, ins: Instruction) returns (r: Result<Instruction>)
      requires Cursor()
      modifies this`pos, this`last
      ensures Cursor() && ReadTo(r, OperandAt(ext, tokens, old(pos), c, ins), pos)
    {
      if c == 't' {
        r := ParseTypesOperand(ins);
      } else if c == 's' {
        r := ParseStringOperand(ins);
      } else if c == 'f' {
        r := ParseFlagsOperand(ins);
      } else if c == 'h' {
        r := ParseHashOperand(ins);
      } else if c == 'o' {
        r := ParseVarOffset(ins);
      } else if c == 'i' {
        r := ParseIntOperand(ins);
      } else if c == 'r' {
        r := ParseFloatOperand(ins);
      } else if c == 'a' {
        r := ParseArgumentCount(ins);
      } else if c == 'j' {
        r := ParseJumpOffset(ins);
      } else if c == 'l' {
        r := ParseLineOperand(ins);
      } else if c == 'c' {
        r := ParseSwitchOffsets(ins);
      } else if c == 'p' {
        r := ParsePhiOperand(ins);
      } else {
        r := Ok(ins);
      }
    }

    /** The 'j' operand inside a block: a jump to the block of that label. */
    method ParseJumpTarget(ins: Instruction) returns (r: Result<Instruction>)
      requires Cursor() && Blocks()
      modifies this`pos, this`last, this`labels, this`arena
      ensures Cursor() && Blocks() && Extends(old(arena), arena)
      ensures JumpedTo(r, ins, BlockNameAt(tokens, old(pos)), pos, labels)
      ensures r.Ok? ==> r.value.jumpTarget.value < |arena|
    {
      var t := Consume([TokenType.Label]);
      if t.Err? {
        return Err(t.error);
      }
      var name := BlockLabel(t.value.value);
      if name.Err? {
        return Err(name.error);
      }
      var id := GetBlock(name.value);
      r := Ok(ins.(jumpTarget := Some(id)));
    }

    /** The 'c' operand inside a block: jumps to the blocks of those labels. */
    method ParseSwitchTargets(ins: Instruction) returns (r: Result<Instruction>)
      requires Cursor() && Blocks()
      modifies this`pos, this`last, this`labels, this`arena
      ensures Cursor() && Blocks() && Extends(old(arena), arena)
      ensures SwitchedTo(r, ins, LabelsAt(tokens, old(pos), BlockLabel), pos, labels)
      ensures r.Ok? ==> forall j | 0 <= j < |r.value.switchTargets.value| :: r.value.switchTargets.value[j] < |arena|
    {
      var names := ParseLabels(BlockLabel);
      if names.Err? {
        return Err(names.error);
      }
      var ids := GetBlocks(names.value);
      r := Ok(ins.(switchTargets := Some(ids)));
    }

    /** One operand of `ParseInstruction(block)` inside a block: 'j' and 'c' name blocks there. */
    method ParseBlockOperand(c: char, ins: Instruction) returns (r: Result<Instruction>)
      requires Valid()
      modifies this`pos, this`last, this`labels, this`arena
      ensures Valid() && Extends(old(arena), arena)
      ensures r.Ok? ==> old(pos) <= pos && OperandFields(c, ins, r.value)
      ensures r.Ok? && TargetsWithin(ins, |old(arena)|) ==> TargetsWithin(r.value, |arena|)
      ensures c != 'j' && c != 'c' ==> ReadTo(r, OperandAt(ext, tokens, old(pos), c, ins), pos)
      ensures c != 'j' && c != 'c' ==> labels == old(labels) && arena == old(arena)
    {
      if c == 'j' {
        r := ParseJumpTarget(ins);
      } else if c == 'c' {
        r := ParseSwitchTargets(ins);
      } else {
        r := ParseUnplacedOperand(c, ins);
      }
    }

    /** The `foreach` over the encoding letters of `ParseInstruction(null)`. */
    method ParseUnplacedOperands(enc: string, base: Instruction) returns (r: Result<Instruction>)
      requires Cursor()
      modifies this`pos, this`last
      ensures Cursor() && ReadTo(r, OperandsAt(ext, tokens, old(pos), enc, base), pos)
    {
      var ins := base;
      var i := 0;
      while i < |enc|
        invariant 0 <= i <= |enc| && Cursor()
        invariant OperandsAt(ext, tokens, old(pos), enc, base) == OperandsAt(ext, tokens, pos, enc[i..], ins)
      {
        OperandsStep(ext, tokens, pos, enc, i, ins);
        var next := ParseUnplacedOperand(enc[i], ins);
        if next.Err? {
          return Err(next.error);
        }
        ins := next.value;
        i := i + 1;
      }
      assert enc[i..] == [];
      r := Ok(ins);
    }

    /** The `foreach` over the encoding letters of `ParseInstruction(block)` inside a block. */
    method ParseBlockOperands(enc: string, base: Instruction) returns (r: Result<Instruction>)
      requires Valid() && TargetsWithin(base, |arena|)
      modifies this`pos, this`last, this`labels, this`arena
      ensures Valid() && Extends(old(arena), arena)
      ensures r.Ok? ==> old(pos) <= pos && r.value.opcode == base.opcode && r.value.block == base.block
      ensures r.Ok? ==> TargetsWithin(r.value, |arena|)
    {
      var ins := base;
      var i := 0;
      while i < |enc|
        invariant 0 <= i <= |enc| && Valid() && Extends(old(arena), arena) && old(pos) <= pos
        invariant ins.opcode == base.opcode && ins.block == base.block && TargetsWithin(ins, |arena|)
      {
        var next := ParseBlockOperand(enc[i], ins);
        if next.Err? {
          return Err(next.error);
        }
        ins := next.value;
        i := i + 1;
      }
      r := Ok(ins);
    }

    /**
     * `ParseInstruction(null)`, outside any block: a mnemonic, then one operand per letter of
     * its encoding, as `InstructionAt` reads them.
     */
    method ParseInstructionOutside() returns (r: Result<Instruction>)
      requires Cursor()
      modifies this`pos, this`last
      ensures Cursor() && ReadTo(r, InstructionAt(ext, tokens, old(pos)), pos)
    {
      var t := Consume([Name]);
      if t.Err? {
        return Err(t.error);
      }
      var op := OpcodeNamed(ext, t.value.value);
      if op.Err? {
        return Err(op.error);
      }
      OperandsKeep(ext, tokens, pos, op.value.encoding, Blank(op.value, None));
      r := ParseUnplacedOperands(op.value.encoding, Blank(op.value, None));
    }

    /**
     * `ParseInstruction(block)` inside a block: a mnemonic, then one operand per letter of its
     * encoding, into an instruction of that block whose labels name blocks of the arena.
     */
    method ParseInstructionIn(block: BlockId) returns (r: Result<Instruction>)
      requires Valid() && block < |arena|
      modifies this`pos, this`last, this`labels, this`arena
      ensures Valid() && Extends(old(arena), arena)
      ensures r.Ok? ==> old(pos) < pos && tokens[old(pos)].kind == Name && OpcodeNamed(ext, tokens[old(pos)].value).Ok?
      ensures r.Ok? ==> r.value.opcode == OpcodeNamed(ext, tokens[old(pos)].value).value
      ensures r.Ok? ==> r.value.block == Some(block) && TargetsWithin(r.value, |arena|)
    {
      var t := Consume([Name]);
      if t.Err? {
        return Err(t.error);
      }
      var op := OpcodeNamed(ext, t.value.value);
      if op.Err? {
        return Err(op.error);
      }
      r := ParseBlockOperands(op.value.encoding, Blank(op.value, Some(block)));
    }

    /**
     * `ParseBlock(function)`: a label definition, then instructions of that block up to the next
     * label or the closing brace. A label met again continues its block.
     */
    method ParseBlock() returns (r: Result<BlockId>)
      requires Valid()
      modifies this`pos, this`last, this`labels, this`arena
      ensures Valid()
      ensures r.Ok? ==> old(pos) < pos && r.value < |arena| && tokens[old(pos)].kind == TokenType.Label
      ensures r.Ok? ==> Slice(tokens[old(pos)].value, 0, 1) == Ok(arena[r.value].name)
      ensures |old(arena)| <= |arena|
      ensures r.Ok? ==> tokens[pos].kind == TokenType.Label || tokens[pos].value == "}"
    {
      var header := Consume([TokenType.Label]);
      if header.Err? {
        return Err(header.error);
      }
      var name := Slice(header.value.value, 0, 1);
      if name.Err? {
        return Err(name.error);
      }
      var id := GetBlock(name.value);
      while tokens[pos].kind != TokenType.Label && tokens[pos].value != "}"
        invariant Valid() && old(pos) < pos && id < |arena| && arena[id].name == name.value
        invariant |old(arena)| <= |arena|
        decreases |tokens| - pos
      {
        var ins := ParseInstructionIn(id);
        if ins.Err? {
          return Err(ins.error);
        }
        assert arena[id].name == name.value;
        AddInstruction(id, ins.value);
      }
      r := Ok(id);
    }

    /** `block.Instructions.Add(instruction)`. */
    method AddInstruction(id: BlockId, ins: Instruction)
      requires Blocks() && id < |arena| && ins.block == Some(id) && TargetsWithin(ins, |arena|)
      modifies this`arena
      ensures Blocks() && arena == old(arena)[id := old(arena)[id].(instructions := old(arena)[id].instructions + [ins])]
    {
      var b := arena[id].(instructions := arena[id].instructions + [ins]);
      LabelledRefill(labels, arena, id, b);
      TargetedAppend(arena, id, ins);
      arena := arena[id := b];
    }

    /** `TryConsume(out _, allowedTypes)`, as `TryConsumeAt` reads it. */
    method TryConsumeKind(kind: TokenType) returns (token: Token, r: Result<bool>)
      requires Cursor()
      modifies this`pos, this`last
      ensures Cursor() && token == tokens[old(pos)] && ReadTo(r, TryConsumeAt(tokens, old(pos), [kind]), pos)
    {
      token, r := TryConsume([kind]);
    }

    /** The start of `ParseScript`: the read mark flag, true unless the text says `readmark disable`. */
    method ParseReadMark() returns (r: Result<bool>)
      requires Cursor() && pos == 0
      modifies this`pos, this`last
      ensures Cursor() && ReadTo(r, ReadMarkAt(tokens), pos)
    {
      var token, marked := TryConsumeKind(ReadMark);
      if marked.Err? {
        return Err(marked.error);
      }
      if !marked.value {
        return Ok(true);
      }
      var t := Consume([Enable, Disable]);
      if t.Err? {
        return Err(t.error);
      }
      r := Ok(t.value.kind == Enable);
    }

    /** The body of the index loop of `ParseScript`: one line after its keyword. */
    method ParseIndexLine(acc: Indexed) returns (r: Result<Indexed>)
      requires Cursor()
      modifies this`pos, this`last
      ensures Cursor() && ReadTo(r, IndexLineAt(ext, tokens, old(pos), acc), pos)
    {
      var hash := ParseHash();
      if hash.Err? {
        return Err(hash.error);
      }
      IndexLineHashed(ext, tokens, old(pos), acc, hash.value);
      r := ParseIndexOffset(acc, hash.value);
    }

    /** An index line after its hash. */
    method ParseIndexOffset(acc: Indexed, hash: bv32) returns (r: Result<Indexed>)
      requires Cursor()
      modifies this`pos, this`last
      ensures Cursor() && ReadTo(r, IndexOffsetAt(tokens, old(pos), acc, hash), pos)
    {
      var n := ParseIntLiteral();
      if n.Err? {
        return Err(n.error);
      }
      IndexOffsetRead(tokens, old(pos), acc, hash, n.value);
      r := ParseIndexEntry(acc, FunctionEntry(hash, n.value % 0x1_0000_0000));
    }

    /** The end of an index line, after its hash and offset. */
    method ParseIndexEntry(acc: Indexed, entry: FunctionEntry) returns (r: Result<Indexed>)
      requires Cursor()
      modifies this`pos, this`last
      ensures Cursor() && ReadTo(r, IndexEntryAt(tokens, old(pos), acc, entry), pos)
    {
      var mark, marked := TryConsumeKind(EntryPoint);
      if marked.Err? {
        return Err(marked.error);
      }
      if marked.value && acc.entryPoint.Some? {
        return Err(AssertFailed(MultipleEntryPoints));
      }
      var point := if marked.value then Some(entry.offset) else acc.entryPoint;
      r := Ok(Indexed(acc.entries + [entry], point));
    }

    /** The index loop of `ParseScript`. */
    method ParseIndex() returns (r: Result<Indexed>)
      requires Cursor()
      modifies this`pos, this`last
      ensures Cursor() && ReadTo(r, IndexFrom(ext, tokens, old(pos), Indexed([], None)), pos)
    {
      var acc := Indexed([], None);
      while true
        invariant Cursor()
        invariant IndexFrom(ext, tokens, old(pos), Indexed([], None)) == IndexFrom(ext, tokens, pos, acc)
        decreases |tokens| - pos
      {
        var token, more := TryConsumeKind(TokenType.Index);
        if more.Err? {
          return Err(more.error);
        }
        if !more.value {
          return Ok(acc);
        }
        var line := ParseIndexLine(acc);
        if line.Err? {
          return Err(line.error);
        }
        acc := line.value;
      }
    }

    /** The body of the addressed-instruction loop of `ParseScript`, after its address token. */
    method ParseAddressedLine(address: Token) returns (r: Result<Instruction>)
      requires Cursor() && 0 < pos && tokens[pos - 1] == address
      modifies this`pos, this`last
      ensures Cursor() && ReadTo(r, AddressedLineAt(ext, tokens, old(pos) - 1), pos)
    {
      var ins := ParseInstructionOutside();
      if ins.Err? {
        return Err(ins.error);
      }
      var digits := Slice(address.value, 0, 1);
      if digits.Err? {
        return Err(digits.error);
      }
      var offset := ParseHexUInt32(digits.value);
      if offset.Err? {
        return Err(offset.error);
      }
      var placed := ins.value.(offset := Some(offset.value));
      var size := Encoder.GetInstructionSize(placed);
      if size.Err? {
        return Err(size.error);
      }
      r := Ok(placed.(size := Some(size.value)));
    }

    /** The addressed-instruction loop of `ParseScript`. */
    method ParseAddressed() returns (r: Result<seq<Instruction>>)
      requires Cursor()
      modifies this`pos, this`last
      ensures Cursor() && ReadTo(r, AddressedFrom(ext, tokens, old(pos), []), pos)
    {
      var instructions: seq<Instruction> := [];
      while true
        invariant Cursor()
        invariant AddressedFrom(ext, tokens, old(pos), []) == AddressedFrom(ext, tokens, pos, instructions)
        decreases |tokens| - pos
      {
        ghost var here := pos;
        var address, more := TryConsumeKind(Address);
        if more.Err? {
          return Err(more.error);
        }
        if !more.value {
          return Ok(instructions);
        }
        var ins := ParseAddressedLine(address);
        if ins.Err? {
          return Err(ins.error);
        }
        AddressedStep(ext, tokens, here, instructions, Got(ins.value, pos));
        instructions := instructions + [ins.value];
      }
    }

    /** The instruction-list branch of `ParseScript`, with the read mark flag already read. */
    method ParseListBody(enableReadMark: bool) returns (r: Result<ListScript>)
      requires Cursor()
      modifies this`pos, this`last
      ensures Cursor() && r == ListBodyAt(ext, tokens, old(pos), enableReadMark)
      ensures r.Ok? ==> tokens[pos].kind == EndOfFile
    {
      var index := ParseIndex();
      if index.Err? {
        return Err(index.error);
      }
      var instructions := ParseAddressed();
      if instructions.Err? {
        return Err(instructions.error);
      }
      if tokens[pos].kind != EndOfFile {
        return Err(AssertFailed(EndOfFileAssert));
      }
      r := Ok(ListScript(enableReadMark, index.value.entries, index.value.entryPoint, instructions.value));
    }

    /** The braces of `ParseFunction` and the blocks between them, in the order they were met. */
    method ParseBody() returns (r: Result<seq<BlockId>>)
      requires Valid()
      modifies this`pos, this`last, this`labels, this`arena
      ensures Valid() && |old(arena)| <= |arena|
      ensures r.Ok? ==> old(pos) < pos && tokens[old(pos)].value == "{" && tokens[pos - 1].value == "}"
      ensures r.Ok? ==> InArena(r.value, |arena|)
    {
      var open := ConsumePunctuation(["{"]);
      if open.Err? {
        return Err(open.error);
      }
      var order: seq<BlockId> := [];
      while tokens[pos].value != "}"
        invariant Valid() && old(pos) < pos && |old(arena)| <= |arena| && InArena(order, |arena|)
        decreases |tokens| - pos
      {
        var b := ParseBlock();
        if b.Err? {
          return Err(b.error);
        }
        order := order + [b.value];
      }
      var close := ConsumePunctuation(["}"]);
      if close.Err? {
        return Err(close.error);
      }
      r := Ok(order);
    }

    /** The head of `ParseFunction`: the keyword, the name hash and the parameter types. */
    method ParseSignature() returns (r: Result<Signature>)
      requires Cursor()
      modifies this`pos, this`last
      ensures Cursor() && ReadTo(r, SignatureAt(ext, tokens, old(pos)), pos)
    {
      var f := Consume([Func]);
      if f.Err? {
        return Err(f.error);
      }
      var hash := ParseHash();
      if hash.Err? {
        return Err(hash.error);
      }
      var types := ParseTypeList("(", ")");
      if types.Err? {
        return Err(types.error);
      }
      r := Ok(Signature(hash.value, types.value));
    }

    /** The fresh label table of `ParseFunction`, the signature and its entry point mark. */
    method ParseHead(script: MjoScript) returns (r: Result<Signature>)
      requires Cursor() && script.functions.Some?
      modifies this`pos, this`last, this`labels, this`arena, script`entryPointFunction
      ensures Valid() && labels == map[] && arena == []
      ensures r.Ok? ==> old(pos) < pos && r == Value(SignatureAt(ext, tokens, old(pos)))
      ensures r.Ok? ==> EntryPointKept(old(script.entryPointFunction), script.entryPointFunction, |old(script.functions).value|)
    {
      labels := map[];
      arena := [];
      r := ParseSignature();
      if r.Err? {
        return;
      }
      var marked := ParseEntryPoint(script);
      if marked.Err? {
        return Err(marked.error);
      }
    }

    /**
     * The entry point mark of `ParseFunction`: it makes the function being parsed, the next one
     * of the script, its entry point, which may happen only once.
     */
    method ParseEntryPoint(script: MjoScript) returns (r: Result<bool>)
      requires Cursor() && script.functions.Some?
      modifies this`pos, this`last, script`entryPointFunction
      ensures Cursor() && old(pos) <= pos
      ensures r.Ok? <==> tokens[old(pos)].kind != EntryPoint || old(script.entryPointFunction).None?
      ensures r.Ok? ==> r.value == (tokens[old(pos)].kind == EntryPoint)
      ensures r.Ok? && r.value ==> pos == old(pos) + 1 && script.entryPointFunction == Some(|old(script.functions).value|)
      ensures r.Ok? && !r.value ==> pos == old(pos) && script.entryPointFunction == old(script.entryPointFunction)
      ensures r.Err? ==> r == Err(AssertFailed(MultipleEntryPoints))
    {
      if tokens[pos].kind != EntryPoint {
        return Ok(false);
      }
      StreamNext(tokens, pos);
      var mark := Consume([]);
      if script.entryPointFunction.Some? {
        return Err(AssertFailed(MultipleEntryPoints));
      }
      script.entryPointFunction := Some(|script.functions.value|);
      r := Ok(true);
    }

    /**
     * `ParseFunction(script)`: a fresh label table, the signature, an optional entry point mark
     * (which makes this function the script's entry point, once only), the body, and the local
     * types of the one `alloca` among the body's instructions, taken in block order.
     */
    method ParseFunction(script: MjoScript) returns (r: Result<Function>)
      requires Cursor() && script.functions.Some?
      modifies this`pos, this`last, this`labels, this`arena, script`entryPointFunction
      ensures Valid()
      ensures r.Ok? ==> old(pos) < pos && Built(r.value, arena, SignatureAt(ext, tokens, old(pos))) &&
                        EntryPointKept(old(script.entryPointFunction), script.entryPointFunction, |old(script.functions).value|)
    {
      var signature := ParseHead(script);
      if signature.Err? {
        return Err(signature.error);
      }
      r := ParseFunctionBody(signature.value, SignatureAt(ext, tokens, old(pos)));
    }

    /** The rest of `ParseFunction`, after the signature and the entry point mark. */
    method ParseFunctionBody(signature: Signature, ghost read: Result<Got<Signature>>) returns (r: Result<Function>)
      requires Valid() && read.Ok? && read.value.value == signature
      modifies this`pos, this`last, this`labels, this`arena
      ensures Valid()
      ensures r.Ok? ==> old(pos) < pos && Built(r.value, arena, read)
    {
      var order := ParseBody();
      if order.Err? {
        return Err(order.error);
      }
      r := BuildFunction(signature, order.value, read);
    }

    /** The end of `ParseFunction`: the function over the filled arena, typed after its one `alloca`. */
    method BuildFunction(signature: Signature, order: seq<BlockId>, ghost read: Result<Got<Signature>>) returns (r: Result<Function>)
      requires Valid() && InArena(order, |arena|) && read.Ok? && read.value.value == signature
      ensures r.Ok? ==> Built(r.value, arena, read)
      ensures r.Err? ==> SingleAlloca(BlockInstructions(arena, order)) == Err(r.error)
    {
      var alloca := SingleAlloca(BlockInstructions(arena, order));
      if alloca.Err? {
        return Err(alloca.error);
      }
      r := Ok(Function(signature.hash, -1, -1, None, None, arena, Some(order),
                       Some(signature.types), Some(alloca.value.typeList)));
    }

    /** `script.Functions.Add(ParseFunction(script))`. */
    method AddFunction(script: MjoScript) returns (r: Result<Function>)
      requires Valid() && Collected(script)
      modifies this`pos, this`last, this`labels, this`arena, script`functions, script`entryPointFunction
      ensures Valid() && (r.Ok? ==> Collected(script))
      ensures r.Ok? ==> old(pos) < pos && script.functions == Some(old(script.functions.value) + [r.value])
    {
      ghost var functions, entry := script.functions.value, script.entryPointFunction;
      r := ParseFunction(script);
      if r.Ok? {
        BuiltParsed(r.value, arena, SignatureAt(ext, tokens, old(pos)));
        AppendFunction(script, r.value, functions, entry);
      }
    }

    /** The function loop of `ParseScript`, up to the end of the file. */
    method ParseFunctions(script: MjoScript) returns (r: Result<seq<Function>>)
      requires Valid() && Collected(script)
      modifies this`pos, this`last, this`labels, this`arena, script`functions, script`entryPointFunction
      ensures Valid() && (r.Ok? ==> Collected(script))
      ensures r.Ok? ==> tokens[pos].kind == EndOfFile && script.functions == Some(r.value)
    {
      while tokens[pos].kind != EndOfFile
        invariant Valid() && Collected(script)
        decreases |tokens| - pos
      {
        var f := AddFunction(script);
        if f.Err? {
          return Err(f.error);
        }
      }
      r := Ok(script.functions.value);
    }

    /**
     * `ParseScript`: the read mark, then either functions (the control-flow-graph form) or index
     * lines followed by addressed instructions (the instruction-list form), then the end of the file.
     */
    method ParseScript() returns (r: Result<MjoScript>)
      requires Valid() && pos == 0
      modifies this`pos, this`last, this`labels, this`arena
      ensures Valid()
      ensures r.Ok? ==> fresh(r.value) && tokens[pos].kind == EndOfFile
      ensures ReadMarkAt(tokens).Err? ==> r == Err(ReadMarkAt(tokens).error)
      ensures ReadMarkAt(tokens).Ok? && !ListForm(tokens) && !GraphForm(tokens) ==> r == Err(Thrown(UnexpectedToken))
      ensures ListForm(tokens) ==> r.Ok? == ListScriptAt(ext, tokens).Ok?
      ensures ListForm(tokens) && r.Err? ==> r.error == ListScriptAt(ext, tokens).error
      ensures ListForm(tokens) && r.Ok? ==> Holds(r.value, ListScriptAt(ext, tokens).value)
      ensures GraphForm(tokens) && r.Ok? ==> Functions(r.value) && r.value.enableReadMark == ReadMarkAt(tokens).value.value
    {
      var mark := ParseReadMark();
      if mark.Err? {
        return Err(mark.error);
      }
      var k := tokens[pos].kind;
      if k == Func {
        r := ParseGraphBody(mark.value);
      } else if k == TokenType.Index {
        var body := ParseListBody(mark.value);
        if body.Err? {
          return Err(body.error);
        }
        var script := NewListScript(body.value);
        r := Ok(script);
      } else {
        r := Err(Thrown(UnexpectedToken));
      }
    }

    /** The control-flow-graph branch of `ParseScript`, with the read mark flag already read. */
    method ParseGraphBody(enableReadMark: bool) returns (r: Result<MjoScript>)
      requires Valid()
      modifies this`pos, this`last, this`labels, this`arena
      ensures Valid()
      ensures r.Ok? ==> fresh(r.value) && tokens[pos].kind == EndOfFile
      ensures r.Ok? ==> Functions(r.value) && r.value.enableReadMark == enableReadMark
    {
      var script := new MjoScript.Empty();
      script.enableReadMark := enableReadMark;
      script.representation := ControlFlowGraph;
      script.functions := Some([]);
      var functions := ParseFunctions(script);
      if functions.Err? {
        return Err(functions.error);
      }
      r := Ok(script);
    }
  }

  /** `script.Functions.Add(f)`, for a parsed f that may be the entry point. */
  method AppendFunction(script: MjoScript, f: Function, ghost functions: seq<Function>, ghost entry: Option<nat>)
    requires script.functions == Some(functions) && Parsed(f)
    requires forall k | 0 <= k < |functions| :: Parsed(functions[k])
    requires entry.Some? ==> entry.value < |functions|
    requires EntryPointKept(entry, script.entryPointFunction, |functions|)
    modifies script`functions
    ensures Collected(script) && script.functions == Some(functions + [f])
  {
    script.functions := Some(script.functions.value + [f]);
  }

  /** The script object of the instruction-list form, as `ParseScript` fills it in. */
  method NewListScript(l: ListScript) returns (script: MjoScript)
    ensures fresh(script) && Holds(script, l)
  {
    script := new MjoScript.Empty();
    script.enableReadMark := l.enableReadMark;
    script.representation := InstructionList;
    script.functionIndex := Some(l.index);
    script.entryPointOffset := l.entryPointOffset;
    script.instructions := l.instructions;
  }

  /** Appending an instruction of a block, whose targets are blocks of the arena, keeps the arena targeted. */
  lemma TargetedAppend(arena: seq<BasicBlock>, id: BlockId, ins: Instruction)
    requires Targeted(arena) && id < |arena| && ins.block == Some(id) && TargetsWithin(ins, |arena|)
    ensures Targeted(arena[id := arena[id].(instructions := arena[id].instructions + [ins])])
  {
    var after := arena[id := arena[id].(instructions := arena[id].instructions + [ins])];
    forall i, k | 0 <= i < |after| && 0 <= k < |after[i].instructions|
      ensures after[i].instructions[k].block == Some(i) && TargetsWithin(after[i].instructions[k], |after|)
    {
      if i == id && k == |arena[id].instructions| {
        assert after[i].instructions[k] == ins;
      } else {
        assert after[i].instructions[k] == arena[i].instructions[k];
      }
    }
  }

  /** The packing `FlagsAt` does once the run is read. */
  function Packed(r: Result<FlagFields>): Result<Flags.MjoFlags>
    requires r.Ok? ==> InRange(r.value)
  {
    match r
    case Err(e) => Err(e)
    case Ok(f) => Ok(BuildFields(f))
  }

  /** The invariant of `ParseFlags`: what is left of the run at p, read on from f and seen, gives what the whole run gives. */
  ghost predicate FlagLoop(ts: seq<Token>, start: nat, p: nat, end: nat, f: FlagFields, seen: set<TokenType>) {
    start <= p <= end <= |ts| && end == FlagRunEnd(ts, start) && InRange(f) &&
    (FieldsOnce(ts[p..end], f, seen).Ok? ==> InRange(FieldsOnce(ts[p..end], f, seen).value)) &&
    FlagsAt(ts, start) == Packed(FieldsOnce(ts[p..end], f, seen))
  }

  lemma FlagLoopStart(ts: seq<Token>, p: nat)
    requires p < |ts|
    ensures FlagLoop(ts, p, p, FlagRunEnd(ts, p), NoFields, {})
  {
    if FieldsOnce(ts[p..FlagRunEnd(ts, p)], NoFields, {}).Ok? {
      FieldsOnceInRange(ts[p..FlagRunEnd(ts, p)], NoFields, {});
    }
  }

  /** One turn of the loop: a kind seen before or an unknown word ends the parse as the run's failure does. */
  lemma FlagLoopStep(ts: seq<Token>, start: nat, p: nat, end: nat, f: FlagFields, seen: set<TokenType>)
    requires FlagLoop(ts, start, p, end, f, seen) && p < |ts| && IsFlagKind(ts[p].kind)
    ensures ts[p].kind in seen ==> FlagsAt(ts, start) == Err(AssertFailed(FlagGivenTwice))
    ensures ts[p].kind !in seen && KeywordValue(ts[p]).Err? ==> FlagsAt(ts, start) == Err(KeywordValue(ts[p]).error)
    ensures ts[p].kind !in seen && KeywordValue(ts[p]).Ok? ==>
      FlagLoop(ts, start, p + 1, end, SetField(f, ts[p].kind, KeywordValue(ts[p]).value), seen + {ts[p].kind})
  {
    if ts[p].kind in seen || KeywordValue(ts[p]).Err? {
      FlagLoopFails(ts, start, p, end, f, seen);
    } else {
      FlagLoopNext(ts, start, p, end, f, seen);
    }
  }

  lemma FlagLoopFails(ts: seq<Token>, start: nat, p: nat, end: nat, f: FlagFields, seen: set<TokenType>)
    requires FlagLoop(ts, start, p, end, f, seen) && p < |ts| && IsFlagKind(ts[p].kind)
    requires ts[p].kind in seen || KeywordValue(ts[p]).Err?
    ensures FlagsAt(ts, start) == Err(AddOnce(f, seen, ts[p]).error)
  {
    FieldsOnceCons(ts, p, end, f, seen);
  }

  lemma FlagLoopNext(ts: seq<Token>, start: nat, p: nat, end: nat, f: FlagFields, seen: set<TokenType>)
    requires FlagLoop(ts, start, p, end, f, seen) && p < |ts| && IsFlagKind(ts[p].kind)
    requires ts[p].kind !in seen && KeywordValue(ts[p]).Ok?
    ensures FlagLoop(ts, start, p + 1, end, SetField(f, ts[p].kind, KeywordValue(ts[p]).value), seen + {ts[p].kind})
  {
    FieldsOnceCons(ts, p, end, f, seen);
    var k := ts[p].kind;
    SetFieldInRange(f, ts[p]);
    var g := SetField(f, k, KeywordValue(ts[p]).value);
    if FieldsOnce(ts[p + 1..end], g, seen + {k}).Ok? {
      FieldsOnceInRange(ts[p + 1..end], g, seen + {k});
    }
  }

  /** The first turn of the intended loop over a sub-run of the tokens. */
  lemma FieldsOnceCons(ts: seq<Token>, p: nat, end: nat, f: FlagFields, seen: set<TokenType>)
    requires p < end <= |ts| && forall k | p <= k < end :: IsFlagKind(ts[k].kind)
    ensures FieldsOnce(ts[p..end], f, seen) ==
      match AddOnce(f, seen, ts[p])
      case Err(e) => Err(e)
      case Ok(g) => FieldsOnce(ts[p + 1..end], g, seen + {ts[p].kind})
  {
    var run := ts[p..end];
    assert run[0] == ts[p];
    assert run[1..] == ts[p + 1..end];
  }

  lemma SetFieldInRange(f: FlagFields, t: Token)
    requires InRange(f) && IsFlagKind(t.kind) && KeywordValue(t).Ok?
    ensures InRange(SetField(f, t.kind, KeywordValue(t).value))
  {
  }

  lemma FlagLoopEnd(ts: seq<Token>, start: nat, p: nat, end: nat, f: FlagFields, seen: set<TokenType>)
    requires FlagLoop(ts, start, p, end, f, seen) && p < |ts| && !IsFlagKind(ts[p].kind)
    ensures p == FlagRunEnd(ts, start) && FlagsAt(ts, start) == Ok(BuildFields(f))
  {
    assert ts[p..end] == [];
  }

  function Widen(r: Result<bv8>): (w: Result<int>)
    ensures r.Ok? <==> w.Ok?
    ensures r.Ok? ==> w.value == r.value as int
    ensures r.Err? ==> w.error == r.error
  {
    match r
    case Err(e) => Err(e)
    case Ok(v) => Ok(v as int)
  }

  /** One turn of the type list loop, read off the function. */
  lemma TypeItemsStep(ts: seq<Token>, q: nat, close: string)
    requires q + 1 < |ts| && TypeAt(ts, q).Ok? && PunctuationAt(ts, q + 1, [",", close]).Ok?
    ensures ts[q + 1].value == "," ==> q + 2 < |ts| && TypeItemsAt(ts, q, close) == Prepend([TypeAt(ts, q).value.value], TypeItemsAt(ts, q + 2, close))
    ensures ts[q + 1].value != "," ==> TypeItemsAt(ts, q, close) == Ok(Got([TypeAt(ts, q).value.value], q + 2))
  {
  }

  lemma PrependNothing<T>(r: Result<Got<seq<T>>>)
    ensures Prepend([], r) == r
  {
    if r.Ok? {
      assert [] + r.value.value == r.value.value;
    }
  }

  lemma PrependTwice<T>(xs: seq<T>, ys: seq<T>, r: Result<Got<seq<T>>>)
    ensures Prepend(xs, Prepend(ys, r)) == Prepend(xs + ys, r)
  {
    if r.Ok? {
      assert xs + (ys + r.value.value) == (xs + ys) + r.value.value;
    }
  }

  /** Recording a new label for a new block at the end of the arena keeps the labels. */
  lemma LabelledAdd(labels: map<string, BlockId>, arena: seq<BasicBlock>, name: string)
    requires Labelled(labels, arena) && name !in labels
    ensures Labelled(labels[name := |arena|], arena + [NewBlock(name)])
  {
  }

  // ---------------------------------------------------------------------------------------
  // `Parse`: tokenize, parse, and report a failure with the last token read

  /** The name C# gives a token type when it is formatted. */
  function KindName(k: TokenType): string {
    match k
    case ReadMark => "ReadMark" case Enable => "Enable" case Disable => "Disable"
    case Unknown => "Unknown" case Address => "Address" case Label => "Label" case Name => "Name"
    case Hash => "Hash" case IntLiteral => "IntLiteral" case HexLiteral => "HexLiteral"
    case FloatLiteral => "FloatLiteral" case StringLiteral => "StringLiteral" case LineNo => "LineNo"
    case Resource => "Resource" case Punctuation => "Punctuation" case Func => "Func"
    case Index => "Index" case EntryPoint => "EntryPoint" case VarType => "VarType"
    case Scope => "Scope" case Modifier => "Modifier" case InvertMode => "InvertMode"
    case Dimension => "Dimension" case EndOfFile => "EndOfFile"
  }

  const FailurePrefix: string := "Failed to parse script. Last token: "

  /** The message of the exception `Parse` throws in place of the one `ParseScript` threw. */
  function FailureMessage(t: Token): (m: string)
    ensures FailurePrefix <= m
  {
    FailurePrefix + KindName(t.kind) + " '" + t.value + "' in line " + DecimalText(t.row) +
      ", column " + DecimalText(t.column)
  }

  /**
   * `Assembler.Parse`: the text's tokens, read by `ParseScript`; an exception from there is
   * replaced by one naming the last token read.
   */
  method Parse(ext: Externals, input: string) returns (r: Result<MjoScript>)
    ensures Tokens(input).Err? ==> r == Err(Tokens(input).error)
    ensures r.Ok? ==> fresh(r.value) && Tokens(input).Ok?
    ensures Tokens(input).Ok? && r.Err? && r.error.Thrown? ==> FailurePrefix <= r.error.message
    ensures Tokens(input).Ok? && ListForm(Tokens(input).value) ==>
      (r.Ok? <==> ListScriptAt(ext, Tokens(input).value).Ok?)
    ensures Tokens(input).Ok? && ListForm(Tokens(input).value) && r.Ok? ==>
      Holds(r.value, ListScriptAt(ext, Tokens(input).value).value)
    ensures Tokens(input).Ok? && GraphForm(Tokens(input).value) && r.Ok? ==> Functions(r.value)
    ensures Tokens(input).Ok? && !ListForm(Tokens(input).value) && !GraphForm(Tokens(input).value) ==> r.Err?
  {
    var tokens := Tokenize(input);
    if tokens.Err? {
      return Err(tokens.error);
    }
    EndOfFileOnce(input);
    var parser := new Parser(tokens.value, ext);
    r := parser.ParseScript();
    if r.Err? && r.error.Thrown? {
      r := Err(Thrown(FailureMessage(parser.last)));
    }
  }
}
