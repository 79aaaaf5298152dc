// The text dump of a decompiled syntax tree (src/MajiroLib/Script/Analysis/Source/DumpVisitor.cs).
// The visitor writes piece by piece to a coloured console writer and keeps the current indent in
// a field; here it is a class whose `output` field is the text written so far (the colours are
// not modelled) and whose `indent` field is that indent. Each visit method is proved against a
// pure function giving the text it writes, the exception it stops at, and the indent it leaves.

module Dump {
  import opened Wrappers
  import opened Flags
  import opened Syntax
  import Numerals

  /** The message of an `ArgumentOutOfRangeException` thrown without arguments. */
  const ArgumentOutOfRange: string := "Specified argument was out of the range of valid values."

  /** What the printer takes from code outside this model. */
  datatype Show = Show(
    /** `float.ToString("#.0#############", CultureInfo.InvariantCulture)` of the value with these bits. */
    floatText: bv32 -> string,
    /** The `Escape()` string extension applied to a string operand (it may throw). */
    escape: Option<seq<bv8>> -> Result<string>,
    /** `Data.KnownSyscallNamesByHash`. */
    syscallNames: map<bv32, string>,
    /** `Data.KnownFunctionNamesByHash`. */
    functionNames: map<bv32, string>)

  /** The text written so far, and the exception that stopped the writing, if any. */
  datatype Printed = Printed(text: string, failed: Option<Error>)

  /** A statement's dump also leaves the visitor's indent, which an exception leaves deeper. */
  datatype Dumped = Dumped(text: string, failed: Option<Error>, indent: string)

  function Plain(text: string): Printed {
    Printed(text, None)
  }

  // ---------------------------------------------------------------------------------------
  // Identifiers, load affixes and operators

  /** The scope character of an identifier; a scope without a name throws. */
  function ScopeChar(scope: MjoScope): (r: Result<char>)
    ensures r.Ok? <==> scope <= Local
  {
    if scope == Persistent then Ok('#')
    else if scope == SaveFile then Ok('@')
    else if scope == Thread then Ok('%')
    else if scope == Local then Ok('_')
    else Err(Thrown(ArgumentOutOfRange))
  }

  /** The type suffix of an identifier; a type without a name throws. */
  function TypeSuffix(t: MjoType): (r: Result<string>)
    ensures r.Ok? <==> t <= StringArray || t == Unknown
  {
    if t == Int then Ok("")
    else if t == Float then Ok("%")
    else if t == String then Ok("$")
    else if t == IntArray then Ok("#")
    else if t == FloatArray then Ok("%#")
    else if t == StringArray then Ok("$#")
    else if t == Unknown then Ok("?")
    else Err(Thrown(ArgumentOutOfRange))
  }

  /** `WriteIdentifier`: `<scope>{<hash:x8>}<suffix>`; the scope is looked up before the type. */
  function IdentifierText(hash: bv32, flags: MjoFlags): (r: Result<string>)
    ensures r.Ok? <==> Scope(flags) <= Local && Type(flags) <= StringArray
  {
    match ScopeChar(Scope(flags))
    case Err(e) => Err(e)
    case Ok(c) =>
      match TypeSuffix(Type(flags))
      case Err(e) => Err(e)
      case Ok(suffix) => Ok([c] + "{" + Numerals.Hex8(hash as nat) + "}" + suffix)
  }

  /** Where the braces and the digits stand in `<scope>{<digits>}`. */
  lemma BracedHex(c: char, x: string)
    requires |x| == 8
    ensures var head := [c] + "{" + x + "}";
      |head| == 11 && head[0] == c && head[2..10] == x
  {
    var p := [c] + "{" + x;
    SliceOfJoin(p, "}", 2, 10);
    DropJoin([c] + "{", x);
    assert p[2..10] == p[2..];
  }

  lemma SliceOfJoin(a: string, b: string, i: nat, j: nat)
    requires i <= j <= |a|
    ensures (a + b)[i..j] == a[i..j]
  {
  }

  lemma DropJoin(a: string, b: string)
    ensures (a + b)[|a|..] == b
  {
  }

  /** The sign an invert mode prints in front of a load. */
  function InvertText(flags: MjoFlags): string {
    var m := InvertMode(flags);
    if m == InvertNumeric then "-" else if m == InvertBoolean then "!" else if m == InvertBitwise then "~" else ""
  }

  /** `WriteLoadPrefix`: the invert sign, then a pre-increment or pre-decrement. */
  function LoadPrefix(flags: MjoFlags): string {
    var m := Modifier(flags);
    InvertText(flags) + (if m == PreIncrement then "++" else if m == PreDecrement then "--" else "")
  }

  /** `WriteLoadSuffix`: a post-increment or post-decrement. */
  function LoadSuffix(flags: MjoFlags): string {
    var m := Modifier(flags);
    if m == PostIncrement then "++" else if m == PostDecrement then "--" else ""
  }

  /**
   * A load prints its invert sign exactly when the mode has one, in front, and its increment or
   * decrement exactly once, before the name for a pre- and after it for a post-modifier.
   */
  lemma LoadAffixes(flags: MjoFlags)
    ensures |InvertText(flags)| == (if InvertMode(flags) == InvertNone then 0 else 1)
    ensures LoadPrefix(flags)[..|InvertText(flags)|] == InvertText(flags)
    ensures |LoadPrefix(flags)| - |InvertText(flags)| == (if Modifier(flags) in {PreIncrement, PreDecrement} then 2 else 0)
    ensures |LoadSuffix(flags)| == (if Modifier(flags) in {PostIncrement, PostDecrement} then 2 else 0)
    ensures Modifier(flags) in {PreIncrement, PostIncrement} <==>
              "++" in {LoadPrefix(flags)[|InvertText(flags)|..], LoadSuffix(flags)}
    ensures Modifier(flags) in {PreDecrement, PostDecrement} <==>
              "--" in {LoadPrefix(flags)[|InvertText(flags)|..], LoadSuffix(flags)}
  {
  }

  /** `GetBinaryOperator`; the plain assignment's `None` prints nothing, so it reads `=`. */
  function BinaryOperator(op: BinaryOperation): (s: string)
    ensures s == "" <==> op == NoOperation
  {
    match op
    case NoOperation => ""
    case Addition => "+"
    case Subtraction => "-"
    case Multiplication => "*"
    case Division => "/"
    case Modulo => "%"
    case ShiftLeft => "<<"
    case ShiftRight => ">>"
    case BitwiseAnd => "&"
    case BitwiseOr => "|"
    case BitwiseXor => "^"
    case LogicalAnd => "&&"
    case LogicalOr => "||"
    case CompareLessEqual => "<="
    case CompareLessThan => "<"
    case CompareGreaterEqual => ">="
    case CompareGreaterThan => ">"
    case CompareEqual => "=="
    case CompareNotEqual => "!="
  }

  /** Two different operations never print the same operator. */
  lemma BinaryOperatorsDistinct(a: BinaryOperation, b: BinaryOperation)
    ensures BinaryOperator(a) == BinaryOperator(b) ==> a == b
  {
  }

  /** The operator of a `UnaryExpression`. */
  function UnaryOperator(op: UnaryOperation): (s: string)
    ensures |s| == 1
  {
    match op
    case LogicalNot => "!"
    case BitwiseNot => "~"
    case UnaryMinus => "-"
    case UnaryPlus => "+"
  }

  /** `MjoType.ToString().ToLower()`: the lower-cased name, or the number of an unnamed value. */
  function TypeName(t: MjoType): (s: string)
    ensures |s| > 0
  {
    if t == Int then "int"
    else if t == Float then "float"
    else if t == String then "string"
    else if t == IntArray then "intarray"
    else if t == FloatArray then "floatarray"
    else if t == StringArray then "stringarray"
    else if t == Unknown then "unknown"
    else Numerals.DecimalText(t as int)
  }

  /** The types `MjoType` has a name for. */
  predicate NamedType(t: MjoType) {
    t <= StringArray || t == Unknown
  }

  /** A named type prints a word, any other value its decimal number. */
  lemma TypeNameShape(t: MjoType)
    ensures NamedType(t) ==> !Numerals.IsDecimalDigit(TypeName(t)[0])
    ensures !NamedType(t) ==> TypeName(t) == Numerals.DecimalText(t as int)
    ensures !NamedType(t) ==> Numerals.IsDecimalDigit(TypeName(t)[0])
  {
    if !NamedType(t) {
      UnnamedTypeName(t);
    }
  }

  /** An unnamed type value prints its digits, which start with a digit. */
  lemma UnnamedTypeName(t: MjoType)
    requires !NamedType(t)
    ensures TypeName(t) == Numerals.DecimalDigits(t as nat) && Numerals.IsDecimalDigit(TypeName(t)[0])
  {
    Numerals.DecimalDigitsValue(t as nat);
    assert Numerals.IsDecimalDigit(Numerals.DecimalDigits(t as nat)[0]);
  }

  /** A cast names its target type unambiguously. */
  lemma TypeNamesDistinct(a: MjoType, b: MjoType)
    ensures TypeName(a) == TypeName(b) ==> a == b
  {
    TypeNameShape(a);
    TypeNameShape(b);
    if TypeName(a) == TypeName(b) && !NamedType(a) && !NamedType(b) {
      UnnamedTypesDistinct(a, b);
    }
  }

  lemma UnnamedTypesDistinct(a: MjoType, b: MjoType)
    requires Numerals.DecimalText(a as int) == Numerals.DecimalText(b as int)
    ensures a == b
  {
    Numerals.DecimalTextParses(a as int, 0, 256);
    Numerals.DecimalTextParses(b as int, 0, 256);
    assert a == (a as int) as bv8 && b == (b as int) as bv8;
  }

  /** Where the scope, the hash and the suffix stand in an identifier. */
  lemma IdentifierParts(hash: bv32, flags: MjoFlags)
    requires IdentifierText(hash, flags).Ok?
    ensures IdentifierText(hash, flags).value[0] == ScopeChar(Scope(flags)).value
    ensures IdentifierText(hash, flags).value[2..10] == Numerals.Hex8(hash as nat)
    ensures IdentifierText(hash, flags).value[11..] == TypeSuffix(Type(flags)).value
  {
    var t := IdentifierText(hash, flags).value;
    var x := Numerals.Hex8(hash as nat);
    var head := [ScopeChar(Scope(flags)).value] + "{" + x + "}";
    var suffix := TypeSuffix(Type(flags)).value;
    assert t == head + suffix;
    BracedHex(ScopeChar(Scope(flags)).value, x);
    SliceOfJoin(head, suffix, 2, 10);
    DropJoin(head, suffix);
    assert t[0] == head[0];
  }

  /** Two identifiers that print without an exception print alike only for the same hash, scope and type. */
  lemma IdentifierInjective(h1: bv32, f1: MjoFlags, h2: bv32, f2: MjoFlags)
    requires IdentifierText(h1, f1).Ok? && IdentifierText(h2, f2).Ok?
    requires IdentifierText(h1, f1).value == IdentifierText(h2, f2).value
    ensures h1 == h2 && Scope(f1) == Scope(f2) && Type(f1) == Type(f2)
  {
    IdentifierParts(h1, f1);
    IdentifierParts(h2, f2);
    Numerals.Hex8Parses(h1 as nat);
    Numerals.Hex8Parses(h2 as nat);
    assert Numerals.Hex8(h1 as nat) == Numerals.Hex8(h2 as nat);
    HashValue(h1, h2);
    ScopeCharInjective(Scope(f1), Scope(f2));
    TypeSuffixInjective(Type(f1), Type(f2));
  }

  lemma HashValue(a: bv32, b: bv32)
    requires a as nat == b as nat
    ensures a == b
  {
    assert a == (a as nat) as bv32 && b == (b as nat) as bv32;
  }

  lemma ScopeCharInjective(a: MjoScope, b: MjoScope)
    requires ScopeChar(a).Ok? && ScopeChar(b).Ok? && ScopeChar(a).value == ScopeChar(b).value
    ensures a == b
  {
  }

  lemma TypeSuffixInjective(a: MjoType, b: MjoType)
    requires TypeSuffix(a).Ok? && TypeSuffix(b).Ok? && TypeSuffix(a).value == TypeSuffix(b).value
    ensures a == b
  {
  }

  // ---------------------------------------------------------------------------------------
  // ---------------------------------------------------------------------------------------
  // Expressions
  //
  // Each function takes the text the writer already holds and gives what it holds afterwards,
  // the way the visitor appends to its writer; the *Appends lemmas show that what a node adds
  // does not depend on what was written before it.

  /** Appends a piece that may have thrown before anything of it was written. */
  function Emit(out: string, piece: Result<string>): Printed {
    match piece
    case Ok(s) => Plain(out + s)
    case Err(e) => Printed(out, Some(e))
  }

  /** The same writing, begun after `out`. */
  function Shifted(out: string, p: Printed): Printed {
    Printed(out + p.text, p.failed)
  }

  /** A string operand in double quotes, escaped; `Escape` runs before the quotes are written. */
  function QuotedText(show: Show, text: Option<seq<bv8>>): (r: Result<string>)
    ensures r.Ok? <==> show.escape(text).Ok?
  {
    match show.escape(text)
    case Ok(s) => Ok("\"" + s + "\"")
    case Err(e) => Err(e)
  }

  /** The name a call prints: the known name, or the hash in eight hexadecimal digits. */
  function CallName(show: Show, call: Call): string {
    var names := if call.isSyscall then show.syscallNames else show.functionNames;
    if call.hash in names then names[call.hash] else Numerals.Hex8(call.hash as nat)
  }

  /** `Visit(Call)`: `$name(arguments)`. */
  function CallAfter(show: Show, call: Call, out: string): Printed
    decreases call, 2
  {
    var arguments := ListAfter(show, call.arguments, false, out + ("$" + CallName(show, call) + "("));
    if arguments.failed.Some? then arguments else Plain(arguments.text + ")")
  }

  /**
   * The operand loops of an array access, a call and a `ctrl` statement: each operand after ", ",
   * except the first when lead is false, as far as the first operand that throws.
   */
  function ListAfter(show: Show, operands: seq<Expression>, lead: bool, out: string): Printed
    decreases operands, 1
  {
    if |operands| == 0 then Plain(out)
    else
      var front := ListAfter(show, operands[..|operands| - 1], lead, out);
      if front.failed.Some? then front
      else ExpressionAfter(show, operands[|operands| - 1],
                           if |operands| > 1 || lead then front.text + ", " else front.text)
  }

  /** What the writer holds after the visitor has written an expression. */
  function ExpressionAfter(show: Show, e: Expression, out: string): Printed
    decreases e, 0
  {
    match e
    case Binary(left, right, op, _) =>
      var l := ExpressionAfter(show, left, out + "(");
      if l.failed.Some? then l
      else
        var r := ExpressionAfter(show, right, l.text + (" " + BinaryOperator(op) + " "));
        if r.failed.Some? then r else Plain(r.text + ")")
    case Unary(operand, op, _) =>
      var o := ExpressionAfter(show, operand, out + (" " + UnaryOperator(op) + "("));
      if o.failed.Some? then o else Plain(o.text + ")")
    case Cast(operand, t) =>
      ExpressionAfter(show, operand, out + ("(" + TypeName(t) + ")"))
    case Identifier(hash, flags) =>
      var name := Emit(out + LoadPrefix(flags), IdentifierText(hash, flags));
      if name.failed.Some? then name else Plain(name.text + LoadSuffix(flags))
    case ArrayAccess(hash, flags, indices) =>
      var name := Emit(out + LoadPrefix(flags), IdentifierText(hash, flags));
      if name.failed.Some? then name
      else
        var l := ListAfter(show, indices, false, name.text + "[");
        if l.failed.Some? then l else Plain(l.text + "]" + LoadSuffix(flags))
    case LiteralInt(v) => Plain(out + Numerals.DecimalText(v))
    case LiteralFloat(bits) => Plain(out + show.floatText(bits))
    case LiteralString(text) => Emit(out, QuotedText(show, text))
    case CallExpression(call) => CallAfter(show, call, out)
  }

  /** Sequence concatenation regrouped, one step of every *Appends proof. */
  lemma Assoc(a: string, b: string, c: string)
    ensures a + b + c == a + (b + c)
  {
  }

  /** An expression adds the same text, and stops at the same exception, whatever came before it. */
  lemma {:induction false} ExpressionAppends(show: Show, e: Expression, out: string)
    ensures ExpressionAfter(show, e, out) == Shifted(out, ExpressionAfter(show, e, ""))
    decreases e, 1
  {
    if e.Binary? {
      BinaryAppends(show, e, out);
    } else if e.Unary? || e.Cast? {
      UnaryAppends(show, e, out);
    } else if e.ArrayAccess? {
      ArrayAccessAppends(show, e, out);
    } else if e.CallExpression? {
      CallAppends(show, e.call, out);
    } else {
      LiteralAppends(show, e, out);
    }
  }

  lemma {:induction false} BinaryAppends(show: Show, e: Expression, out: string)
    requires e.Binary?
    ensures ExpressionAfter(show, e, out) == Shifted(out, ExpressionAfter(show, e, ""))
    decreases e, 0
  {
    assert "" + "(" == "(";
    ExpressionAppends(show, e.left, out + "(");
    ExpressionAppends(show, e.left, "" + "(");
    var l := ExpressionAfter(show, e.left, "");
    Assoc(out, "(", l.text);
    if l.failed.None? {
      var sep := " " + BinaryOperator(e.binaryOperation) + " ";
      ExpressionAppends(show, e.right, out + "(" + l.text + sep);
      ExpressionAppends(show, e.right, "" + "(" + l.text + sep);
      var r := ExpressionAfter(show, e.right, "");
      Assoc(out, "(" + l.text, sep);
      Assoc(out, "(" + l.text + sep, r.text);
      Assoc(out, "(" + l.text + sep + r.text, ")");
    }
  }

  lemma {:induction false} UnaryAppends(show: Show, e: Expression, out: string)
    requires e.Unary? || e.Cast?
    ensures ExpressionAfter(show, e, out) == Shifted(out, ExpressionAfter(show, e, ""))
    decreases e, 0
  {
    var head := if e.Unary? then " " + UnaryOperator(e.unaryOperation) + "(" else "(" + TypeName(e.targetType) + ")";
    assert "" + head == head;
    ExpressionAppends(show, e.operand, out + head);
    ExpressionAppends(show, e.operand, "" + head);
    var o := ExpressionAfter(show, e.operand, "");
    Assoc(out, head, o.text);
    Assoc(out, head + o.text, ")");
  }

  lemma {:induction false} ArrayAccessAppends(show: Show, e: Expression, out: string)
    requires e.ArrayAccess?
    ensures ExpressionAfter(show, e, out) == Shifted(out, ExpressionAfter(show, e, ""))
    decreases e, 0
  {
    var prefix := LoadPrefix(e.flags);
    assert "" + prefix == prefix;
    var name := IdentifierText(e.hash, e.flags);
    if name.Ok? {
      var v := name.value;
      Assoc(out, prefix, v);
      Assoc(out, prefix + v, "[");
      ListAppends(show, e.indices, false, out + prefix + v + "[");
      ListAppends(show, e.indices, false, "" + prefix + v + "[");
      var l := ListAfter(show, e.indices, false, "");
      Assoc(out, prefix + v + "[", l.text);
      Assoc(out, prefix + v + "[" + l.text, "]");
      Assoc(out, prefix + v + "[" + l.text + "]", LoadSuffix(e.flags));
    }
  }

  lemma LiteralAppends(show: Show, e: Expression, out: string)
    requires e.Identifier? || e.LiteralInt? || e.LiteralFloat? || e.LiteralString?
    ensures ExpressionAfter(show, e, out) == Shifted(out, ExpressionAfter(show, e, ""))
  {
    if e.Identifier? {
      var p := LoadPrefix(e.flags);
      assert "" + p == p;
      var name := IdentifierText(e.hash, e.flags);
      if name.Ok? {
        Assoc(out, p, name.value);
        Assoc(out, p + name.value, LoadSuffix(e.flags));
      }
    } else if e.LiteralInt? {
      assert "" + Numerals.DecimalText(e.intValue) == Numerals.DecimalText(e.intValue);
    } else if e.LiteralFloat? {
      assert "" + show.floatText(e.floatBits) == show.floatText(e.floatBits);
    } else {
      var q := QuotedText(show, e.text);
      if q.Ok? {
        assert "" + q.value == q.value;
      }
    }
  }

  lemma {:induction false} CallAppends(show: Show, call: Call, out: string)
    ensures CallAfter(show, call, out) == Shifted(out, CallAfter(show, call, ""))
    decreases call, 3
  {
    var head := "$" + CallName(show, call) + "(";
    assert "" + head == head;
    ListAppends(show, call.arguments, false, out + head);
    ListAppends(show, call.arguments, false, "" + head);
    var a := ListAfter(show, call.arguments, false, "");
    Assoc(out, head, a.text);
    Assoc(out, head + a.text, ")");
  }

  lemma {:induction false} ListAppends(show: Show, operands: seq<Expression>, lead: bool, out: string)
    ensures ListAfter(show, operands, lead, out) == Shifted(out, ListAfter(show, operands, lead, ""))
    decreases operands, 2
  {
    var n := |operands|;
    if n == 0 {
      assert out + "" == out;
    } else {
      ListAppends(show, operands[..n - 1], lead, out);
      var front := ListAfter(show, operands[..n - 1], lead, "");
      if front.failed.None? {
        var comma := n > 1 || lead;
        var at := if comma then front.text + ", " else front.text;
        Assoc(out, front.text, ", ");
        assert (if comma then out + front.text + ", " else out + front.text) == out + at;
        ExpressionAppends(show, operands[n - 1], out + at);
        ExpressionAppends(show, operands[n - 1], at);
        Assoc(out, at, ExpressionAfter(show, operands[n - 1], "").text);
      }
    }
  }

  /** Once an operand has thrown, the rest of the loop writes nothing. */
  lemma {:induction false} ListStops(show: Show, operands: seq<Expression>, lead: bool, out: string, i: nat)
    requires i <= |operands| && ListAfter(show, operands[..i], lead, out).failed.Some?
    ensures ListAfter(show, operands, lead, out) == ListAfter(show, operands[..i], lead, out)
    decreases |operands| - i
  {
    if i < |operands| {
      assert operands[..i + 1][..i] == operands[..i];
      ListStops(show, operands, lead, out, i + 1);
    } else {
      assert operands[..i] == operands;
    }
  }

  /** A binary expression is always parenthesised: `(L op R)`. */
  lemma BinaryParenthesized(show: Show, left: Expression, right: Expression, op: BinaryOperation, t: MjoType)
    requires ExpressionAfter(show, left, "").failed.None? && ExpressionAfter(show, right, "").failed.None?
    ensures ExpressionAfter(show, Binary(left, right, op, t), "") ==
              Plain("(" + ExpressionAfter(show, left, "").text + (" " + BinaryOperator(op) + " ") +
                    ExpressionAfter(show, right, "").text + ")")
  {
    var l := ExpressionAfter(show, left, "").text;
    assert "" + "(" == "(";
    ExpressionAppends(show, left, "(");
    ExpressionAppends(show, right, "(" + l + (" " + BinaryOperator(op) + " "));
  }

  /** The operands joined with ", " between neighbours. */
  function Joined(texts: seq<string>): string {
    if |texts| == 0 then "" else if |texts| == 1 then texts[0] else texts[0] + ", " + Joined(texts[1..])
  }

  /** The text of each operand on its own. */
  function Texts(show: Show, operands: seq<Expression>): (ts: seq<string>)
    ensures |ts| == |operands|
    ensures forall k | 0 <= k < |operands| :: ts[k] == ExpressionAfter(show, operands[k], "").text
  {
    seq(|operands|, k requires 0 <= k < |operands| => ExpressionAfter(show, operands[k], "").text)
  }

  predicate AllPrint(show: Show, operands: seq<Expression>) {
    forall k | 0 <= k < |operands| :: ExpressionAfter(show, operands[k], "").failed.None?
  }

  lemma {:induction false} JoinedSnoc(ts: seq<string>, t: string)
    requires |ts| > 0
    ensures Joined(ts + [t]) == Joined(ts) + ", " + t
    decreases |ts|
  {
    if |ts| > 1 {
      assert (ts + [t])[1..] == ts[1..] + [t];
      JoinedSnoc(ts[1..], t);
    }
  }

  /**
   * The operand loop writes the operands' texts with ", " between neighbours and none after the
   * last (one more in front when lead is set), and it throws exactly when some operand does.
   */
  lemma {:induction false} ListJoined(show: Show, operands: seq<Expression>, lead: bool)
    ensures ListAfter(show, operands, lead, "").failed.None? <==> AllPrint(show, operands)
    ensures AllPrint(show, operands) ==>
              ListAfter(show, operands, lead, "").text ==
                (if lead && |operands| > 0 then ", " else "") + Joined(Texts(show, operands))
    decreases |operands|
  {
    var n := |operands|;
    if n > 0 {
      var front := operands[..n - 1];
      var last := operands[n - 1];
      ListJoined(show, front, lead);
      AllPrintSnoc(show, operands);
      var f := ListAfter(show, front, lead, "");
      if f.failed.None? {
        var at := if n > 1 || lead then f.text + ", " else f.text;
        ExpressionAppends(show, last, at);
        if AllPrint(show, operands) {
          var x := ExpressionAfter(show, last, "").text;
          var lede := if lead then ", " else "";
          if n > 1 {
            TextsSnoc(show, operands);
            JoinedSnoc(Texts(show, front), x);
            var j := Joined(Texts(show, front));
            Assoc(lede, j, ", ");
            Assoc(lede, j + ", ", x);
          } else {
            assert Joined(Texts(show, operands)) == x;
            assert "" + x == x;
          }
        }
      }
    }
  }

  lemma AllPrintSnoc(show: Show, operands: seq<Expression>)
    requires |operands| > 0
    ensures AllPrint(show, operands) <==>
              AllPrint(show, operands[..|operands| - 1]) && ExpressionAfter(show, operands[|operands| - 1], "").failed.None?
  {
    var n := |operands|;
    var front := operands[..n - 1];
    if AllPrint(show, front) && ExpressionAfter(show, operands[n - 1], "").failed.None? {
      forall k | 0 <= k < n ensures ExpressionAfter(show, operands[k], "").failed.None? {
        if k < n - 1 {
          assert operands[k] == front[k];
        }
      }
    }
    if AllPrint(show, operands) {
      forall k | 0 <= k < n - 1 ensures ExpressionAfter(show, front[k], "").failed.None? {
        assert operands[k] == front[k];
      }
    }
  }

  lemma TextsSnoc(show: Show, operands: seq<Expression>)
    requires |operands| > 0
    ensures Texts(show, operands) ==
              Texts(show, operands[..|operands| - 1]) + [ExpressionAfter(show, operands[|operands| - 1], "").text]
  {
    var n := |operands|;
    assert forall k | 0 <= k < n - 1 :: operands[..n - 1][k] == operands[k];
  }

  // ---------------------------------------------------------------------------------------
  // Statements

  /** A statement without blocks: it writes on one line and leaves the indent alone. */
  predicate Leaf(s: Statement) {
    !s.Block? && !s.Destructor? && !s.If?
  }

  /** What the writer holds after the visitor has written a statement without blocks. */
  function LeafAfter(show: Show, s: Statement, out: string): Printed
    requires Leaf(s)
  {
    match s
    case Assignment(value, hash, flags, _, op) =>
      var name := Emit(out, IdentifierText(hash, flags));
      if name.failed.Some? then name
      else
        var v := ExpressionAfter(show, value, name.text + (" " + BinaryOperator(op) + "= "));
        if v.failed.Some? then v else Plain(v.text + ";")
    case ArrayAssignment(value, indices, hash, flags, _, op) =>
      var name := Emit(out, IdentifierText(hash, flags));
      if name.failed.Some? then name
      else
        var l := ListAfter(show, indices, false, name.text + "[");
        if l.failed.Some? then l
        else
          var v := ExpressionAfter(show, value, l.text + ("] " + BinaryOperator(op) + "= "));
          if v.failed.Some? then v else Plain(v.text + ";")
    case CallStatement(call) =>
      var c := CallAfter(show, call, out);
      if c.failed.Some? then c else Plain(c.text + ";")
    case Return(value) =>
      if value.None? then Plain(out + "return" + ";")
      else
        var v := ExpressionAfter(show, value.value, out + "return" + " ");
        if v.failed.Some? then v else Plain(v.text + ";")
    case Text(text) =>
      var q := Emit(out + "text(", QuotedText(show, text));
      if q.failed.Some? then q else Plain(q.text + ");")
    case Ctrl(code, operands) =>
      var q := Emit(out + "ctrl(", QuotedText(show, code));
      if q.failed.Some? then q
      else
        var l := ListAfter(show, operands, true, q.text);
        if l.failed.Some? then l else Plain(l.text + ");")
    case Proc => Plain(out + "proc;")
  }

  /**
   * What the writer holds after the visitor has written a statement begun at the given indent,
   * and the indent it leaves: the same one unless an exception stopped it inside a block.
   */
  function StatementAfter(show: Show, s: Statement, out: string, indent: string): (d: Dumped)
    ensures d.failed.None? ==> d.indent == indent
    decreases s, 1
  {
    match s
    case Block(statements) => BlockAfter(show, statements, out, indent)
    case Destructor(statements) => BlockAfter(show, statements, out + "destructor ", indent)
    case If(condition, thenBranch, elseBranch) =>
      var c := ExpressionAfter(show, condition, out + "if(");
      if c.failed.Some? then Dumped(c.text, c.failed, indent)
      else
        var t := BlockAfter(show, thenBranch, c.text + ") ", indent);
        if t.failed.Some? || elseBranch.NoElse? then t
        else BlockAfter(show, elseBranch.statements, t.text + "\n" + t.indent + "else ", t.indent)
    case _ =>
      var p := LeafAfter(show, s, out);
      Dumped(p.text, p.failed, indent)
  }

  /**
   * The statement loop of a block or function body: each statement on a new line at the given
   * (inner) indent, as far as the first exception.
   */
  function StatementsAfter(show: Show, statements: seq<Statement>, out: string, inner: string): (d: Dumped)
    ensures d.failed.None? ==> d.indent == inner
    decreases statements, 0
  {
    if |statements| == 0 then Dumped(out, None, inner)
    else
      var front := StatementsAfter(show, statements[..|statements| - 1], out, inner);
      if front.failed.Some? then front
      else StatementAfter(show, statements[|statements| - 1], front.text + "\n" + front.indent, front.indent)
  }

  /** `Visit(BlockStatement)`: `{`, the statements one indent deeper, and `}` on a line of its own. */
  function BlockAfter(show: Show, statements: seq<Statement>, out: string, indent: string): (d: Dumped)
    ensures d.failed.None? ==> d.indent == indent
    decreases statements, 1
  {
    var body := StatementsAfter(show, statements, out + "{", indent + "  ");
    if body.failed.Some? then body
    else
      // `Unindent` takes the two spaces off again.
      assert body.indent[..|body.indent| - 2] == indent;
      Dumped(body.text + "\n" + indent + "}", None, indent)
  }

  /** `Visit(FunctionNode)`: the header, the body one indent deeper, `}`, and a line break. */
  function FunctionAfter(show: Show, f: FunctionNode, out: string, indent: string): (d: Dumped)
    ensures d.failed.None? ==> d.indent == indent
  {
    var header := "func $" + Numerals.Hex8(f.hash as nat) + "(...) {";
    var body := StatementsAfter(show, f.statements, out + header, indent + "  ");
    if body.failed.Some? then body
    else
      assert body.indent[..|body.indent| - 2] == indent;
      Dumped(body.text + "\n" + indent + "}" + "\n" + indent, None, indent)
  }

  function ShiftedDump(out: string, d: Dumped): Dumped {
    Dumped(out + d.text, d.failed, d.indent)
  }

  lemma LeafAppends(show: Show, s: Statement, out: string)
    requires Leaf(s)
    ensures LeafAfter(show, s, out) == Shifted(out, LeafAfter(show, s, ""))
  {
    if s.Assignment? {
      AssignmentAppends(show, s, out);
    } else if s.ArrayAssignment? {
      ArrayAssignmentAppends(show, s, out);
    } else if s.Ctrl? {
      CtrlAppends(show, s, out);
    } else {
      SimpleLeafAppends(show, s, out);
    }
  }

  lemma AssignmentAppends(show: Show, s: Statement, out: string)
    requires s.Assignment?
    ensures LeafAfter(show, s, out) == Shifted(out, LeafAfter(show, s, ""))
  {
    var name := IdentifierText(s.hash, s.flags);
    if name.Ok? {
      var v := name.value;
      var op := " " + BinaryOperator(s.operation) + "= ";
      assert "" + v == v;
      Assoc(out, v, op);
      ExpressionAppends(show, s.value, out + v + op);
      ExpressionAppends(show, s.value, "" + v + op);
      var e := ExpressionAfter(show, s.value, "");
      Assoc(out, v + op, e.text);
      Assoc(out, v + op + e.text, ";");
    }
  }

  lemma ArrayAssignmentAppends(show: Show, s: Statement, out: string)
    requires s.ArrayAssignment?
    ensures LeafAfter(show, s, out) == Shifted(out, LeafAfter(show, s, ""))
  {
    var name := IdentifierText(s.hash, s.flags);
    if name.Ok? {
      var v := name.value;
      assert "" + v == v;
      Assoc(out, v, "[");
      ListAppends(show, s.indices, false, out + v + "[");
      ListAppends(show, s.indices, false, "" + v + "[");
      var l := ListAfter(show, s.indices, false, "");
      Assoc(out, v + "[", l.text);
      if l.failed.None? {
        var op := "] " + BinaryOperator(s.operation) + "= ";
        Assoc(out, v + "[" + l.text, op);
        ExpressionAppends(show, s.value, out + v + "[" + l.text + op);
        ExpressionAppends(show, s.value, "" + v + "[" + l.text + op);
        var e := ExpressionAfter(show, s.value, "");
        Assoc(out, v + "[" + l.text + op, e.text);
        Assoc(out, v + "[" + l.text + op + e.text, ";");
      }
    }
  }

  lemma CtrlAppends(show: Show, s: Statement, out: string)
    requires s.Ctrl?
    ensures LeafAfter(show, s, out) == Shifted(out, LeafAfter(show, s, ""))
  {
    assert "" + "ctrl(" == "ctrl(";
    var q := QuotedText(show, s.controlCode);
    if q.Ok? {
      Assoc(out, "ctrl(", q.value);
      ListAppends(show, s.operands, true, out + "ctrl(" + q.value);
      ListAppends(show, s.operands, true, "" + "ctrl(" + q.value);
      var l := ListAfter(show, s.operands, true, "");
      Assoc(out, "ctrl(" + q.value, l.text);
      Assoc(out, "ctrl(" + q.value + l.text, ");");
    }
  }

  lemma SimpleLeafAppends(show: Show, s: Statement, out: string)
    requires s.CallStatement? || s.Return? || s.Text? || s.Proc?
    ensures LeafAfter(show, s, out) == Shifted(out, LeafAfter(show, s, ""))
  {
    if s.CallStatement? {
      CallAppends(show, s.call, out);
      Assoc(out, CallAfter(show, s.call, "").text, ";");
    } else if s.Return? {
      assert "" + "return" == "return";
      Assoc(out, "return", ";");
      Assoc(out, "return", " ");
      if s.returnValue.Some? {
        ExpressionAppends(show, s.returnValue.value, out + "return" + " ");
        ExpressionAppends(show, s.returnValue.value, "" + "return" + " ");
        var e := ExpressionAfter(show, s.returnValue.value, "");
        Assoc(out, "return" + " ", e.text);
        Assoc(out, "return" + " " + e.text, ";");
      }
    } else if s.Text? {
      assert "" + "text(" == "text(";
      var q := QuotedText(show, s.textBytes);
      if q.Ok? {
        Assoc(out, "text(", q.value);
        Assoc(out, "text(" + q.value, ");");
      }
    } else {
      assert "" + "proc;" == "proc;";
    }
  }

  /** A statement adds the same text, and leaves the same indent, whatever was written before it. */
  lemma {:induction false} StatementAppends(show: Show, s: Statement, out: string, indent: string)
    ensures StatementAfter(show, s, out, indent) == ShiftedDump(out, StatementAfter(show, s, "", indent))
    decreases s, 1
  {
    if s.Block? {
      BlockAppends(show, s.statements, out, indent);
    } else if s.Destructor? {
      assert "" + "destructor " == "destructor ";
      BlockAppends(show, s.statements, out + "destructor ", indent);
      BlockAppends(show, s.statements, "" + "destructor ", indent);
      Assoc(out, "destructor ", BlockAfter(show, s.statements, "", indent).text);
    } else if s.If? {
      IfAppends(show, s, out, indent);
    } else {
      LeafAppends(show, s, out);
    }
  }

  lemma {:induction false} IfAppends(show: Show, s: Statement, out: string, indent: string)
    requires s.If?
    ensures StatementAfter(show, s, out, indent) == ShiftedDump(out, StatementAfter(show, s, "", indent))
    decreases s, 0
  {
    assert "" + "if(" == "if(";
    ExpressionAppends(show, s.condition, out + "if(");
    ExpressionAppends(show, s.condition, "" + "if(");
    var c := ExpressionAfter(show, s.condition, "");
    Assoc(out, "if(", c.text);
    if c.failed.None? {
      var head := "if(" + c.text + ") ";
      Assoc(out, "if(" + c.text, ") ");
      BlockAppends(show, s.thenBranch, out + head, indent);
      BlockAppends(show, s.thenBranch, "" + "if(" + c.text + ") ", indent);
      var t := BlockAfter(show, s.thenBranch, "", indent);
      Assoc(out, head, t.text);
      if t.failed.None? && s.elseBranch.ElseBlock? {
        var x := head + t.text;
        Assoc(out, x, "\n");
        Assoc(out, x + "\n", indent);
        Assoc(out, x + "\n" + indent, "else ");
        BlockAppends(show, s.elseBranch.statements, out + x + "\n" + indent + "else ", indent);
        BlockAppends(show, s.elseBranch.statements, x + "\n" + indent + "else ", indent);
        Assoc(out, x + "\n" + indent + "else ", BlockAfter(show, s.elseBranch.statements, "", indent).text);
      }
    }
  }

  lemma {:induction false} StatementsAppends(show: Show, statements: seq<Statement>, out: string, inner: string)
    ensures StatementsAfter(show, statements, out, inner) == ShiftedDump(out, StatementsAfter(show, statements, "", inner))
    decreases statements, 0
  {
    var n := |statements|;
    if n == 0 {
      assert out + "" == out;
    } else {
      StatementsAppends(show, statements[..n - 1], out, inner);
      var front := StatementsAfter(show, statements[..n - 1], "", inner);
      if front.failed.None? {
        var at := front.text + "\n" + inner;
        Assoc(out, front.text, "\n");
        Assoc(out, front.text + "\n", inner);
        StatementAppends(show, statements[n - 1], out + at, inner);
        StatementAppends(show, statements[n - 1], at, inner);
        Assoc(out, at, StatementAfter(show, statements[n - 1], "", inner).text);
      }
    }
  }

  lemma {:induction false} BlockAppends(show: Show, statements: seq<Statement>, out: string, indent: string)
    ensures BlockAfter(show, statements, out, indent) == ShiftedDump(out, BlockAfter(show, statements, "", indent))
    decreases statements, 1
  {
    assert "" + "{" == "{";
    StatementsAppends(show, statements, out + "{", indent + "  ");
    StatementsAppends(show, statements, "" + "{", indent + "  ");
    var b := StatementsAfter(show, statements, "", indent + "  ");
    Assoc(out, "{", b.text);
    Assoc(out, "{" + b.text, "\n");
    Assoc(out, "{" + b.text + "\n", indent);
    Assoc(out, "{" + b.text + "\n" + indent, "}");
  }

  /** Once a statement has thrown, the rest of the loop writes nothing. */
  lemma {:induction false} StatementsStop(show: Show, statements: seq<Statement>, out: string, inner: string, i: nat)
    requires i <= |statements| && StatementsAfter(show, statements[..i], out, inner).failed.Some?
    ensures StatementsAfter(show, statements, out, inner) == StatementsAfter(show, statements[..i], out, inner)
    decreases |statements| - i
  {
    if i < |statements| {
      assert statements[..i + 1][..i] == statements[..i];
      StatementsStop(show, statements, out, inner, i + 1);
    } else {
      assert statements[..i] == statements;
    }
  }

  /** The else part is written exactly when the statement has one, after the then branch. */
  lemma ElseOnlyWhenPresent(show: Show, condition: Expression, thenBranch: seq<Statement>,
                            elseBranch: seq<Statement>, indent: string)
    requires StatementAfter(show, If(condition, thenBranch, NoElse), "", indent).failed.None?
    ensures StatementAfter(show, If(condition, thenBranch, ElseBlock(elseBranch)), "", indent).text ==
              StatementAfter(show, If(condition, thenBranch, NoElse), "", indent).text +
              "\n" + indent + "else " + BlockAfter(show, elseBranch, "", indent).text
  {
    var t := StatementAfter(show, If(condition, thenBranch, NoElse), "", indent);
    BlockAppends(show, elseBranch, t.text + "\n" + indent + "else ", indent);
  }

  /** `return` writes a value exactly when the statement has one. */
  lemma ReturnValueOnlyWhenPresent(show: Show, value: Expression)
    ensures LeafAfter(show, Return(None), "") == Plain("return;")
    ensures ExpressionAfter(show, value, "").failed.None? ==>
              LeafAfter(show, Return(Some(value)), "") == Plain("return " + ExpressionAfter(show, value, "").text + ";")
    ensures ExpressionAfter(show, value, "").failed.Some? ==>
              LeafAfter(show, Return(Some(value)), "") == Shifted("return ", ExpressionAfter(show, value, ""))
  {
    assert "" + "return" + ";" == "return;";
    assert "" + "return" + " " == "return ";
    ExpressionAppends(show, value, "return ");
  }

  /** An assignment prints `name op= value;`, so the plain assignment reads `name = value;`. */
  lemma AssignmentLayout(show: Show, value: Expression, hash: bv32, flags: MjoFlags, t: MjoType, op: BinaryOperation)
    requires IdentifierText(hash, flags).Ok? && ExpressionAfter(show, value, "").failed.None?
    ensures LeafAfter(show, Assignment(value, hash, flags, t, op), "") ==
              Plain(IdentifierText(hash, flags).value + (" " + BinaryOperator(op) + "= ") +
                    ExpressionAfter(show, value, "").text + ";")
    ensures op == NoOperation ==> " " + BinaryOperator(op) + "= " == " = "
  {
    var name := IdentifierText(hash, flags).value;
    assert "" + name == name;
    ExpressionAppends(show, value, name + (" " + BinaryOperator(op) + "= "));
  }

  // ---------------------------------------------------------------------------------------
  // Layout: one statement per line, each line opened by the indent

  predicate Unbroken(s: string) {
    '\n' !in s
  }

  /** The texts the printer takes from outside hold no line break. */
  ghost predicate SingleLine(show: Show) {
    && (forall bits: bv32 :: Unbroken(show.floatText(bits)))
    && (forall text :: show.escape(text).Ok? ==> Unbroken(show.escape(text).value))
    && (forall h | h in show.syscallNames :: Unbroken(show.syscallNames[h]))
    && (forall h | h in show.functionNames :: Unbroken(show.functionNames[h]))
  }

  /** Every line break in the text is followed by the indent. */
  predicate Indented(text: string, indent: string) {
    forall k | 0 <= k < |text| && text[k] == '\n' :: indent <= text[k + 1..]
  }

  lemma IndentedJoin(a: string, b: string, indent: string)
    requires Indented(a, indent) && Indented(b, indent)
    ensures Indented(a + b, indent)
  {
    forall k | 0 <= k < |a + b| && (a + b)[k] == '\n'
      ensures indent <= (a + b)[k + 1..]
    {
      if k < |a| {
        assert a[k] == '\n';
        assert (a + b)[k + 1..] == a[k + 1..] + b;
        assert (a[k + 1..] + b)[..|indent|] == a[k + 1..][..|indent|];
      } else {
        assert b[k - |a|] == '\n';
        assert (a + b)[k + 1..] == b[k - |a| + 1..];
      }
    }
  }

  /** A line break followed by an indent without line breaks. */
  lemma BreakIndented(indent: string)
    requires Unbroken(indent)
    ensures Indented("\n" + indent, indent)
  {
    assert ("\n" + indent)[1..] == indent;
    forall k | 0 < k < |"\n" + indent|
      ensures ("\n" + indent)[k] != '\n'
    {
      assert ("\n" + indent)[k] == indent[k - 1];
    }
  }

  /** Lines indented deeper are indented. */
  lemma DeeperIndented(text: string, indent: string, more: string)
    requires Indented(text, indent + more)
    ensures Indented(text, indent)
  {
    forall k | 0 <= k < |text| && text[k] == '\n' ensures indent <= text[k + 1..] {
      assert (indent + more)[..|indent|] == indent;
    }
  }

  lemma DecimalUnbroken(v: int)
    ensures Unbroken(Numerals.DecimalText(v))
  {
    var m: nat := if v < 0 then -v else v;
    Numerals.DecimalDigitsValue(m);
    var digits := Numerals.DecimalDigits(m);
    assert forall k | 0 <= k < |digits| :: Numerals.IsDecimalDigit(digits[k]);
  }

  lemma HexUnbroken(v: bv32)
    ensures Unbroken(Numerals.Hex8(v as nat))
  {
    var hex := Numerals.Hex8(v as nat);
    assert forall k | 0 <= k < |hex| :: Numerals.IsHexDigit(hex[k]);
  }

  lemma IdentifierUnbroken(hash: bv32, flags: MjoFlags)
    ensures IdentifierText(hash, flags).Ok? ==> Unbroken(IdentifierText(hash, flags).value)
  {
    match ScopeChar(Scope(flags))
    case Err(_) =>
    case Ok(c) =>
      match TypeSuffix(Type(flags))
      case Err(_) =>
      case Ok(suffix) =>
        var hex := Numerals.Hex8(hash as nat);
        HexUnbroken(hash);
        assert Unbroken([c] + "{");
        UnbrokenJoin([c] + "{", hex);
        UnbrokenJoin([c] + "{" + hex, "}");
        UnbrokenJoin([c] + "{" + hex + "}", suffix);
  }

  lemma TypeNameUnbroken(t: MjoType)
    ensures Unbroken(TypeName(t))
  {
    DecimalUnbroken(t as int);
  }

  /** Writing an expression begun on an unbroken line adds no line break, when the outside texts have none. */
  lemma {:induction false} ExpressionUnbroken(show: Show, e: Expression, out: string)
    requires SingleLine(show) && Unbroken(out)
    ensures Unbroken(ExpressionAfter(show, e, out).text)
    decreases e, 1
  {
    if e.Binary? || e.Unary? || e.Cast? {
      NestedUnbroken(show, e, out);
    } else if e.ArrayAccess? {
      ArrayAccessUnbroken(show, e, out);
    } else if e.CallExpression? {
      CallUnbroken(show, e.call, out);
    } else {
      LiteralUnbroken(show, e, out);
    }
  }

  lemma {:induction false} ArrayAccessUnbroken(show: Show, e: Expression, out: string)
    requires SingleLine(show) && Unbroken(out)
    requires e.ArrayAccess?
    ensures Unbroken(ExpressionAfter(show, e, out).text)
    decreases e, 0
  {
    var text := IdentifierText(e.hash, e.flags);
    if text.Ok? {
      IdentifierUnbroken(e.hash, e.flags);
      LoadAffixesUnbroken(e.flags);
      UnbrokenJoin(out, LoadPrefix(e.flags));
      UnbrokenJoin(out + LoadPrefix(e.flags), text.value);
      ListUnbroken(show, e.indices, false, out + LoadPrefix(e.flags) + text.value + "[");
      var l := ListAfter(show, e.indices, false, out + LoadPrefix(e.flags) + text.value + "[");
      if l.failed.None? {
        UnbrokenJoin(l.text, "]");
        UnbrokenJoin(l.text + "]", LoadSuffix(e.flags));
      }
    }
  }

  lemma LiteralUnbroken(show: Show, e: Expression, out: string)
    requires SingleLine(show) && Unbroken(out)
    requires e.Identifier? || e.LiteralInt? || e.LiteralFloat? || e.LiteralString?
    ensures Unbroken(ExpressionAfter(show, e, out).text)
  {
    if e.Identifier? {
      IdentifierLoadUnbroken(show, e, out);
    } else if e.LiteralInt? {
      DecimalUnbroken(e.intValue);
      assert ExpressionAfter(show, e, out).text == out + Numerals.DecimalText(e.intValue);
    } else if e.LiteralFloat? {
      assert Unbroken(show.floatText(e.floatBits));
      assert ExpressionAfter(show, e, out).text == out + show.floatText(e.floatBits);
    } else {
      StringLiteralUnbroken(show, e, out);
    }
  }

  lemma IdentifierLoadUnbroken(show: Show, e: Expression, out: string)
    requires Unbroken(out) && e.Identifier?
    ensures Unbroken(ExpressionAfter(show, e, out).text)
  {
    var name := IdentifierText(e.hash, e.flags);
    if name.Ok? {
      IdentifierUnbroken(e.hash, e.flags);
      LoadAffixesUnbroken(e.flags);
      UnbrokenJoin(out, LoadPrefix(e.flags));
      UnbrokenJoin(out + LoadPrefix(e.flags), name.value);
      UnbrokenJoin(out + LoadPrefix(e.flags) + name.value, LoadSuffix(e.flags));
    }
  }

  /** Two texts without line breaks joined have none. */
  lemma UnbrokenJoin(a: string, b: string)
    requires Unbroken(a) && Unbroken(b)
    ensures Unbroken(a + b)
  {
  }

  /** The invert sign and the increments around a load hold no line break. */
  lemma LoadAffixesUnbroken(flags: MjoFlags)
    ensures Unbroken(LoadPrefix(flags)) && Unbroken(LoadSuffix(flags))
  {
    UnbrokenJoin(InvertText(flags), if Modifier(flags) == PreIncrement then "++" else if Modifier(flags) == PreDecrement then "--" else "");
  }

  lemma StringLiteralUnbroken(show: Show, e: Expression, out: string)
    requires SingleLine(show) && Unbroken(out) && e.LiteralString?
    ensures Unbroken(ExpressionAfter(show, e, out).text)
  {
    if show.escape(e.text).Ok? {
      var v := show.escape(e.text).value;
      assert Unbroken(v);
      assert ExpressionAfter(show, e, out).text == out + ("\"" + v + "\"");
    }
  }

  lemma {:induction false} NestedUnbroken(show: Show, e: Expression, out: string)
    requires SingleLine(show) && Unbroken(out)
    requires e.Binary? || e.Unary? || e.Cast?
    ensures Unbroken(ExpressionAfter(show, e, out).text)
    decreases e, 0
  {
    if e.Binary? {
      ExpressionUnbroken(show, e.left, out + "(");
      var l := ExpressionAfter(show, e.left, out + "(");
      if l.failed.None? {
        ExpressionUnbroken(show, e.right, l.text + (" " + BinaryOperator(e.binaryOperation) + " "));
      }
    } else if e.Unary? {
      ExpressionUnbroken(show, e.operand, out + (" " + UnaryOperator(e.unaryOperation) + "("));
    } else {
      TypeNameUnbroken(e.targetType);
      ExpressionUnbroken(show, e.operand, out + ("(" + TypeName(e.targetType) + ")"));
    }
  }

  lemma {:induction false} CallUnbroken(show: Show, call: Call, out: string)
    requires SingleLine(show) && Unbroken(out)
    ensures Unbroken(CallAfter(show, call, out).text)
    decreases call, 3
  {
    HexUnbroken(call.hash);
    ListUnbroken(show, call.arguments, false, out + ("$" + CallName(show, call) + "("));
  }

  lemma {:induction false} ListUnbroken(show: Show, operands: seq<Expression>, lead: bool, out: string)
    requires SingleLine(show) && Unbroken(out)
    ensures Unbroken(ListAfter(show, operands, lead, out).text)
    decreases operands, 2
  {
    var n := |operands|;
    if n > 0 {
      ListUnbroken(show, operands[..n - 1], lead, out);
      var front := ListAfter(show, operands[..n - 1], lead, out);
      if front.failed.None? {
        ExpressionUnbroken(show, operands[n - 1], if n > 1 || lead then front.text + ", " else front.text);
      }
    }
  }

  lemma LeafUnbroken(show: Show, s: Statement, out: string)
    requires SingleLine(show) && Unbroken(out) && Leaf(s)
    ensures Unbroken(LeafAfter(show, s, out).text)
  {
    if s.Assignment? || s.ArrayAssignment? {
      AssignmentUnbroken(show, s, out);
    } else if s.CallStatement? {
      CallUnbroken(show, s.call, out);
    } else if s.Return? {
      if s.returnValue.Some? {
        ExpressionUnbroken(show, s.returnValue.value, out + "return" + " ");
      }
    } else if s.Ctrl? {
      var q := Emit(out + "ctrl(", QuotedText(show, s.controlCode));
      if q.failed.None? {
        ListUnbroken(show, s.operands, true, q.text);
      }
    }
  }

  lemma AssignmentUnbroken(show: Show, s: Statement, out: string)
    requires SingleLine(show) && Unbroken(out)
    requires s.Assignment? || s.ArrayAssignment?
    ensures Unbroken(LeafAfter(show, s, out).text)
  {
    IdentifierUnbroken(s.hash, s.flags);
    if s.Assignment? {
      ScalarAssignmentUnbroken(show, s, out);
    } else {
      ArrayAssignmentUnbroken(show, s, out);
    }
  }

  /** The operator of an assignment, with the text around it, holds no line break. */
  lemma OperatorUnbroken(op: BinaryOperation)
    ensures Unbroken(" " + BinaryOperator(op) + "= ") && Unbroken("] " + BinaryOperator(op) + "= ")
  {
    assert Unbroken(BinaryOperator(op));
    UnbrokenJoin(" ", BinaryOperator(op));
    UnbrokenJoin(" " + BinaryOperator(op), "= ");
    UnbrokenJoin("] ", BinaryOperator(op));
    UnbrokenJoin("] " + BinaryOperator(op), "= ");
  }

  lemma ScalarAssignmentUnbroken(show: Show, s: Statement, out: string)
    requires SingleLine(show) && Unbroken(out) && s.Assignment?
    requires IdentifierText(s.hash, s.flags).Ok? ==> Unbroken(IdentifierText(s.hash, s.flags).value)
    ensures Unbroken(LeafAfter(show, s, out).text)
  {
    var name := Emit(out, IdentifierText(s.hash, s.flags));
    if name.failed.None? {
      UnbrokenJoin(out, IdentifierText(s.hash, s.flags).value);
      OperatorUnbroken(s.operation);
      UnbrokenJoin(name.text, " " + BinaryOperator(s.operation) + "= ");
      ExpressionUnbroken(show, s.value, name.text + (" " + BinaryOperator(s.operation) + "= "));
      var v := ExpressionAfter(show, s.value, name.text + (" " + BinaryOperator(s.operation) + "= "));
      if v.failed.None? {
        UnbrokenJoin(v.text, ";");
      }
    }
  }

  lemma ArrayAssignmentUnbroken(show: Show, s: Statement, out: string)
    requires SingleLine(show) && Unbroken(out) && s.ArrayAssignment?
    requires IdentifierText(s.hash, s.flags).Ok? ==> Unbroken(IdentifierText(s.hash, s.flags).value)
    ensures Unbroken(LeafAfter(show, s, out).text)
  {
    var name := Emit(out, IdentifierText(s.hash, s.flags));
    if name.failed.None? {
      UnbrokenJoin(out, IdentifierText(s.hash, s.flags).value);
      UnbrokenJoin(name.text, "[");
      ListUnbroken(show, s.indices, false, name.text + "[");
      var l := ListAfter(show, s.indices, false, name.text + "[");
      if l.failed.None? {
        OperatorUnbroken(s.operation);
        UnbrokenJoin(l.text, "] " + BinaryOperator(s.operation) + "= ");
        ExpressionUnbroken(show, s.value, l.text + ("] " + BinaryOperator(s.operation) + "= "));
        var v := ExpressionAfter(show, s.value, l.text + ("] " + BinaryOperator(s.operation) + "= "));
        if v.failed.None? {
          UnbrokenJoin(v.text, ";");
        }
      }
    }
  }

  /** Text without line breaks keeps the lines indented. */
  lemma AppendUnbroken(out: string, more: string, indent: string)
    requires Indented(out, indent) && Unbroken(more)
    ensures Indented(out + more, indent)
  {
    IndentedJoin(out, more, indent);
  }

  /**
   * One statement per line: writing a statement at an indent keeps every line break followed by
   * that indent (nested lines by a deeper one), when the outside texts and the indent hold no
   * line break.
   */
  lemma {:induction false} StatementIndented(show: Show, s: Statement, out: string, indent: string)
    requires SingleLine(show) && Unbroken(indent) && Indented(out, indent)
    ensures Indented(StatementAfter(show, s, out, indent).text, indent)
    decreases s, 1
  {
    match s
    case Block(statements) =>
      BlockIndented(show, statements, out, indent);
    case Destructor(statements) =>
      AppendUnbroken(out, "destructor ", indent);
      BlockIndented(show, statements, out + "destructor ", indent);
    case If(_, _, _) =>
      IfIndented(show, s, out, indent);
    case _ =>
      LeafAppends(show, s, out);
      LeafUnbroken(show, s, "");
      AppendUnbroken(out, LeafAfter(show, s, "").text, indent);
  }

  lemma {:induction false} IfIndented(show: Show, s: Statement, out: string, indent: string)
    requires SingleLine(show) && Unbroken(indent) && Indented(out, indent) && s.If?
    ensures Indented(StatementAfter(show, s, out, indent).text, indent)
    decreases s, 0
  {
    ExpressionAppends(show, s.condition, out + "if(");
    ExpressionUnbroken(show, s.condition, "");
    var c := ExpressionAfter(show, s.condition, "").text;
    AppendUnbroken(out, "if(", indent);
    AppendUnbroken(out + "if(", c, indent);
    if ExpressionAfter(show, s.condition, "").failed.None? {
      AppendUnbroken(out + "if(" + c, ") ", indent);
      BlockIndented(show, s.thenBranch, out + "if(" + c + ") ", indent);
      var t := BlockAfter(show, s.thenBranch, out + "if(" + c + ") ", indent);
      if t.failed.None? && s.elseBranch.ElseBlock? {
        BreakIndented(indent);
        IndentedJoin(t.text, "\n" + indent, indent);
        AppendUnbroken(t.text + "\n" + indent, "else ", indent);
        BlockIndented(show, s.elseBranch.statements, t.text + "\n" + indent + "else ", indent);
      }
    }
  }

  lemma {:induction false} StatementsIndented(show: Show, statements: seq<Statement>, out: string, inner: string)
    requires SingleLine(show) && Unbroken(inner) && Indented(out, inner)
    ensures Indented(StatementsAfter(show, statements, out, inner).text, inner)
    decreases statements, 0
  {
    var n := |statements|;
    if n > 0 {
      StatementsIndented(show, statements[..n - 1], out, inner);
      var front := StatementsAfter(show, statements[..n - 1], out, inner);
      if front.failed.None? {
        BreakIndented(inner);
        IndentedJoin(front.text, "\n" + inner, inner);
        StatementIndented(show, statements[n - 1], front.text + "\n" + inner, inner);
      }
    }
  }

  lemma {:induction false} BlockIndented(show: Show, statements: seq<Statement>, out: string, indent: string)
    requires SingleLine(show) && Unbroken(indent) && Indented(out, indent)
    ensures Indented(BlockAfter(show, statements, out, indent).text, indent)
    decreases statements, 1
  {
    var inner := indent + "  ";
    assert Unbroken(inner);
    StatementsAppends(show, statements, out + "{", inner);
    var body := StatementsAfter(show, statements, "", inner);
    StatementsIndented(show, statements, "", inner);
    DeeperIndented(body.text, indent, "  ");
    AppendUnbroken(out, "{", indent);
    IndentedJoin(out + "{", body.text, indent);
    if body.failed.None? {
      BreakIndented(indent);
      IndentedJoin(out + "{" + body.text, "\n" + indent, indent);
      AppendUnbroken(out + "{" + body.text + "\n" + indent, "}", indent);
    }
  }

  // ---------------------------------------------------------------------------------------
  // The visitor

  /** `DumpVisitor`, with the text its writer has received. */
  class Dumper {
    /** `_indent`: two spaces per open block. */
    var indent: string
    /** Everything written so far, without the colours. */
    var output: string

    constructor()
      ensures indent == "" && output == ""
    {
      indent := "";
      output := "";
    }

    /** `writer.Write` and `WritePunctuation`. */
    method Write(text: string)
      modifies this`output
      ensures output == old(output) + text
    {
      output := output + text;
    }

    /** `WriteNewline`: a line break, then the current indent. */
    method WriteNewline()
      modifies this`output
      ensures output == old(output) + "\n" + indent
    {
      output := output + "\n" + indent;
    }

    method Indent()
      modifies this`indent
      ensures indent == old(indent) + "  "
    {
      indent := indent + "  ";
    }

    /** The visits only unindent what they indented, so the two spaces are there. */
    method Unindent()
      requires |indent| >= 2
      modifies this`indent
      ensures indent == old(indent)[..|old(indent)| - 2]
    {
      indent := indent[..|indent| - 2];
    }

    /** Writes a piece computed before any of it is written: an identifier or a quoted string. */
    method WritePiece(piece: Result<string>) returns (failed: Option<Error>)
      modifies this`output
      ensures Printed(output, failed) == Emit(old(output), piece)
    {
      if piece.Err? {
        return Some(piece.error);
      }
      Write(piece.value);
      failed := None;
    }

    method VisitExpression(show: Show, e: Expression) returns (failed: Option<Error>)
      modifies this`output
      ensures Printed(output, failed) == ExpressionAfter(show, e, old(output))
      decreases e, 1
    {
      if e.Binary? {
        Write("(");
        failed := VisitExpression(show, e.left);
        if failed.Some? { return; }
        Write(" " + BinaryOperator(e.binaryOperation) + " ");
        failed := VisitExpression(show, e.right);
        if failed.Some? { return; }
        Write(")");
      } else if e.Unary? {
        Write(" " + UnaryOperator(e.unaryOperation) + "(");
        failed := VisitExpression(show, e.operand);
        if failed.Some? { return; }
        Write(")");
      } else if e.Cast? {
        Write("(" + TypeName(e.targetType) + ")");
        failed := VisitExpression(show, e.operand);
      } else if e.Identifier? || e.ArrayAccess? {
        failed := VisitLoad(show, e);
      } else if e.LiteralInt? {
        Write(Numerals.DecimalText(e.intValue));
        failed := None;
      } else if e.LiteralFloat? {
        Write(show.floatText(e.floatBits));
        failed := None;
      } else if e.LiteralString? {
        failed := WritePiece(QuotedText(show, e.text));
      } else {
        failed := VisitCall(show, e.call);
      }
    }

    /** `Visit(Identifier)` and `Visit(ArrayAccess)`. */
    method VisitLoad(show: Show, e: Expression) returns (failed: Option<Error>)
      requires e.Identifier? || e.ArrayAccess?
      modifies this`output
      ensures Printed(output, failed) == ExpressionAfter(show, e, old(output))
      decreases e, 0
    {
      Write(LoadPrefix(e.flags));
      failed := WritePiece(IdentifierText(e.hash, e.flags));
      if failed.Some? { return; }
      if e.ArrayAccess? {
        Write("[");
        failed := VisitList(show, e.indices, false);
        if failed.Some? { return; }
        Write("]");
      }
      Write(LoadSuffix(e.flags));
    }

    method VisitCall(show: Show, call: Call) returns (failed: Option<Error>)
      modifies this`output
      ensures Printed(output, failed) == CallAfter(show, call, old(output))
      decreases call, 2
    {
      Write("$" + CallName(show, call) + "(");
      failed := VisitList(show, call.arguments, false);
      if failed.Some? { return; }
      Write(")");
    }

    /** The operand loops of `Visit(ArrayAccess)`, `Visit(Call)`, `Visit(ArrayAssignment)` and `Visit(CtrlStatement)`. */
    method VisitList(show: Show, operands: seq<Expression>, lead: bool) returns (failed: Option<Error>)
      modifies this`output
      ensures Printed(output, failed) == ListAfter(show, operands, lead, old(output))
      decreases operands, 1
    {
      failed := None;
      for i := 0 to |operands|
        invariant ListAfter(show, operands[..i], lead, old(output)) == Plain(output)
        invariant failed.None?
      {
        assert operands[..i + 1][..i] == operands[..i];
        if i != 0 || lead {
          Write(", ");
        }
        failed := VisitExpression(show, operands[i]);
        if failed.Some? {
          ListStops(show, operands, lead, old(output), i + 1);
          return;
        }
      }
      assert operands[..|operands|] == operands;
    }

    method VisitStatement(show: Show, s: Statement) returns (failed: Option<Error>)
      modifies this
      ensures Dumped(output, failed, indent) == StatementAfter(show, s, old(output), old(indent))
      decreases s, 1
    {
      if s.Block? {
        failed := VisitBlock(show, s.statements);
      } else if s.Destructor? {
        Write("destructor ");
        failed := VisitBlock(show, s.statements);
      } else if s.If? {
        failed := VisitIf(show, s);
      } else {
        failed := VisitLeaf(show, s);
      }
    }

    /** `Visit(IfStatement)`. */
    method VisitIf(show: Show, s: Statement) returns (failed: Option<Error>)
      requires s.If?
      modifies this
      ensures Dumped(output, failed, indent) == StatementAfter(show, s, old(output), old(indent))
      decreases s, 0
    {
      Write("if(");
      failed := VisitExpression(show, s.condition);
      if failed.Some? { return; }
      Write(") ");
      failed := VisitBlock(show, s.thenBranch);
      if failed.Some? || s.elseBranch.NoElse? { return; }
      WriteNewline();
      Write("else ");
      failed := VisitBlock(show, s.elseBranch.statements);
    }

    /** The statements without blocks. */
    method VisitLeaf(show: Show, s: Statement) returns (failed: Option<Error>)
      requires Leaf(s)
      modifies this`output
      ensures Printed(output, failed) == LeafAfter(show, s, old(output))
    {
      if s.Assignment? || s.ArrayAssignment? {
        failed := VisitAssignment(show, s);
      } else if s.CallStatement? {
        failed := VisitCall(show, s.call);
        if failed.Some? { return; }
        Write(";");
      } else if s.Return? {
        Write("return");
        if s.returnValue.Some? {
          Write(" ");
          failed := VisitExpression(show, s.returnValue.value);
          if failed.Some? { return; }
        }
        Write(";");
        failed := None;
      } else if s.Text? {
        Write("text(");
        failed := WritePiece(QuotedText(show, s.textBytes));
        if failed.Some? { return; }
        Write(");");
      } else if s.Ctrl? {
        Write("ctrl(");
        failed := WritePiece(QuotedText(show, s.controlCode));
        if failed.Some? { return; }
        failed := VisitList(show, s.operands, true);
        if failed.Some? { return; }
        Write(");");
      } else {
        Write("proc;");
        failed := None;
      }
    }

    /** `Visit(Assignment)` and `Visit(ArrayAssignment)`. */
    method VisitAssignment(show: Show, s: Statement) returns (failed: Option<Error>)
      requires s.Assignment? || s.ArrayAssignment?
      modifies this`output
      ensures Printed(output, failed) == LeafAfter(show, s, old(output))
    {
      var op := BinaryOperator(s.operation);
      failed := WritePiece(IdentifierText(s.hash, s.flags));
      if failed.Some? { return; }
      if s.ArrayAssignment? {
        Write("[");
        failed := VisitList(show, s.indices, false);
        if failed.Some? { return; }
        Write("] " + op + "= ");
      } else {
        Write(" " + op + "= ");
      }
      failed := VisitExpression(show, s.value);
      if failed.Some? { return; }
      Write(";");
    }

    /** `Visit(BlockStatement)`. */
    method VisitBlock(show: Show, statements: seq<Statement>) returns (failed: Option<Error>)
      modifies this
      ensures Dumped(output, failed, indent) == BlockAfter(show, statements, old(output), old(indent))
      decreases statements, 1
    {
      Write("{");
      failed := VisitBody(show, statements);
      if failed.Some? { return; }
      WriteNewline();
      Write("}");
    }

    /** The statement loop of a block or a function: one indent deeper, then back. */
    method VisitBody(show: Show, statements: seq<Statement>) returns (failed: Option<Error>)
      modifies this
      ensures output == StatementsAfter(show, statements, old(output), old(indent) + "  ").text
      ensures failed == StatementsAfter(show, statements, old(output), old(indent) + "  ").failed
      ensures indent == if failed.Some? then StatementsAfter(show, statements, old(output), old(indent) + "  ").indent
                        else old(indent)
      decreases statements, 0
    {
      var outer := indent;
      Indent();
      failed := None;
      for i := 0 to |statements|
        invariant indent == outer + "  "
        invariant failed.None?
        invariant StatementsAfter(show, statements[..i], old(output), outer + "  ") == Dumped(output, None, indent)
      {
        assert statements[..i + 1][..i] == statements[..i];
        WriteNewline();
        failed := VisitStatement(show, statements[i]);
        if failed.Some? {
          StatementsStop(show, statements, old(output), outer + "  ", i + 1);
          return;
        }
      }
      assert statements[..|statements|] == statements;
      Unindent();
      assert indent == outer;
    }

    /** `Visit(FunctionNode)`. */
    method VisitFunction(show: Show, f: FunctionNode) returns (failed: Option<Error>)
      modifies this
      ensures Dumped(output, failed, indent) == FunctionAfter(show, f, old(output), old(indent))
    {
      Write("func $" + Numerals.Hex8(f.hash as nat) + "(...) {");
      failed := VisitBody(show, f.statements);
      if failed.Some? { return; }
      WriteNewline();
      Write("}");
      WriteNewline();
    }
  }
}
