// The disassembler reads back what the assembler writes. For an instruction whose lengths fit
// the `(ushort)` counts the encoder writes, decoding its bytes at any position yields an
// instruction that carries, for every letter of its encoding, the operand the original held,
// at the position where it was written and with the size it occupies.

module Codec {
  import opened Wrappers
  import opened Bytes
  import opened Instructions
  import opened Bytecode
  import opened Encoder

  /** The lengths the `(ushort)` casts of the encoder keep intact. */
  predicate Fits(ins: Instruction) {
    |ins.typeList| < 0x1_0000 &&
    (ins.str.Some? ==> |ins.str.value| + 1 < 0x1_0000) &&
    (ins.switchOffsets.Some? ==> |ins.switchOffsets.value| < 0x1_0000)
  }

  /** dst with the operand field that letter names taken from src; '0' names no field. */
  function CarryOperand(src: Instruction, dst: Instruction, letter: char): (r: Instruction)
    ensures r.opcode == dst.opcode && r.offset == dst.offset && r.size == dst.size
  {
    dst.(typeList := if letter == 't' then src.typeList else dst.typeList,
         str := if letter == 's' then src.str else dst.str,
         flags := if letter == 'f' then src.flags else dst.flags,
         hash := if letter == 'h' then src.hash else dst.hash,
         varOffset := if letter == 'o' then src.varOffset else dst.varOffset,
         intValue := if letter == 'i' then src.intValue else dst.intValue,
         floatValue := if letter == 'r' then src.floatValue else dst.floatValue,
         argumentCount := if letter == 'a' then src.argumentCount else dst.argumentCount,
         jumpOffset := if letter == 'j' then src.jumpOffset else dst.jumpOffset,
         lineNumber := if letter == 'l' then src.lineNumber else dst.lineNumber,
         switchOffsets := if letter == 'c' then src.switchOffsets else dst.switchOffsets)
  }

  /** dst with the operand fields of the letters from k on taken from src. */
  function CarryFrom(src: Instruction, dst: Instruction, encoding: string, k: nat): (r: Instruction)
    requires k <= |encoding|
    ensures r.opcode == dst.opcode && r.offset == dst.offset && r.size == dst.size
    decreases |encoding| - k
  {
    if k == |encoding| then dst else CarryFrom(src, CarryOperand(src, dst, encoding[k]), encoding, k + 1)
  }

  // ---------------------------------------------------------------------------------------
  // Slices of written bytes

  lemma {:induction false} SliceSplit<T>(data: seq<T>, p: nat, a: seq<T>, b: seq<T>)
    requires p + |a| + |b| <= |data| && data[p .. p + |a + b|] == a + b
    ensures data[p .. p + |a|] == a && data[p + |a| .. p + |a| + |b|] == b
  {
    assert data[p .. p + |a|] == (a + b)[..|a|];
    assert data[p + |a| .. p + |a| + |b|] == (a + b)[|a|..];
  }

  lemma {:induction false} SliceSplit3<T>(data: seq<T>, p: nat, a: seq<T>, b: seq<T>, c: seq<T>)
    requires p + |a| + |b| + |c| <= |data| && data[p .. p + |a + b + c|] == a + b + c
    ensures data[p .. p + |a|] == a && data[p + |a| .. p + |a| + |b|] == b
    ensures data[p + |a| + |b| .. p + |a| + |b| + |c|] == c
  {
    SliceSplit(data, p, a + b, c);
    SliceSplit(data, p, a, b);
  }

  lemma {:induction false} UShortSmall(n: nat)
    requires n < 0x1_0000
    ensures UShort(n) == n
  {
  }

  /** A 16-bit read where a `Write(ushort)` put its bytes sees the value. */
  lemma {:induction false} ReadUInt16Written(data: seq<bv8>, p: nat, v: nat)
    requires v < 0x1_0000 && p + 2 <= |data| && data[p .. p + 2] == WriteUInt16(v)
    ensures ReadUnsigned(data, p, 2) == Ok(Read(v, p + 2))
  {
  }

  /** A byte read where a zero was written sees zero. */
  lemma {:induction false} ReadZeroWritten(data: seq<bv8>, p: nat)
    requires p + 1 <= |data| && data[p .. p + 1] == [0]
    ensures ReadUnsigned(data, p, 1) == Ok(Read(0, p + 1))
  {
    assert [0 as bv8][1..] == [];
  }

  /** A read of n bytes where n bytes w were written sees their value. */
  lemma {:induction false} ReadUnsignedWritten(data: seq<bv8>, p: nat, w: seq<bv8>)
    requires p + |w| <= |data| && data[p .. p + |w|] == w
    ensures ReadUnsigned(data, p, |w|) == Ok(Read(Unsigned(w), p + |w|))
  {
  }

  // ---------------------------------------------------------------------------------------
  // One operand: each reader, given the pieces its operand is made of

  lemma {:induction false} ReadTypeListParts(data: seq<bv8>, p: nat, ins: Instruction, types: seq<bv8>)
    requires p + 2 + |types| <= |data|
    requires ReadUnsigned(data, p, 2) == Ok(Read(|types|, p + 2))
    requires data[p + 2 .. p + 2 + |types|] == types
    ensures ReadTypeList(data, p, ins) == Ok(Read(ins.(typeList := types), p + 2 + |types|))
  {
  }

  lemma {:induction false} ReadStringParts(data: seq<bv8>, p: nat, ins: Instruction, bytes: seq<bv8>)
    requires p + 2 + |bytes| + 1 <= |data|
    requires ReadUnsigned(data, p, 2) == Ok(Read(|bytes| + 1, p + 2))
    requires data[p + 2 .. p + 2 + |bytes|] == bytes
    requires ReadUnsigned(data, p + 2 + |bytes|, 1) == Ok(Read(0, p + 2 + |bytes| + 1))
    ensures ReadString(data, p, ins) == Ok(Read(ins.(str := Some(bytes)), p + 2 + |bytes| + 1))
  {
    assert ReadBytes(data, p + 2, |bytes|) == Ok(Read(bytes, p + 2 + |bytes|));
  }

  lemma {:induction false} ReadSwitchCasesParts(data: seq<bv8>, p: nat, ins: Instruction, cases: seq<Int32>)
    requires p + 2 <= |data|
    requires ReadUnsigned(data, p, 2) == Ok(Read(|cases|, p + 2))
    requires ReadInt32s(data, p + 2, |cases|) == Ok(Read(cases, p + 2 + 4 * |cases|))
    ensures ReadSwitchCases(data, p, ins) == Ok(Read(ins.(switchOffsets := Some(cases)), p + 2 + 4 * |cases|))
  {
  }

  // ---------------------------------------------------------------------------------------
  // One operand: what was written is read back

  lemma {:induction false} TypeListRoundTrip(data: seq<bv8>, p: nat, src: Instruction, dst: Instruction)
    requires |src.typeList| < 0x1_0000
    requires p + |EncodeTypeList(src)| <= |data| && data[p .. p + |EncodeTypeList(src)|] == EncodeTypeList(src)
    ensures ReadTypeList(data, p, dst) == Ok(Read(dst.(typeList := src.typeList), p + |EncodeTypeList(src)|))
  {
    UShortSmall(|src.typeList|);
    var count := WriteUInt16(|src.typeList|);
    SliceSplit(data, p, count, src.typeList);
    ReadUInt16Written(data, p, |src.typeList|);
    ReadTypeListParts(data, p, dst, src.typeList);
  }

  lemma {:induction false} StringRoundTrip(data: seq<bv8>, p: nat, src: Instruction, dst: Instruction)
    requires src.str.Some? && |src.str.value| + 1 < 0x1_0000
    requires EncodeString(src).Ok?
    requires p + |EncodeString(src).value| <= |data| && data[p .. p + |EncodeString(src).value|] == EncodeString(src).value
    ensures ReadString(data, p, dst) == Ok(Read(dst.(str := src.str), p + |EncodeString(src).value|))
  {
    var b := src.str.value;
    UShortSmall(|b| + 1);
    var size := WriteUInt16(|b| + 1);
    SliceSplit3(data, p, size, b, [0]);
    ReadUInt16Written(data, p, |b| + 1);
    ReadZeroWritten(data, p + 2 + |b|);
    ReadStringParts(data, p, dst, b);
  }

  lemma {:induction false} Int32sRoundTrip(data: seq<bv8>, p: nat, vs: seq<Int32>)
    requires p + |WriteInt32s(vs)| <= |data| && data[p .. p + |WriteInt32s(vs)|] == WriteInt32s(vs)
    ensures ReadInt32s(data, p, |vs|) == Ok(Read(vs, p + 4 * |vs|))
    decreases |vs|
  {
    if |vs| > 0 {
      var w := WriteInt32(vs[0]);
      SliceSplit(data, p, w, WriteInt32s(vs[1..]));
      ReadUnsignedWritten(data, p, w);
      Int32sRoundTrip(data, p + 4, vs[1..]);
      Halves();
      assert [vs[0]] + vs[1..] == vs;
    }
  }

  lemma {:induction false} SwitchRoundTrip(data: seq<bv8>, p: nat, src: Instruction, dst: Instruction)
    requires src.switchOffsets.Some? && |src.switchOffsets.value| < 0x1_0000
    requires EncodeSwitchCases(src).Ok?
    requires p + |EncodeSwitchCases(src).value| <= |data|
    requires data[p .. p + |EncodeSwitchCases(src).value|] == EncodeSwitchCases(src).value
    ensures ReadSwitchCases(data, p, dst)
            == Ok(Read(dst.(switchOffsets := src.switchOffsets), p + |EncodeSwitchCases(src).value|))
  {
    var cases := src.switchOffsets.value;
    UShortSmall(|cases|);
    var count := WriteUInt16(|cases|);
    SliceSplit(data, p, count, WriteInt32s(cases));
    ReadUInt16Written(data, p, |cases|);
    Int32sRoundTrip(data, p + 2, cases);
    ReadSwitchCasesParts(data, p, dst, cases);
  }

  // ---------------------------------------------------------------------------------------
  // Fixed-width operands, one letter at a time

  lemma {:induction false} Bits16OfWord(b: bv16)
    ensures b as nat < 0x1_0000 && Bits16(b as nat) == b
  {
  }

  lemma {:induction false} Bits32OfWord(b: bv32)
    ensures b as nat < 0x1_0000_0000 && Bits32(b as nat) == b
  {
  }

  lemma {:induction false} FlagsRoundTrip(data: seq<bv8>, p: nat, src: Instruction, dst: Instruction)
    requires p + 2 <= |data| && data[p .. p + 2] == WriteUInt16(src.flags as nat)
    ensures ReadFixed(data, 'f', p, dst) == Ok(Read(dst.(flags := src.flags), p + 2))
  {
    Bits16OfWord(src.flags);
  }

  lemma {:induction false} HashRoundTrip(data: seq<bv8>, p: nat, src: Instruction, dst: Instruction)
    requires p + 4 <= |data| && data[p .. p + 4] == WriteUInt32(src.hash as nat)
    ensures ReadFixed(data, 'h', p, dst) == Ok(Read(dst.(hash := src.hash), p + 4))
  {
    Bits32OfWord(src.hash);
  }

  lemma {:induction false} FloatRoundTrip(data: seq<bv8>, p: nat, src: Instruction, dst: Instruction)
    requires p + 4 <= |data| && data[p .. p + 4] == WriteUInt32(src.floatValue as nat)
    ensures ReadFixed(data, 'r', p, dst) == Ok(Read(dst.(floatValue := src.floatValue), p + 4))
  {
    Bits32OfWord(src.floatValue);
  }

  lemma {:induction false} VarOffsetRoundTrip(data: seq<bv8>, p: nat, src: Instruction, dst: Instruction)
    requires p + 2 <= |data| && data[p .. p + 2] == WriteInt16(src.varOffset)
    ensures ReadFixed(data, 'o', p, dst) == Ok(Read(dst.(varOffset := src.varOffset), p + 2))
  {
  }

  lemma {:induction false} PlaceholderRoundTrip(data: seq<bv8>, p: nat, dst: Instruction)
    requires p + 4 <= |data| && data[p .. p + 4] == WriteInt32(0)
    ensures ReadFixed(data, '0', p, dst) == Ok(Read(dst, p + 4))
  {
  }

  lemma {:induction false} IntRoundTrip(data: seq<bv8>, p: nat, src: Instruction, dst: Instruction)
    requires p + 4 <= |data| && data[p .. p + 4] == WriteInt32(src.intValue)
    ensures ReadFixed(data, 'i', p, dst) == Ok(Read(dst.(intValue := src.intValue), p + 4))
  {
  }

  lemma {:induction false} JumpRoundTrip(data: seq<bv8>, p: nat, src: Instruction, dst: Instruction)
    requires src.jumpOffset.Some?
    requires p + 4 <= |data| && data[p .. p + 4] == WriteInt32(src.jumpOffset.value)
    ensures ReadFixed(data, 'j', p, dst) == Ok(Read(dst.(jumpOffset := src.jumpOffset), p + 4))
  {
  }

  lemma {:induction false} ArgumentCountRoundTrip(data: seq<bv8>, p: nat, src: Instruction, dst: Instruction)
    requires p + 2 <= |data| && data[p .. p + 2] == WriteUInt16(src.argumentCount)
    ensures ReadFixed(data, 'a', p, dst) == Ok(Read(dst.(argumentCount := src.argumentCount), p + 2))
  {
  }

  lemma {:induction false} LineNumberRoundTrip(data: seq<bv8>, p: nat, src: Instruction, dst: Instruction)
    requires p + 2 <= |data| && data[p .. p + 2] == WriteUInt16(src.lineNumber)
    ensures ReadFixed(data, 'l', p, dst) == Ok(Read(dst.(lineNumber := src.lineNumber), p + 2))
  {
  }

  // ---------------------------------------------------------------------------------------
  // The operand loop and the whole instruction

  /** An operand in the blob reads back as the operand src holds: the letter's field is carried over. */
  predicate ReadsBack(data: seq<bv8>, p: nat, letter: char, src: Instruction, dst: Instruction)
    requires EncodeOperand(src, letter).Ok?
  {
    p + |EncodeOperand(src, letter).value| <= |data| &&
    (data[p .. p + |EncodeOperand(src, letter).value|] == EncodeOperand(src, letter).value ==>
     ReadOperand(data, letter, p, dst)
     == Ok(Read(CarryOperand(src, dst, letter), p + |EncodeOperand(src, letter).value|)))
  }

  lemma {:induction false} TypeListReadsBack(data: seq<bv8>, p: nat, src: Instruction, dst: Instruction)
    requires Fits(src) && p + |EncodeOperand(src, 't').value| <= |data|
    ensures ReadsBack(data, p, 't', src, dst)
  {
    if data[p .. p + |EncodeOperand(src, 't').value|] == EncodeOperand(src, 't').value {
      TypeListRoundTrip(data, p, src, dst);
    }
  }

  lemma {:induction false} StringReadsBack(data: seq<bv8>, p: nat, src: Instruction, dst: Instruction)
    requires Fits(src) && EncodeOperand(src, 's').Ok? && p + |EncodeOperand(src, 's').value| <= |data|
    ensures ReadsBack(data, p, 's', src, dst)
  {
    if data[p .. p + |EncodeOperand(src, 's').value|] == EncodeOperand(src, 's').value {
      StringRoundTrip(data, p, src, dst);
    }
  }

  lemma {:induction false} SwitchReadsBack(data: seq<bv8>, p: nat, src: Instruction, dst: Instruction)
    requires Fits(src) && EncodeOperand(src, 'c').Ok? && p + |EncodeOperand(src, 'c').value| <= |data|
    ensures ReadsBack(data, p, 'c', src, dst)
  {
    if data[p .. p + |EncodeOperand(src, 'c').value|] == EncodeOperand(src, 'c').value {
      SwitchRoundTrip(data, p, src, dst);
    }
  }

  lemma {:induction false} FlagsReadsBack(data: seq<bv8>, p: nat, src: Instruction, dst: Instruction)
    requires EncodeOperand(src, 'f').Ok? && p + |EncodeOperand(src, 'f').value| <= |data|
    ensures ReadsBack(data, p, 'f', src, dst)
  {
    if data[p .. p + |EncodeOperand(src, 'f').value|] == EncodeOperand(src, 'f').value {
      FlagsRoundTrip(data, p, src, dst);
    }
  }

  lemma {:induction false} HashReadsBack(data: seq<bv8>, p: nat, src: Instruction, dst: Instruction)
    requires EncodeOperand(src, 'h').Ok? && p + |EncodeOperand(src, 'h').value| <= |data|
    ensures ReadsBack(data, p, 'h', src, dst)
  {
    if data[p .. p + |EncodeOperand(src, 'h').value|] == EncodeOperand(src, 'h').value {
      HashRoundTrip(data, p, src, dst);
    }
  }

  lemma {:induction false} VarOffsetReadsBack(data: seq<bv8>, p: nat, src: Instruction, dst: Instruction)
    requires EncodeOperand(src, 'o').Ok? && p + |EncodeOperand(src, 'o').value| <= |data|
    ensures ReadsBack(data, p, 'o', src, dst)
  {
    if data[p .. p + |EncodeOperand(src, 'o').value|] == EncodeOperand(src, 'o').value {
      VarOffsetRoundTrip(data, p, src, dst);
    }
  }

  lemma {:induction false} PlaceholderReadsBack(data: seq<bv8>, p: nat, src: Instruction, dst: Instruction)
    requires EncodeOperand(src, '0').Ok? && p + |EncodeOperand(src, '0').value| <= |data|
    ensures ReadsBack(data, p, '0', src, dst)
  {
    if data[p .. p + |EncodeOperand(src, '0').value|] == EncodeOperand(src, '0').value {
      PlaceholderRoundTrip(data, p, dst);
    }
  }

  lemma {:induction false} IntReadsBack(data: seq<bv8>, p: nat, src: Instruction, dst: Instruction)
    requires EncodeOperand(src, 'i').Ok? && p + |EncodeOperand(src, 'i').value| <= |data|
    ensures ReadsBack(data, p, 'i', src, dst)
  {
    if data[p .. p + |EncodeOperand(src, 'i').value|] == EncodeOperand(src, 'i').value {
      IntRoundTrip(data, p, src, dst);
    }
  }

  lemma {:induction false} FloatReadsBack(data: seq<bv8>, p: nat, src: Instruction, dst: Instruction)
    requires EncodeOperand(src, 'r').Ok? && p + |EncodeOperand(src, 'r').value| <= |data|
    ensures ReadsBack(data, p, 'r', src, dst)
  {
    if data[p .. p + |EncodeOperand(src, 'r').value|] == EncodeOperand(src, 'r').value {
      FloatRoundTrip(data, p, src, dst);
    }
  }

  lemma {:induction false} ArgumentCountReadsBack(data: seq<bv8>, p: nat, src: Instruction, dst: Instruction)
    requires EncodeOperand(src, 'a').Ok? && p + |EncodeOperand(src, 'a').value| <= |data|
    ensures ReadsBack(data, p, 'a', src, dst)
  {
    if data[p .. p + |EncodeOperand(src, 'a').value|] == EncodeOperand(src, 'a').value {
      ArgumentCountRoundTrip(data, p, src, dst);
    }
  }

  lemma {:induction false} JumpReadsBack(data: seq<bv8>, p: nat, src: Instruction, dst: Instruction)
    requires EncodeOperand(src, 'j').Ok? && p + |EncodeOperand(src, 'j').value| <= |data|
    ensures ReadsBack(data, p, 'j', src, dst)
  {
    if data[p .. p + |EncodeOperand(src, 'j').value|] == EncodeOperand(src, 'j').value {
      JumpRoundTrip(data, p, src, dst);
    }
  }

  lemma {:induction false} LineNumberReadsBack(data: seq<bv8>, p: nat, src: Instruction, dst: Instruction)
    requires EncodeOperand(src, 'l').Ok? && p + |EncodeOperand(src, 'l').value| <= |data|
    ensures ReadsBack(data, p, 'l', src, dst)
  {
    if data[p .. p + |EncodeOperand(src, 'l').value|] == EncodeOperand(src, 'l').value {
      LineNumberRoundTrip(data, p, src, dst);
    }
  }

  lemma {:induction false} OperandRoundTrip(data: seq<bv8>, p: nat, letter: char, src: Instruction, dst: Instruction)
    requires Fits(src) && EncodeOperand(src, letter).Ok?
    requires p + |EncodeOperand(src, letter).value| <= |data|
    ensures ReadsBack(data, p, letter, src, dst)
  {
    if letter == 't' {
      TypeListReadsBack(data, p, src, dst);
    } else if letter == 's' {
      StringReadsBack(data, p, src, dst);
    } else if letter == 'c' {
      SwitchReadsBack(data, p, src, dst);
    } else if letter == 'f' {
      FlagsReadsBack(data, p, src, dst);
    } else if letter == 'h' {
      HashReadsBack(data, p, src, dst);
    } else if letter == 'o' {
      VarOffsetReadsBack(data, p, src, dst);
    } else if letter == '0' {
      PlaceholderReadsBack(data, p, src, dst);
    } else if letter == 'i' {
      IntReadsBack(data, p, src, dst);
    } else if letter == 'r' {
      FloatReadsBack(data, p, src, dst);
    } else if letter == 'a' {
      ArgumentCountReadsBack(data, p, src, dst);
    } else if letter == 'j' {
      JumpReadsBack(data, p, src, dst);
    } else {
      LineNumberReadsBack(data, p, src, dst);
    }
  }

  /** The operand loop from letter k, started at p on dst, ends with r at q. */
  predicate ReadsAs(data: seq<bv8>, encoding: string, k: nat, p: nat, dst: Instruction, r: Instruction, q: nat) {
    k <= |encoding| && p <= |data| && ReadOperands(data, encoding, k, p, dst) == Ok(Read(r, q))
  }

  /** The encoder's loop from letter k writes ws, and ws lies in data from p to q. */
  predicate WrittenAt(data: seq<bv8>, p: nat, q: nat, src: Instruction, encoding: string, k: nat, ws: seq<bv8>) {
    k <= |encoding| && EncodeOperands(src, encoding, k) == Ok(ws) && q == p + |ws| <= |data| && data[p .. q] == ws
  }

  /** The encoding w of one letter lies in data from p to m. */
  predicate OperandWrittenAt(data: seq<bv8>, p: nat, m: nat, src: Instruction, letter: char, w: seq<bv8>) {
    EncodeOperand(src, letter) == Ok(w) && m == p + |w| <= |data| && data[p .. m] == w
  }

  /** The operand loop from letter k reads back what the encoder's loop wrote, ending at q. */
  lemma {:induction false} OperandsRoundTrip(data: seq<bv8>, p: nat, encoding: string, k: nat, src: Instruction, dst: Instruction, q: nat)
    requires k <= |encoding| && Fits(src) && EncodeOperands(src, encoding, k).Ok?
    requires q == p + |EncodeOperands(src, encoding, k).value| <= |data|
    requires data[p .. q] == EncodeOperands(src, encoding, k).value
    ensures ReadOperands(data, encoding, k, p, dst) == Ok(Read(CarryFrom(src, dst, encoding, k), q))
  {
    OperandsReadBack(data, p, q, src, encoding, k, EncodeOperands(src, encoding, k).value, dst);
  }

  lemma {:induction false} OperandsReadBack(data: seq<bv8>, p: nat, q: nat, src: Instruction, encoding: string, k: nat, ws: seq<bv8>, dst: Instruction)
    requires Fits(src) && WrittenAt(data, p, q, src, encoding, k, ws)
    ensures ReadsAs(data, encoding, k, p, dst, CarryFrom(src, dst, encoding, k), q)
    decreases |encoding| - k
  {
    if k < |encoding| {
      var w, rest, m := SplitOperands(data, p, q, src, encoding, k, ws);
      OperandsReadBack(data, m, q, src, encoding, k + 1, rest, CarryOperand(src, dst, encoding[k]));
      CarryFromStep(src, dst, encoding, k);
      ReadStep(data, p, m, src, encoding, k, w, dst, CarryFrom(src, dst, encoding, k), q);
    }
  }

  lemma {:induction false} CarryFromStep(src: Instruction, dst: Instruction, encoding: string, k: nat)
    requires k < |encoding|
    ensures CarryFrom(src, dst, encoding, k) == CarryFrom(src, CarryOperand(src, dst, encoding[k]), encoding, k + 1)
  {
  }

  /** The bytes of the operands from k on: those of letter k, then those of the rest. */
  lemma {:induction false} SplitOperands(data: seq<bv8>, p: nat, q: nat, src: Instruction, encoding: string, k: nat, ws: seq<bv8>)
    returns (w: seq<bv8>, rest: seq<bv8>, m: nat)
    requires k < |encoding| && WrittenAt(data, p, q, src, encoding, k, ws)
    ensures OperandWrittenAt(data, p, m, src, encoding[k], w) && WrittenAt(data, m, q, src, encoding, k + 1, rest)
  {
    EncodeOperandsStep(src, encoding, k);
    w := EncodeOperand(src, encoding[k]).value;
    rest := EncodeOperands(src, encoding, k + 1).value;
    m := p + |w|;
    SliceSplit(data, p, w, rest);
  }

  /** Reading letter k where its bytes w lie carries its operand over and moves past w. */
  lemma {:induction false} ReadStep(data: seq<bv8>, p: nat, m: nat, src: Instruction, encoding: string, k: nat, w: seq<bv8>,
                                    dst: Instruction, r: Instruction, q: nat)
    requires k < |encoding| && Fits(src) && OperandWrittenAt(data, p, m, src, encoding[k], w)
    requires ReadsAs(data, encoding, k + 1, m, CarryOperand(src, dst, encoding[k]), r, q)
    ensures ReadsAs(data, encoding, k, p, dst, r, q)
  {
    OperandRoundTrip(data, p, encoding[k], src, dst);
    ReadsAsStep(data, encoding, k, p, dst, CarryOperand(src, dst, encoding[k]), m, r, q);
  }

  /** A read of letter k that gives v at next, followed by the rest of the loop from there. */
  lemma {:induction false} ReadsAsStep(data: seq<bv8>, encoding: string, k: nat, p: nat, dst: Instruction,
                                       v: Instruction, next: nat, r: Instruction, q: nat)
    requires k < |encoding| && p <= |data| && ReadOperand(data, encoding[k], p, dst) == Ok(Read(v, next))
    requires ReadsAs(data, encoding, k + 1, next, v, r, q)
    ensures ReadsAs(data, encoding, k, p, dst, r, q)
  {
    ReadOperandsStep(data, encoding, k, p, dst);
  }

  lemma {:induction false} EncodeParts(ins: Instruction)
    requires Encode(ins).Ok?
    ensures EncodeOperands(ins, ins.opcode.encoding, 0).Ok?
    ensures Encode(ins).value == WriteUInt16(ins.opcode.value) + EncodeOperands(ins, ins.opcode.encoding, 0).value
  {
  }

  /**
   * What decoding the encoding of ins at offset gives: a new instruction at that offset with
   * ins's opcode, every operand its encoding names taken from ins, and n bytes long.
   */
  function Decoded(ins: Instruction, offset: UInt32, n: UInt32): (r: Instruction)
    ensures r.opcode == ins.opcode && r.offset == Some(offset) && r.size == Some(n)
  {
    CarryFrom(ins, NewInstruction(ins.opcode, Some(offset)), ins.opcode.encoding, 0).(size := Some(n))
  }

  lemma {:induction false} DecodedAt(table: Table, data: seq<bv8>, p: nat, ins: Instruction, n: nat)
    requires p + n <= |data| < 0x8000_0000 && 2 <= n
    requires Unsigned(data[p .. p + 2]) == ins.opcode.value
    requires ins.opcode.value in table && table[ins.opcode.value] == ins.opcode
    requires ReadsAs(data, ins.opcode.encoding, 0, p + 2, NewInstruction(ins.opcode, Some(p)),
                     CarryFrom(ins, NewInstruction(ins.opcode, Some(p)), ins.opcode.encoding, 0), p + n)
    ensures DecodeInstruction(table, data, p) == Ok(Read(Decoded(ins, p, n), p + n))
  {
    DecodeOk(table, data, p, ins.opcode, CarryFrom(ins, NewInstruction(ins.opcode, Some(p)), ins.opcode.encoding, 0), n);
  }

  /** Decoding at p where the opcode value and then the operand bytes of ins lie, n bytes in all. */
  lemma {:induction false} OperandsDecoded(table: Table, data: seq<bv8>, p: nat, ins: Instruction, operands: seq<bv8>, n: nat)
    requires Fits(ins) && EncodeOperands(ins, ins.opcode.encoding, 0) == Ok(operands) && n == 2 + |operands|
    requires ins.opcode.value in table && table[ins.opcode.value] == ins.opcode
    requires p + n <= |data| < 0x8000_0000
    requires Unsigned(data[p .. p + 2]) == ins.opcode.value && data[p + 2 .. p + n] == operands
    ensures DecodeInstruction(table, data, p) == Ok(Read(Decoded(ins, p, n), p + n))
  {
    OperandsReadBack(data, p + 2, p + n, ins, ins.opcode.encoding, 0, operands, NewInstruction(ins.opcode, Some(p)));
    DecodedAt(table, data, p, ins, n);
  }

  /** The two parts of an encoding lie in the blob: the opcode value, then the operands. */
  lemma {:induction false} EncodingAt(data: seq<bv8>, p: nat, ins: Instruction, e: seq<bv8>) returns (operands: seq<bv8>)
    requires Encode(ins) == Ok(e) && p + |e| <= |data| && data[p .. p + |e|] == e
    ensures EncodeOperands(ins, ins.opcode.encoding, 0) == Ok(operands) && |e| == 2 + |operands|
    ensures Unsigned(data[p .. p + 2]) == ins.opcode.value && data[p + 2 .. p + |e|] == operands
  {
    EncodeParts(ins);
    operands := EncodeOperands(ins, ins.opcode.encoding, 0).value;
    SliceSplit(data, p, WriteUInt16(ins.opcode.value), operands);
    ReadUInt16Written(data, p, ins.opcode.value);
  }

  /** Decoding at p, where the encoding e of ins was written, gives ins's operands back. */
  lemma {:induction false} InstructionAt(table: Table, data: seq<bv8>, p: nat, ins: Instruction, e: seq<bv8>)
    requires Fits(ins) && Encode(ins) == Ok(e)
    requires ins.opcode.value in table && table[ins.opcode.value] == ins.opcode
    requires p + |e| <= |data| < 0x8000_0000 && data[p .. p + |e|] == e
    ensures DecodeInstruction(table, data, p) == Ok(Read(Decoded(ins, p, |e|), p + |e|))
  {
    var operands := EncodingAt(data, p, ins, e);
    OperandsDecoded(table, data, p, ins, operands, |e|);
  }

  /**
   * The disassembler reads back what the assembler writes: decoding the encoding of an
   * instruction, wherever it lies in the blob, gives a fresh instruction at that offset with
   * the size of the encoding, the instruction's opcode, and every operand its encoding names
   * taken from the instruction.
   */
  lemma {:induction false} InstructionRoundTrip(table: Table, before: seq<bv8>, ins: Instruction, after: seq<bv8>)
    requires Fits(ins) && Encode(ins).Ok?
    requires ins.opcode.value in table && table[ins.opcode.value] == ins.opcode
    requires |before| + |Encode(ins).value| + |after| < 0x8000_0000
    ensures DecodeInstruction(table, before + Encode(ins).value + after, |before|)
            == Ok(Read(Decoded(ins, |before|, |Encode(ins).value|), |before| + |Encode(ins).value|))
  {
    var e := Encode(ins).value;
    var data := before + e + after;
    assert data[|before| .. |before| + |e|] == e;
    InstructionAt(table, data, |before|, ins, e);
  }
}
