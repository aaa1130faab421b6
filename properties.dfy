/**
 * What the disassembler promises, proved about the model in module
 * Disassembler: the byte swap undoes itself, each operand is printed at
 * its fixed width and reads back as its field, the Y register always
 * prints as V0, the `DAT` fallback is taken exactly for the undefined
 * sub-opcodes, and every mnemonic line is a single line.
 */
module Properties {
  import opened Format
  import opened Disassembler

  // ---------------------------------------------------------------------------
  // Normalisation

  /** Normalising twice gives the raw word back. */
  lemma DecodeInvolutive(w: Word)
    ensures Decode(Decode(w)) == w
  {
  }

  // ---------------------------------------------------------------------------
  // Operand texts

  /** `V%d` of a register index: `V` and one or two decimal digits that read back as the index. */
  lemma RegText(r: Word)
    requires r < 0x10
    ensures var t := Reg(r);
      2 <= |t| <= 3 && t[0] == 'V' && AllDigits(t[1..], 10) && ValueOf(t[1..], 10) == r
  {
    DecimalRoundTrip(r);
    DigitsWidth(r, 10, 2);
    assert Pow(10, 2) == 100;
    DigitsShape(r, 10);
    assert Reg(r)[1..] == Decimal(r);
  }

  /** The Y register always prints as `V0`. */
  lemma RegYText(code: Word)
    ensures Reg(YRegister(code)) == "V0"
  {
  }

  /** `0x%03x` of an address: `0x` and exactly three hex digits that read back as it. */
  lemma AddrText(a: Word)
    requires a < 0x1000
    ensures var t := Addr(a);
      |t| == 5 && t[..2] == "0x" && AllDigits(t[2..], 16) && ValueOf(t[2..], 16) == a
  {
    assert Pow(16, 3) == 0x1000;
    HexPadRoundTrip(a, 3);
    assert Addr(a)[2..] == HexPad(a, 3);
  }

  /** `0x%02x` of a byte: `0x` and exactly two hex digits that read back as it. */
  lemma ByteText(v: Word)
    requires v < 0x100
    ensures var t := Byte(v);
      |t| == 4 && t[..2] == "0x" && AllDigits(t[2..], 16) && ValueOf(t[2..], 16) == v
  {
    assert Pow(16, 2) == 0x100;
    HexPadRoundTrip(v, 2);
    assert Byte(v)[2..] == HexPad(v, 2);
  }

  /** `0x%x` of a nibble: `0x` and one hex digit that reads back as it. */
  lemma NibText(k: Word)
    requires k < 0x10
    ensures var t := Nib(k);
      |t| == 3 && t[..2] == "0x" && IsDigit(t[2], 16) && DigitValue(t[2]) == k
  {
  }

  /** `0x%04x` of a word: `0x` and exactly four hex digits that read back as it. */
  lemma WordHexText(w: Word)
    ensures var t := WordHex(w);
      |t| == 6 && t[..2] == "0x" && AllDigits(t[2..], 16) && ValueOf(t[2..], 16) == w
  {
    assert Pow(16, 4) == 0x1_0000;
    HexPadRoundTrip(w, 4);
    assert WordHex(w)[2..] == HexPad(w, 4);
  }

  /** The end of a line that closes with a `0x`-prefixed operand of `k` digits. */
  lemma HexTail(g: string, head: string, t: string, k: nat)
    requires g == head + t && |t| == k + 2
    ensures |g| >= k + 2 && g[|g| - k - 2..|g| - k] == t[..2] && g[|g| - k..] == t[2..]
  {
  }

  // ---------------------------------------------------------------------------
  // Class 0x0: the full-word matches come first

  /** CLS and RET, although both words are in class 0x0, whose lines are SYS otherwise. */
  lemma ClearAndReturn()
    ensures Generate(0x00E0) == "CLS"
    ensures Generate(0x00EE) == "RET"
  {
  }

  /** Every other word of class 0x0 is SYS and the 12-bit address in three hex digits. */
  lemma SystemCall(code: Word)
    requires code / 0x1000 == 0x0 && code != 0x00E0 && code != 0x00EE
    ensures var g := Generate(code);
      |g| == 9 && g[..6] == "SYS\t0x" && AllDigits(g[6..], 16) && ValueOf(g[6..], 16) == Address(code)
  {
    AddrText(Address(code));
    var g, t := Generate(code), Addr(Address(code));
    assert g == "SYS\t" + t;
    assert g[6..] == t[2..];
  }

  // ---------------------------------------------------------------------------
  // Operand widths

  /**
   * The text a line of class `top` starts with, for the classes without a
   * sub-dispatch: the mnemonic and, where the class has one, the X register
   * `x`, up to the separator before the next operand.
   */
  function ClassHead(top: int, x: string): string
  {
    match top
    case 0x0 => "SYS\t"
    case 0x1 => "JMP\t"
    case 0x2 => "CALL\t"
    case 0x3 => "SE\t" + x + ", "
    case 0x4 => "SNE\t" + x + ", "
    case 0x5 => "SNE\t" + x + ", "
    case 0x6 => "LD\t" + x + ", "
    case 0x7 => "ADD\t" + x + ", "
    case 0xA => "LD\tI, "
    case 0xB => "JMP\tV0, "
    case 0x9 => "SNE\t" + x + ", "
    case 0xC => "RND\t" + x + ", "
    case 0xD => "DRW\t" + x + ", "
    case _ => ""
  }

  /**
   * Classes whose last operand is the 12-bit address (SYS, JMP, CALL, SE,
   * LD I, JMP V0) end in `0x` and exactly three lowercase hex digits that
   * read back as the address.
   */
  lemma AddressOperand(code: Word) returns (head: string)
    requires code / 0x1000 in {0x0, 0x1, 0x2, 0x3, 0xA, 0xB}
    requires code != 0x00E0 && code != 0x00EE
    ensures head == ClassHead(code / 0x1000, Reg(XRegister(code)))
    ensures Generate(code) == head + Addr(Address(code))
    ensures var g := Generate(code);
      |g| >= 5 && g[|g| - 5..|g| - 3] == "0x" &&
      AllDigits(g[|g| - 3..], 16) && ValueOf(g[|g| - 3..], 16) == Address(code)
  {
    var top, x, t := code / 0x1000, Reg(XRegister(code)), Addr(Address(code));
    if top == 0x0 {
      head := "SYS\t";
    } else if top == 0x1 {
      head := "JMP\t";
    } else if top == 0x2 {
      head := "CALL\t";
    } else if top == 0x3 {
      head := "SE\t" + x + ", ";
    } else if top == 0xA {
      head := "LD\tI, ";
    } else {
      head := "JMP\tV0, ";
    }
    AddrText(Address(code));
    HexTail(Generate(code), head, t, 3);
  }

  /**
   * Classes whose last operand is the 8-bit immediate (SNE, LD, ADD, RND)
   * end in `0x` and exactly two lowercase hex digits that read back as the
   * low byte.
   */
  lemma ByteOperand(code: Word) returns (head: string)
    requires code / 0x1000 in {0x4, 0x6, 0x7, 0xC}
    ensures head == ClassHead(code / 0x1000, Reg(XRegister(code)))
    ensures Generate(code) == head + Byte(Value(code))
    ensures var g := Generate(code);
      |g| >= 4 && g[|g| - 4..|g| - 2] == "0x" &&
      AllDigits(g[|g| - 2..], 16) && ValueOf(g[|g| - 2..], 16) == Value(code)
  {
    var top, x, t := code / 0x1000, Reg(XRegister(code)), Byte(Value(code));
    if top == 0x4 {
      head := "SNE\t" + x + ", ";
    } else if top == 0x6 {
      head := "LD\t" + x + ", ";
    } else if top == 0x7 {
      head := "ADD\t" + x + ", ";
    } else {
      head := "RND\t" + x + ", ";
    }
    ByteText(Value(code));
    HexTail(Generate(code), head, t, 2);
  }

  /** DRW ends in `0x` and a single unpadded hex digit: the low nibble. */
  lemma NibbleOperand(code: Word) returns (head: string)
    requires code / 0x1000 == 0xD
    ensures head == ClassHead(0xD, Reg(XRegister(code))) + Reg(YRegister(code)) + ", "
    ensures Generate(code) == head + Nib(Nibble(code))
    ensures var g := Generate(code);
      |g| >= 3 && g[|g| - 3..|g| - 1] == "0x" && IsDigit(g[|g| - 1], 16) && DigitValue(g[|g| - 1]) == Nibble(code)
  {
    head := "DRW\t" + Reg(XRegister(code)) + ", " + Reg(YRegister(code)) + ", ";
    var t := Nib(Nibble(code));
    assert Generate(code) == head + t;
    NibText(Nibble(code));
    var g := head + t;
    assert g[|g| - 1] == t[2] && g[|g| - 3..|g| - 1] == t[..2];
  }

  // ---------------------------------------------------------------------------
  // The Y register

  /**
   * Every `V%d` built from the Y register prints as `V0`: SNE of classes
   * 0x5 and 0x9 and the defined class 0x8 operations end in `, V0`, and
   * DRW has `, V0, ` before its nibble.
   */
  lemma RegisterYIsV0(code: Word) returns (head: string)
    requires code / 0x1000 in {0x5, 0x8, 0x9, 0xD}
    requires code / 0x1000 == 0x8 ==> code % 0x10 in {0x0, 0x1, 0x2, 0x3, 0x4, 0x5, 0x6, 0x7, 0xE}
    ensures code / 0x1000 == 0xD ==> Generate(code) == head + "V0" + ", " + Nib(Nibble(code))
    ensures code / 0x1000 != 0xD ==> Generate(code) == head + "V0"
    ensures code / 0x1000 != 0x8 ==> head == ClassHead(code / 0x1000, Reg(XRegister(code)))
    ensures code / 0x1000 == 0x8 ==> head == ArithmeticHead(code % 0x10) + Reg(XRegister(code)) + ", "
  {
    var top, x := code / 0x1000, Reg(XRegister(code));
    RegYText(code);
    if top == 0x5 || top == 0x9 {
      head := "SNE\t" + x + ", ";
    } else if top == 0xD {
      head := "DRW\t" + x + ", ";
    } else {
      ArithmeticLine(code);
      head := ArithmeticHead(code % 0x10) + x + ", ";
    }
  }

  /**
   * In the classes whose bits 4-7 are only the Y register, those bits never
   * show in the line: words that agree on the class, the X register and the
   * low nibble print the same. Class 0x8 needs a defined sub-opcode here,
   * since its `DAT` line shows the whole word.
   */
  lemma RegisterYBitsIgnored(c1: Word, c2: Word)
    requires c1 / 0x1000 in {0x5, 0x8, 0x9, 0xD} && c1 / 0x1000 == c2 / 0x1000
    requires c1 / 0x1000 == 0x8 ==> c1 % 0x10 in {0x0, 0x1, 0x2, 0x3, 0x4, 0x5, 0x6, 0x7, 0xE}
    requires XRegister(c1) == XRegister(c2) && Nibble(c1) == Nibble(c2)
    ensures Generate(c1) == Generate(c2)
  {
  }

  /**
   * Class 0x5 prints SNE, as class 0x9 does: a word of each with the same
   * X register gives the same line.
   */
  lemma SkipClassesAgree(c5: Word, c9: Word)
    requires c5 / 0x1000 == 0x5 && c9 / 0x1000 == 0x9
    requires XRegister(c5) == XRegister(c9)
    ensures Generate(c5) == Generate(c9)
  {
  }

  // ---------------------------------------------------------------------------
  // Sub-dispatch and the fallback

  /** The words no case of the formatter matches: undefined sub-opcodes of classes 0x8, 0xE, 0xF. */
  predicate Unmatched(code: Word)
  {
    var top, low4, low8 := code / 0x1000, code % 0x10, code % 0x100;
    (top == 0x8 && low4 !in {0x0, 0x1, 0x2, 0x3, 0x4, 0x5, 0x6, 0x7, 0xE}) ||
    (top == 0xE && low8 !in {0x9E, 0xA1}) ||
    (top == 0xF && low8 !in {0x07, 0x0A, 0x15, 0x18, 0x1E, 0x29, 0x33, 0x55, 0x65})
  }

  /** In class 0x8 the `DAT` line is produced exactly for the undefined low nibbles. */
  lemma ArithmeticFallback(code: Word)
    requires code / 0x1000 == 0x8
    ensures Unmatched(code) <==> Generate(code) == "DAT\t" + WordHex(code)
  {
    if !Unmatched(code) {
      assert Generate(code)[0] != 'D';
    }
  }

  /** In class 0xE the `DAT` line is produced exactly for low bytes other than 0x9E and 0xA1. */
  lemma KeyFallback(code: Word)
    requires code / 0x1000 == 0xE
    ensures Unmatched(code) <==> Generate(code) == "DAT\t" + WordHex(code)
  {
    if !Unmatched(code) {
      assert Generate(code)[0] == 'S';
    }
  }

  /** In class 0xF the `DAT` line is produced exactly for the low bytes with no operation. */
  lemma MiscFallback(code: Word)
    requires code / 0x1000 == 0xF
    ensures Unmatched(code) <==> Generate(code) == "DAT\t" + WordHex(code)
  {
    if !Unmatched(code) {
      assert Generate(code)[0] != 'D';
    }
  }

  /** The classes without a sub-dispatch never print `DAT`. */
  lemma NoFallback(code: Word)
    requires code / 0x1000 !in {0x8, 0xE, 0xF}
    ensures Generate(code) != "DAT\t" + WordHex(code)
  {
    var g, top := Generate(code), code / 0x1000;
    if top < 0x8 {
      assert g[0] != 'D';
    } else {
      assert g[0] != 'D' || g[1] != 'A';
    }
  }

  /**
   * The `DAT` line, `DAT`, a tab and the whole word as `0x%04x`, is
   * produced exactly for the unmatched words; its four hex digits read
   * back as the word.
   */
  lemma Fallback(code: Word)
    ensures Unmatched(code) <==> Generate(code) == "DAT\t" + WordHex(code)
    ensures var t := WordHex(code);
      |t| == 6 && t[..2] == "0x" && AllDigits(t[2..], 16) && ValueOf(t[2..], 16) == code
  {
    WordHexText(code);
    var top := code / 0x1000;
    if top == 0x8 {
      ArithmeticFallback(code);
    } else if top == 0xE {
      KeyFallback(code);
    } else if top == 0xF {
      MiscFallback(code);
    } else {
      NoFallback(code);
    }
  }

  /** What class 0x8 prints before the X register, mnemonic and tab, by low nibble; "" where there is no operation. */
  function ArithmeticHead(low: int): string
  {
    match low
    case 0x0 => "LD\t"
    case 0x1 => "OR\t"
    case 0x2 => "AND\t"
    case 0x3 => "XOR\t"
    case 0x4 => "ADD\t"
    case 0x5 => "SUB\t"
    case 0x6 => "SHR\t"
    case 0x7 => "SUBN\t"
    case 0xE => "SHL\t"
    case _ => ""
  }

  /**
   * A defined class 0x8 line is the mnemonic its low nibble names, the X
   * register and the Y register: the low nibble alone picks the mnemonic.
   */
  lemma ArithmeticLine(code: Word)
    requires code / 0x1000 == 0x8 && !Unmatched(code)
    ensures Generate(code) == ArithmeticHead(code % 0x10) + Reg(XRegister(code)) + ", " + Reg(YRegister(code))
  {
  }

  /**
   * A defined class 0xE line is SKP for low byte 0x9E and SKNP for 0xA1,
   * then a tab and the X register.
   */
  lemma KeyLine(code: Word)
    requires code / 0x1000 == 0xE && !Unmatched(code)
    ensures Generate(code) == (if code % 0x100 == 0x9E then "SKP\t" else "SKNP\t") + Reg(XRegister(code))
  {
  }

  /** What class 0xF prints before the X register, by low byte; "" where there is no operation. */
  function MiscPrefix(low: int): string
  {
    match low
    case 0x07 => "LD\t"
    case 0x0A => "LD\t"
    case 0x15 => "LD\tDT, "
    case 0x18 => "LD\tST, "
    case 0x1E => "ADD\tI, "
    case 0x29 => "LD\tF, "
    case 0x33 => "LD\tB, "
    case 0x55 => "LD\t[I], "
    case 0x65 => "LD\t"
    case _ => ""
  }

  /** What class 0xF prints after the X register, by low byte. */
  function MiscSuffix(low: int): string
  {
    match low
    case 0x07 => ", DT"
    case 0x0A => ", KEY"
    case 0x65 => ", [I]"
    case _ => ""
  }

  /**
   * A defined class 0xF line is the text its low byte names around the X
   * register, the only operand: the low byte alone picks the rest.
   */
  lemma MiscLine(code: Word)
    requires code / 0x1000 == 0xF && !Unmatched(code)
    ensures Generate(code) == MiscPrefix(code % 0x100) + Reg(XRegister(code)) + MiscSuffix(code % 0x100)
  {
    var low, x := code % 0x100, Reg(XRegister(code));
    if low in {0x07, 0x0A, 0x65} {
      assert Generate(code) == MiscPrefix(low) + x + MiscSuffix(low);
    } else {
      assert x + MiscSuffix(low) == x;
    }
  }

  /** Concatenation regrouped. */
  lemma Regroup(a: string, b: string, c: string, d: string)
    ensures a + b + c + d == a + b + (c + d)
  {
  }

  /**
   * Two words of class 0x8, 0xE or 0xF with the same discriminant (low
   * nibble, low byte) print the same text around their own X register.
   */
  lemma SubDispatchTemplate(c1: Word, c2: Word) returns (prefix: string, suffix: string)
    requires c1 / 0x1000 == c2 / 0x1000 && c1 / 0x1000 in {0x8, 0xE, 0xF}
    requires if c1 / 0x1000 == 0x8 then c1 % 0x10 == c2 % 0x10 else c1 % 0x100 == c2 % 0x100
    requires !Unmatched(c1)
    ensures Generate(c1) == prefix + Reg(XRegister(c1)) + suffix
    ensures Generate(c2) == prefix + Reg(XRegister(c2)) + suffix
  {
    var top := c1 / 0x1000;
    if top == 0x8 {
      ArithmeticLine(c1);
      ArithmeticLine(c2);
      RegYText(c1);
      RegYText(c2);
      prefix, suffix := ArithmeticHead(c1 % 0x10), ", " + "V0";
      Regroup(prefix, Reg(XRegister(c1)), ", ", "V0");
      Regroup(prefix, Reg(XRegister(c2)), ", ", "V0");
    } else if top == 0xE {
      KeyLine(c1);
      KeyLine(c2);
      prefix, suffix := if c1 % 0x100 == 0x9E then "SKP\t" else "SKNP\t", "";
    } else {
      MiscLine(c1);
      MiscLine(c2);
      prefix, suffix := MiscPrefix(c1 % 0x100), MiscSuffix(c1 % 0x100);
    }
  }

  /** A text made of a newline-free head and then digits holds no newline. */
  lemma NoNewline(t: string, k: nat, base: nat)
    requires k <= |t| && '\n' !in t[..k] && AllDigits(t[k..], base)
    ensures '\n' !in t
  {
    forall i | 0 <= i < |t| ensures t[i] != '\n' {
      if i < k {
        assert t[i] == t[..k][i];
      } else {
        assert IsDigit(t[k..][i - k], base);
      }
    }
  }

  /** No operand text holds a newline. */
  lemma OperandsSingleLine(code: Word)
    ensures '\n' !in Reg(XRegister(code)) && '\n' !in Reg(YRegister(code))
    ensures '\n' !in Addr(Address(code)) && '\n' !in Byte(Value(code))
    ensures '\n' !in Nib(Nibble(code)) && '\n' !in WordHex(code)
  {
    RegText(XRegister(code));
    RegYText(code);
    AddrText(Address(code));
    ByteText(Value(code));
    NibText(Nibble(code));
    WordHexText(code);
    NoNewline(Reg(XRegister(code)), 1, 10);
    NoNewline(Addr(Address(code)), 2, 16);
    NoNewline(Byte(Value(code)), 2, 16);
    NoNewline(WordHex(code), 2, 16);
    var n := Nib(Nibble(code));
    assert n == n[..2] + [n[2]];
  }

  /** The lines of classes 0x0 to 0x7 hold no newline. */
  lemma LowClassesSingleLine(code: Word)
    requires code / 0x1000 < 0x8
    ensures '\n' !in Generate(code)
  {
    OperandsSingleLine(code);
  }

  /** The lines of class 0x8 hold no newline. */
  lemma ArithmeticSingleLine(code: Word)
    requires code / 0x1000 == 0x8
    ensures '\n' !in Generate(code)
  {
    OperandsSingleLine(code);
  }

  /** The lines of class 0xE hold no newline. */
  lemma KeySingleLine(code: Word)
    requires code / 0x1000 == 0xE
    ensures '\n' !in Generate(code)
  {
    OperandsSingleLine(code);
  }

  /** The lines of class 0xF hold no newline. */
  lemma MiscSingleLine(code: Word)
    requires code / 0x1000 == 0xF
    ensures '\n' !in Generate(code)
  {
    OperandsSingleLine(code);
  }

  /** The lines of classes 0x9 to 0xD hold no newline. */
  lemma HighClassesSingleLine(code: Word)
    requires 0x9 <= code / 0x1000 <= 0xD
    ensures '\n' !in Generate(code)
  {
    OperandsSingleLine(code);
  }

  /** Every mnemonic line is a single line: it holds no newline. */
  lemma GenerateSingleLine(code: Word)
    ensures '\n' !in Generate(code)
  {
    var top := code / 0x1000;
    if top < 0x8 {
      LowClassesSingleLine(code);
    } else if top == 0x8 {
      ArithmeticSingleLine(code);
    } else if top == 0xE {
      KeySingleLine(code);
    } else if top == 0xF {
      MiscSingleLine(code);
    } else {
      HighClassesSingleLine(code);
    }
  }

  // ---------------------------------------------------------------------------
  // Lines for particular words

  lemma ExampleJump()
    ensures Generate(0x1234) == "JMP\t0x234"
  {
    assert Address(0x1234) == 0x234;
    assert Addr(0x234) == "0x234";
  }

  /** SE prints the 12-bit address field, X register nibble included. */
  lemma ExampleSkipEqual()
    ensures Generate(0x3A12) == "SE\tV10, 0xa12"
  {
    assert XRegister(0x3A12) == 10;
    assert Reg(10) == "V10";
    assert Address(0x3A12) == 0xA12;
    assert Addr(0xA12) == "0xa12";
  }

  lemma ExampleLoad()
    ensures Generate(0x6A3B) == "LD\tV10, 0x3b"
  {
    assert XRegister(0x6A3B) == 10;
    assert Reg(10) == "V10";
    assert Value(0x6A3B) == 0x3B;
    assert Byte(0x3B) == "0x3b";
  }

  /** The Y register of 0x8AB4 is B, but it prints as V0. */
  lemma ExampleAdd()
    ensures Generate(0x8AB4) == "ADD\tV10, V0"
  {
    assert XRegister(0x8AB4) == 10;
    assert Reg(10) == "V10";
    assert Reg(0) == "V0";
  }

  /** Class 0x5 prints SNE, and its Y register as V0. */
  lemma ExampleSkipNotEqual()
    ensures Generate(0x5123) == "SNE\tV1, V0"
  {
    assert XRegister(0x5123) == 1;
    assert Reg(1) == "V1";
    assert Reg(0) == "V0";
  }

  lemma ExampleKey()
    ensures Generate(0xE19E) == "SKP\tV1"
  {
    assert XRegister(0xE19E) == 1;
    assert Reg(1) == "V1";
  }

  lemma ExampleFont()
    ensures Generate(0xF129) == "LD\tF, V1"
  {
    assert XRegister(0xF129) == 1;
    assert Reg(1) == "V1";
  }

  lemma ExampleDraw()
    ensures Generate(0xD12F) == "DRW\tV1, V0, 0xf"
  {
    assert XRegister(0xD12F) == 1;
    assert Reg(1) == "V1";
    assert Reg(0) == "V0";
    assert Nibble(0xD12F) == 0xF;
    assert Nib(0xF) == "0xf";
  }

  /** Class 0x8 with low nibble 8 has no operation: the whole word is data. */
  lemma ExampleData()
    ensures Generate(0x8AB8) == "DAT\t0x8ab8"
  {
    assert Unmatched(0x8AB8);
    ArithmeticFallback(0x8AB8);
    assert HexPad(0x8AB8, 4) == "8ab8";
  }
}
