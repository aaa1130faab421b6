/**
 * The CHIP-8 disassembler: byte-order normalisation of each raw word
 * (`decode`), the operand field accessors, the classifier/formatter that
 * turns one normalised word into a mnemonic line (`generate`), and the
 * driver loop that assembles the listing (`Disassemble`).
 *
 * Words are Go `uint16` values. Every mask the source applies selects a
 * contiguous run of bits, so `w & M >> s` is written here with division and
 * remainder by powers of two: keeping bits below 2^k is `w % 2^k`, clearing
 * them is `w - w % 2^k`, and `>> s` is `/ 2^s`.
 */
module Disassembler {
  import opened Format

  /** A Go `uint16`: an instruction word, raw or normalised, or a field read from one. */
  type Word = w: int | 0 <= w < 0x1_0000

  /**
   * decode: `(code & 0xFF00 >> 8) | (code & 0x00FF << 8)`. In Go `&`, `>>`
   * and `<<` share one precedence level and associate to the left, so each
   * half masks first and then shifts; the halves occupy disjoint bytes, so
   * the `|` adds them, and the left shift of a byte never leaves 16 bits.
   * The result holds the raw word's bytes in swapped order.
   */
  function Decode(code: Word): (n: Word)
    ensures n / 0x100 == code % 0x100
    ensures n % 0x100 == code / 0x100
  {
    (code - code % 0x100) / 0x100 + (code % 0x100) * 0x100
  }

  /** xRegister: `code & 0x0F00 >> 8`, the register index in bits 8-11. */
  function XRegister(code: Word): (x: Word)
    ensures x < 0x10
    ensures code == code / 0x1000 * 0x1000 + x * 0x100 + code % 0x100
  {
    (code % 0x1000 - code % 0x100) / 0x100
  }

  /**
   * yRegister as the source writes it: `code & 0x00F0 >> 8`. The mask keeps
   * bits 4-7, which the shift by 8 then drops, so the result is always 0.
   */
  function YRegister(code: Word): (y: Word)
    ensures y == 0
  {
    LowNibbleOfLowByte(code);
    (code % 0x100 - code % 0x10) / 0x100
  }

  /** The low nibble of a word is the low nibble of its low byte. */
  lemma LowNibbleOfLowByte(code: Word)
    ensures code % 0x10 == code % 0x100 % 0x10 <= code % 0x100
  {
  }

  /** value: `code & 0x00FF`, the 8-bit immediate in the low byte. */
  function Value(code: Word): (v: Word)
    ensures v < 0x100
    ensures code == code / 0x100 * 0x100 + v
  {
    code % 0x100
  }

  /** address: `code & 0x0FFF`, the 12-bit address below the class nibble. */
  function Address(code: Word): (a: Word)
    ensures a < 0x1000
    ensures code == code / 0x1000 * 0x1000 + a
  {
    code % 0x1000
  }

  /** nibble: `code & 0x000F`, the 4-bit immediate in the low nibble. */
  function Nibble(code: Word): (k: Word)
    ensures k < 0x10
    ensures code == code / 0x10 * 0x10 + k
  {
    code % 0x10
  }

  // ---------------------------------------------------------------------------
  // The operand texts of the format strings

  /** `V%d`: a register by its decimal index. */
  function Reg(r: Word): string
  {
    "V" + Decimal(r)
  }

  /** `0x%03x`: a 12-bit address. */
  function Addr(a: Word): string
  {
    "0x" + HexPad(a, 3)
  }

  /** `0x%02x`: an 8-bit immediate. */
  function Byte(v: Word): string
  {
    "0x" + HexPad(v, 2)
  }

  /** `0x%x`: the 4-bit immediate of DRW, unpadded. */
  function Nib(k: Word): string
  {
    "0x" + Hex(k)
  }

  /** `0x%04x`: a whole word. */
  function WordHex(w: Word): string
  {
    "0x" + HexPad(w, 4)
  }

  /**
   * generate: the mnemonic line body of one normalised word. The two
   * full-word matches come first, then the class (top nibble) decides;
   * classes 0x8, 0xE and 0xF dispatch again on the low nibble or the low
   * byte, and whatever matches nothing becomes a `DAT` pseudo-instruction
   * carrying the whole word. Every word gets a non-empty line.
   */
  function Generate(code: Word): (line: string)
    ensures 0 < |line|
  {
    if code == 0x00E0 then "CLS"
    else if code == 0x00EE then "RET"
    else
      var x, y, addr, value := XRegister(code), YRegister(code), Address(code), Value(code);
      var dat := "DAT\t" + WordHex(code);
      var top := code / 0x1000 * 0x1000;  // code & 0xF000
      if top == 0x0000 then "SYS\t" + Addr(addr)
      else if top == 0x1000 then "JMP\t" + Addr(addr)
      else if top == 0x2000 then "CALL\t" + Addr(addr)
      else if top == 0x3000 then "SE\t" + Reg(x) + ", " + Addr(addr)
      else if top == 0x4000 then "SNE\t" + Reg(x) + ", " + Byte(value)
      else if top == 0x5000 then "SNE\t" + Reg(x) + ", " + Reg(y)
      else if top == 0x6000 then "LD\t" + Reg(x) + ", " + Byte(value)
      else if top == 0x7000 then "ADD\t" + Reg(x) + ", " + Byte(value)
      else if top == 0x8000 then
        var suffix := code % 0x10;  // code & 0x000F
        if suffix == 0x0 then "LD\t" + Reg(x) + ", " + Reg(y)
        else if suffix == 0x1 then "OR\t" + Reg(x) + ", " + Reg(y)
        else if suffix == 0x2 then "AND\t" + Reg(x) + ", " + Reg(y)
        else if suffix == 0x3 then "XOR\t" + Reg(x) + ", " + Reg(y)
        else if suffix == 0x4 then "ADD\t" + Reg(x) + ", " + Reg(y)
        else if suffix == 0x5 then "SUB\t" + Reg(x) + ", " + Reg(y)
        else if suffix == 0x6 then "SHR\t" + Reg(x) + ", " + Reg(y)
        else if suffix == 0x7 then "SUBN\t" + Reg(x) + ", " + Reg(y)
        else if suffix == 0xE then "SHL\t" + Reg(x) + ", " + Reg(y)
        else dat
      else if top == 0x9000 then "SNE\t" + Reg(x) + ", " + Reg(y)
      else if top == 0xA000 then "LD\tI, " + Addr(addr)
      else if top == 0xB000 then "JMP\tV0, " + Addr(addr)
      else if top == 0xC000 then "RND\t" + Reg(x) + ", " + Byte(value)
      else if top == 0xD000 then "DRW\t" + Reg(x) + ", " + Reg(y) + ", " + Nib(Nibble(code))
      else if top == 0xE000 then
        var suffix := code % 0x100;  // code & 0x00FF
        if suffix == 0x9E then "SKP\t" + Reg(x)
        else if suffix == 0xA1 then "SKNP\t" + Reg(x)
        else dat
      else if top == 0xF000 then
        var suffix := code % 0x100;  // code & 0x00FF
        if suffix == 0x07 then "LD\t" + Reg(x) + ", DT"
        else if suffix == 0x0A then "LD\t" + Reg(x) + ", KEY"
        else if suffix == 0x15 then "LD\tDT, " + Reg(x)
        else if suffix == 0x18 then "LD\tST, " + Reg(x)
        else if suffix == 0x1E then "ADD\tI, " + Reg(x)
        else if suffix == 0x29 then "LD\tF, " + Reg(x)
        else if suffix == 0x33 then "LD\tB, " + Reg(x)
        else if suffix == 0x55 then "LD\t[I], " + Reg(x)
        else if suffix == 0x65 then "LD\t" + Reg(x) + ", [I]"
        else dat
      else dat
  }

  /** The listing line of one raw word: `0x%04x`, a tab, the mnemonic line, a newline. */
  function Line(raw: Word): string
  {
    var decoded := Decode(raw);
    WordHex(decoded) + "\t" + Generate(decoded) + "\n"
  }

  /** The lines `render` gives the words of a program, one after another in program order. */
  function Joined(program: seq<Word>, render: Word -> string): string
  {
    if program == [] then ""
    else Joined(program[..|program| - 1], render) + render(program[|program| - 1])
  }

  /** The listing of a whole program: its lines, in program order. */
  function Listing(program: seq<Word>): string
  {
    Joined(program, Line)
  }

  /**
   * Appending the three pieces the driver writes for word `i` to the
   * listing of the words before it gives the listing up to and including it.
   */
  lemma ListingStep(program: seq<Word>, i: nat, echo: string, body: string)
    requires i < |program|
    requires echo == WordHex(Decode(program[i])) + "\t"
    requires body == Generate(Decode(program[i]))
    ensures Listing(program[..i]) + echo + body + "\n" == Listing(program[..i + 1])
  {
    assert program[..i + 1][..i] == program[..i];
  }

  /**
   * The driver: appends, word by word, the hex echo of the normalised word,
   * its mnemonic line and a newline to the text built so far.
   */
  method Disassemble(program: seq<Word>) returns (text: string)
    ensures text == Listing(program)
  {
    text := "";
    for i := 0 to |program|
      invariant text == Listing(program[..i])
    {
      var decoded := Decode(program[i]);
      var echo := WordHex(decoded) + "\t";
      var body := Generate(decoded);
      ListingStep(program, i, echo, body);
      text := text + echo;
      text := text + body;
      text := text + "\n";
    }
    assert program[..|program|] == program;
  }
}
