# CHIP-8 disassembler, modelled in Dafny

The program turns a sequence of 16-bit CHIP-8 instruction words into a text
listing. It has three stages:

- `decode` swaps the two bytes of each raw word.
- `generate` renders the normalised word as a mnemonic line. It checks
  `CLS`/`RET` first, then dispatches on the top nibble. Classes 0x8, 0xE
  and 0xF dispatch again on the low nibble or low byte. Anything
  unmatched becomes `DAT 0x%04x`.
- `Disassemble` appends, for every word, the word in hex, a tab, the
  mnemonic line and a newline.

The model has four modules:

- `Format` (format.dfy) renders unsigned numbers the way the program
  uses Go's `fmt` verbs: `%d` (`Decimal`), `%x` (`Hex`) and `%0Nx`
  (`HexPad`). Each rendering has its inverse `ValueOf` and round-trip and
  width lemmas.
- `Disassembler` (disassembler.dfy) holds:
  - the words, as `Word`, an integer range standing for Go's `uint16`;
  - `Decode` and the five field accessors;
  - the operand texts of the format strings: `Reg`, `Addr`, `Byte`, `Nib`
    and `WordHex`;
  - `Generate`, the single-word `Line` and the whole `Listing`;
  - the driver `Disassemble`, a method whose loop keeps the text built so
    far equal to the listing of the words seen so far.
- `Properties` (properties.dfy) holds what `generate` promises:
  - operand widths and read-back;
  - the Y register always printing as `V0`;
  - the exact `DAT` fallback set;
  - sub-dispatch depending only on its discriminant;
  - single-line output;
  - concrete lines.
- `Listings` (listing.dfy) holds what the listing promises:
  - program order;
  - each line's format;
  - one line per word;
  - different programs giving different listings.

Go's masks and shifts are written with division and remainder. Every mask
in the source selects a contiguous bit run, so `w & M >> s` is
`(w % 2^hi - w % 2^lo) / 2^s`. In Go `&`, `>>` and `<<` share one
precedence level and associate left to right, so `code & 0x00F0 >> 8` masks
first and then shifts.

## Where the code departs from the conventional CHIP-8 reading

The model follows the code in each of these cases.

- **`yRegister`**
  - In the conventional CHIP-8 encoding, the Y register of `8xyN`, `5xy0`, `9xy0` and `Dxyn` is bits 4-7 of the word.
  - The code computes `code & 0x00F0 >> 8`, which is always 0 (disassembler.go:162). Every `V%d` built from Y prints `V0`.
  - A decoder that reads Y from bits 4-7 would print `ADD\tV10, V11` for `0x8AB4`; this code prints `ADD\tV10, V0` (`Properties.ExampleAdd`).
  - Likewise it would print `SNE\tV1, V2` for `0x5123`; this code prints `SNE\tV1, V0` (`Properties.ExampleSkipNotEqual`).
- **Class 0x3**
  - Conventionally, `3xkk` compares Vx with the byte kk.
  - The code prints the 12-bit address with `0x%03x` (disassembler.go:50), so `0x3A12` gives `SE\tV10, 0xa12`.
- **Class 0x5**
  - Conventionally, `5xy0` skips the next instruction when Vx equals Vy.
  - The code prints `SNE`, as it does for class 0x9 (disassembler.go:56, 97).

No corrected variant of these is modelled.

## Model

| member | source | states |
|---|---|---|
| Format.DigitsShape | disassembler.go:110 | `%x` and `%d` print a non-empty string of digits of the base, with no leading zero unless the number is zero |
| Format.DigitsRoundTrip | disassembler.go:50 | reading the printed digits back in their base gives the number |
| Format.DigitsWidth | disassembler.go:41 | a number prints in at most k digits exactly when it is below base^k |
| Format.ZeroPadShape | disassembler.go:41 | zero padding keeps the digits as the tail, fills only the front and only with '0', and reaches the requested width |
| Format.LeadingZeros | disassembler.go:41 | leading '0' characters do not change the value a digit string reads back as |
| Format.HexPadRoundTrip | disassembler.go:13 | `%0Nx` of a number below 16^N is exactly N lowercase hex digits that read back as the number |
| Format.DecimalRoundTrip | disassembler.go:50 | `%d` prints decimal digits that read back as the number |
| Format.HexRoundTrip | disassembler.go:110 | `%x` prints hex digits that read back as the number, and a single digit exactly for numbers below 16 |
| Disassembler.Decode | disassembler.go:21-23 | the high byte of the result is the low byte of the input and the low byte of the result is the high byte of the input |
| Disassembler.XRegister | disassembler.go:157-159 | the result is below 16 and is bits 8-11: the word is its class times 0x1000, plus the result times 0x100, plus its low byte |
| Disassembler.YRegister | disassembler.go:161-163 | the result is 0 for every word |
| Disassembler.Value | disassembler.go:165-167 | the result is below 0x100 and is the low byte of the word |
| Disassembler.Address | disassembler.go:169-171 | the result is below 0x1000 and is the word without its top nibble |
| Disassembler.Nibble | disassembler.go:173-175 | the result is below 0x10 and is the low nibble of the word |
| Disassembler.Generate | disassembler.go:25-155 | every word gets a non-empty line |
| Disassembler.ListingStep | disassembler.go:11-16 | appending a word's hex echo and tab, its mnemonic line and a newline to the listing of the words before it gives the listing through that word |
| Disassembler.Disassemble | disassembler.go:8-19 | the text built is the listing: the lines of the words in program order |
| Properties.DecodeInvolutive | disassembler.go:21-23 | swapping the bytes twice gives the raw word back |
| Properties.RegText | disassembler.go:50 | `V%d` of a register index is `V` and one or two decimal digits that read back as the index |
| Properties.RegYText | disassembler.go:161-163 | the Y register of any word prints as `V0` |
| Properties.AddrText | disassembler.go:41 | `0x%03x` of an address is `0x` and exactly three hex digits that read back as the address |
| Properties.ByteText | disassembler.go:53 | `0x%02x` of a byte is `0x` and exactly two hex digits that read back as the byte |
| Properties.NibText | disassembler.go:110 | `0x%x` of a nibble is `0x` and one hex digit that reads back as the nibble |
| Properties.WordHexText | disassembler.go:154 | `0x%04x` of a word is `0x` and exactly four hex digits that read back as the word |
| Properties.ClearAndReturn | disassembler.go:26-32 | 0x00E0 prints `CLS` and 0x00EE prints `RET`, ahead of the class-0x0 `SYS` case |
| Properties.SystemCall | disassembler.go:39-41 | every other class-0x0 word prints `SYS\t0x` and three hex digits that read back as its address, nine characters in all |
| Properties.AddressOperand | disassembler.go:40-103 | in classes 0x0-0x3, 0xA and 0xB the line is the class's mnemonic head from `ClassHead` (`SYS\t`, `JMP\t`, `CALL\t`, `SE\t` with Vx, `LD\tI, `, `JMP\tV0, `) followed by the address text: `0x` and three hex digits that read back as the 12-bit address (SE included) |
| Properties.ByteOperand | disassembler.go:52-106 | in classes 0x4, 0x6, 0x7 and 0xC the line is the class's mnemonic and Vx from `ClassHead` (`SNE`, `LD`, `ADD`, `RND`) followed by `0x` and two hex digits that read back as the low byte |
| Properties.NibbleOperand | disassembler.go:108-110 | DRW is `ClassHead`'s `DRW\t` with Vx, then Vy, then `0x` and one hex digit that reads back as the low nibble |
| Properties.RegisterYIsV0 | disassembler.go:55-110 | in classes 0x5, 0x9, the defined class-0x8 operations and DRW, the line starts with the mnemonic and Vx (`SNE` for 0x5 and 0x9 and `DRW` from `ClassHead`, the low-nibble mnemonic from `ArithmeticHead` for 0x8), and the Y operand prints `V0` |
| Properties.RegisterYBitsIgnored | disassembler.go:55-110 | in those classes, two words that agree on class, X register and low nibble print the same line, whatever their bits 4-7 |
| Properties.SkipClassesAgree | disassembler.go:55-97 | a class-0x5 word and a class-0x9 word with the same X register print the same `SNE` line |
| Properties.ArithmeticFallback | disassembler.go:64-94 | a class-0x8 word prints the `DAT` line exactly when its low nibble is not 0-7 or 0xE |
| Properties.KeyFallback | disassembler.go:112-119 | a class-0xE word prints the `DAT` line exactly when its low byte is neither 0x9E nor 0xA1 |
| Properties.MiscFallback | disassembler.go:121-150 | a class-0xF word prints the `DAT` line exactly when its low byte is none of 07, 0A, 15, 18, 1E, 29, 33, 55, 65 |
| Properties.NoFallback | disassembler.go:39-110 | a word of a class without a sub-dispatch never prints the `DAT` line |
| Properties.Fallback | disassembler.go:154 | `DAT\t` and the word as `0x%04x` is printed exactly for the unmatched words, and its four hex digits read back as the word |
| Properties.ArithmeticLine | disassembler.go:64-94 | a defined class-0x8 line is the mnemonic that the low nibble alone selects, then the X and Y registers |
| Properties.KeyLine | disassembler.go:112-119 | a defined class-0xE line is `SKP` for low byte 0x9E or `SKNP` for 0xA1, then the X register |
| Properties.MiscLine | disassembler.go:121-150 | a defined class-0xF line is the text that the low byte alone selects, around the X register as the only operand |
| Properties.SubDispatchTemplate | disassembler.go:64-150 | two words of class 0x8, 0xE or 0xF with the same discriminant print the same text around their own X register |
| Properties.GenerateSingleLine | disassembler.go:25-155 | no mnemonic line contains a newline |
| Properties.ExampleJump | disassembler.go:43-44 | 0x1234 prints `JMP\t0x234` |
| Properties.ExampleSkipEqual | disassembler.go:49-50 | 0x3A12 prints `SE\tV10, 0xa12` |
| Properties.ExampleLoad | disassembler.go:58-59 | 0x6A3B prints `LD\tV10, 0x3b` |
| Properties.ExampleAdd | disassembler.go:80-81 | 0x8AB4 prints `ADD\tV10, V0` |
| Properties.ExampleSkipNotEqual | disassembler.go:55-56 | 0x5123 prints `SNE\tV1, V0` |
| Properties.ExampleKey | disassembler.go:115-116 | 0xE19E prints `SKP\tV1` |
| Properties.ExampleFont | disassembler.go:139-140 | 0xF129 prints `LD\tF, V1` |
| Properties.ExampleDraw | disassembler.go:108-110 | 0xD12F prints `DRW\tV1, V0, 0xf` |
| Properties.ExampleData | disassembler.go:154 | 0x8AB8, an undefined class-0x8 operation, prints `DAT\t0x8ab8` |
| Listings.JoinedAppend | disassembler.go:11-16 | joining the lines of two programs in sequence is joining each and concatenating |
| Listings.ListingAppend | disassembler.go:8-19 | the empty program has the empty listing, and the listing of `a + b` is the listing of `a` followed by that of `b` |
| Listings.ListingLineAt | disassembler.go:11-16 | the line of word i sits between the listing of the words before it and the listing of the words after it |
| Listings.LineFormat | disassembler.go:12-15 | a line is `0x`, four hex digits that read back as the byte-swapped word, a tab, the mnemonic line and a final newline, the only newline in it |
| Listings.LineHeadDeterminesWord | disassembler.go:12-13 | two raw words whose lines share the first six characters are equal |
| Listings.ListingInjective | disassembler.go:8-19 | equal listings come from equal programs |
| Listings.LineNewlines | disassembler.go:12-15 | every line contains exactly one newline |
| Listings.ListingLineCount | disassembler.go:8-19 | the listing contains exactly as many newlines as the program has words |
| Listings.ExampleLines | disassembler.go:12-15 | raw words 0xE000 and 0xEE00 give the lines `0x00e0\tCLS\n` and `0x00ee\tRET\n` |
| Listings.ExampleJumpBody | disassembler.go:43-44 | the normalised word 0x121A prints `JMP\t0x21a` |
| Listings.ExampleJumpLine | disassembler.go:12-15 | raw word 0x1A12 gives the line `0x121a\tJMP\t0x21a\n` |
| Listings.ExampleListingOne | disassembler.go:8-19 | the one-word program `[0xE000]` gives the listing `0x00e0\tCLS\n` |
| Listings.ExampleListingTwo | disassembler.go:8-19 | the two-word program `[0xE000, 0xEE00]` gives the listing `0x00e0\tCLS\n0x00ee\tRET\n` |
| Listings.ExampleListing | disassembler.go:8-19 | the three-word program `[0xE000, 0xEE00, 0x1A12]` gives the whole listing `0x00e0\tCLS\n0x00ee\tRET\n0x121a\tJMP\t0x21a\n`, one line per word in program order |

## Left out

- `main` (disassembler.go:177-332) is left out. It is a hard-coded sample program and a `fmt.Println` of its listing: sample data and console output.
- Go's `fmt.Sprintf` and `strings.Builder` are library code. The model replaces them with the `Format` rendering functions for the verbs used (`%d`, `%x`, `%02x`, `%03x`, `%04x`) and with a string variable that the loop extends.
- Go's `uint16` is the integer range `Word`. No arithmetic in the source leaves 16 bits, so there is no wrap-around to model.
- Disassembler.Generate: its own contract states only that the line is non-empty. The full text of every class is stated by the `Properties` lemmas: CLS/RET and SYS by `ClearAndReturn` and `SystemCall`, the classes without a sub-dispatch by `AddressOperand`, `ByteOperand`, `NibbleOperand` and `RegisterYIsV0`, each naming its mnemonic through the `ClassHead` table, the sub-dispatch classes by `ArithmeticLine`, `KeyLine` and `MiscLine`, and the DAT fallback by `Fallback`.
- Idempotence of formatting, meaning that the same word always gives the same line, holds for every Dafny function by construction, so no lemma states it.
