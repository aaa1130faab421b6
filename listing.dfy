/**
 * What the listing as a whole promises: it is the lines of the words in
 * program order, each line is one line of text that begins with the
 * normalised word in four hex digits, there is exactly one line per word,
 * and the listing determines the program it was made from.
 */
module Listings {
  import opened Format
  import opened Disassembler
  import opened Properties

  // ---------------------------------------------------------------------------
  // Joining rendered lines

  /** Joining the lines of two programs one after the other is joining each and concatenating. */
  lemma {:induction false} JoinedAppend(a: seq<Word>, b: seq<Word>, render: Word -> string)
    ensures Joined(a + b, render) == Joined(a, render) + Joined(b, render)
    decreases |b|
  {
    if b == [] {
      assert a + b == a;
    } else {
      var front := b[..|b| - 1];
      assert (a + b)[..|a + b| - 1] == a + front;
      JoinedAppend(a, front, render);
    }
  }

  /** The joined text of a non-empty program begins with the line of its first word. */
  lemma JoinedFirst(program: seq<Word>, render: Word -> string)
    requires program != []
    ensures Joined(program, render) == render(program[0]) + Joined(program[1..], render)
  {
    assert program == [program[0]] + program[1..];
    JoinedAppend([program[0]], program[1..], render);
    assert Joined([program[0]], render) == Joined([], render) + render(program[0]);
  }

  /** The line of word `i` sits between the lines of the words before it and of the words after it. */
  lemma JoinedLineAt(program: seq<Word>, i: nat, render: Word -> string)
    requires i < |program|
    ensures Joined(program, render) == Joined(program[..i], render) + render(program[i]) + Joined(program[i + 1..], render)
  {
    var front := program[..i + 1];
    assert program == front + program[i + 1..];
    assert front[..|front| - 1] == program[..i] && front[|front| - 1] == program[i];
    assert Joined(front, render) == Joined(program[..i], render) + render(program[i]);
    JoinedAppend(front, program[i + 1..], render);
  }

  /** With non-empty lines, only the empty program joins to the empty text. */
  lemma JoinedEmpty(program: seq<Word>, render: Word -> string)
    requires forall w :: 0 < |render(w)|
    ensures Joined(program, render) == "" <==> program == []
  {
  }

  /**
   * When every line is non-empty and its first `k` characters determine the
   * word, the joined text determines the program.
   */
  lemma {:induction false} JoinedInjective(p: seq<Word>, q: seq<Word>, render: Word -> string, k: nat)
    requires forall w :: k <= |render(w)|
    requires 0 < k
    requires forall w1, w2 :: render(w1)[..k] == render(w2)[..k] ==> w1 == w2
    requires Joined(p, render) == Joined(q, render)
    ensures p == q
    decreases |p|
  {
    if p != [] && q != [] {
      JoinedFirst(p, render);
      JoinedFirst(q, render);
      var lp, lq := render(p[0]), render(q[0]);
      assert lp[..k] == Joined(p, render)[..k] == lq[..k];
      assert p[0] == q[0];
      assert Joined(p, render)[|lp|..] == Joined(p[1..], render);
      assert Joined(q, render)[|lq|..] == Joined(q[1..], render);
      JoinedInjective(p[1..], q[1..], render, k);
      assert p == [p[0]] + p[1..];
      assert q == [q[0]] + q[1..];
    } else {
      JoinedEmpty(p, render);
      JoinedEmpty(q, render);
    }
  }

  // ---------------------------------------------------------------------------
  // The lines of the listing

  /** The listing of two programs one after the other is the two listings one after the other. */
  lemma ListingAppend(a: seq<Word>, b: seq<Word>)
    ensures Listing([]) == ""
    ensures Listing(a + b) == Listing(a) + Listing(b)
  {
    JoinedAppend(a, b, Line);
  }

  /** The line of word `i` sits between the listing of the words before it and of the words after it. */
  lemma ListingLineAt(program: seq<Word>, i: nat)
    requires i < |program|
    ensures Listing(program) == Listing(program[..i]) + Line(program[i]) + Listing(program[i + 1..])
  {
    JoinedLineAt(program, i, Line);
  }

  /**
   * The line of a raw word: `0x`, four hex digits that read back as the
   * normalised word, a tab, the mnemonic line, and one final newline that
   * is the only newline in it.
   */
  lemma LineFormat(raw: Word)
    ensures var l, g := Line(raw), Generate(Decode(raw));
      |l| == |g| + 8 && l[..2] == "0x" && AllDigits(l[2..6], 16) && ValueOf(l[2..6], 16) == Decode(raw) &&
      l[6] == '\t' && l[7..|l| - 1] == g && l[|l| - 1] == '\n' && '\n' !in l[..|l| - 1]
  {
    var t, g := WordHex(Decode(raw)), Generate(Decode(raw));
    WordHexText(Decode(raw));
    GenerateSingleLine(Decode(raw));
    var l := Line(raw);
    assert l == t + "\t" + g + "\n";
    assert l[2..6] == t[2..];
    assert l[..|l| - 1] == t + "\t" + g;
    assert l[..2] == t[..2];
    NoNewlineIn(t, "\t" + g);
  }

  /** Joining two newline-free texts gives a newline-free text. */
  lemma NoNewlineIn(a: string, b: string)
    requires '\n' !in a && '\n' !in b
    ensures '\n' !in a + b
  {
  }

  /** Two raw words whose lines begin alike, in their first six characters, are equal. */
  lemma LineHeadDeterminesWord(r1: Word, r2: Word)
    requires Line(r1)[..6] == Line(r2)[..6]
    ensures r1 == r2
  {
    LineFormat(r1);
    LineFormat(r2);
    assert Line(r1)[2..6] == Line(r1)[..6][2..];
    assert Line(r2)[2..6] == Line(r2)[..6][2..];
    DecodeInvolutive(r1);
    DecodeInvolutive(r2);
  }

  /** Different programs give different listings: the listing determines the program. */
  lemma ListingInjective(p: seq<Word>, q: seq<Word>)
    requires Listing(p) == Listing(q)
    ensures p == q
  {
    forall w ensures 6 <= |Line(w)| {
      LineFormat(w);
    }
    forall w1, w2 | Line(w1)[..6] == Line(w2)[..6] ensures w1 == w2 {
      LineHeadDeterminesWord(w1, w2);
    }
    JoinedInjective(p, q, Line, 6);
  }

  // ---------------------------------------------------------------------------
  // Line count

  /** The number of newlines in a text. */
  function Newlines(s: string): (n: nat)
    ensures n <= |s|
  {
    if s == [] then 0 else Newlines(s[..|s| - 1]) + (if s[|s| - 1] == '\n' then 1 else 0)
  }

  lemma {:induction false} NewlinesAppend(a: string, b: string)
    ensures Newlines(a + b) == Newlines(a) + Newlines(b)
    decreases |b|
  {
    if b == [] {
      assert a + b == a;
    } else {
      assert (a + b)[..|a + b| - 1] == a + b[..|b| - 1];
      NewlinesAppend(a, b[..|b| - 1]);
    }
  }

  lemma {:induction false} NoNewlines(s: string)
    requires '\n' !in s
    ensures Newlines(s) == 0
    decreases |s|
  {
    if s != [] {
      assert s[|s| - 1] in s;
      assert forall c :: c in s[..|s| - 1] ==> c in s;
      NoNewlines(s[..|s| - 1]);
    }
  }

  /** Every line holds exactly one newline. */
  lemma LineNewlines(raw: Word)
    ensures Newlines(Line(raw)) == 1
  {
    var l := Line(raw);
    LineFormat(raw);
    assert l == l[..|l| - 1] + [l[|l| - 1]];
    NoNewlines(l[..|l| - 1]);
    NewlinesAppend(l[..|l| - 1], [l[|l| - 1]]);
  }

  /** A listing has exactly one line per word of the program. */
  lemma {:induction false} ListingLineCount(program: seq<Word>)
    ensures Newlines(Listing(program)) == |program|
    decreases |program|
  {
    if program != [] {
      var front, last := program[..|program| - 1], program[|program| - 1];
      ListingLineCount(front);
      LineNewlines(last);
      assert Listing(program) == Listing(front) + Line(last);
      NewlinesAppend(Listing(front), Line(last));
    }
  }

  // ---------------------------------------------------------------------------
  // A whole listing

  /** The lines of the first two words of a program image: the byte-swapped CLS and RET. */
  lemma ExampleLines()
    ensures Line(0xE000) == "0x00e0\tCLS\n"
    ensures Line(0xEE00) == "0x00ee\tRET\n"
  {
    assert Decode(0xE000) == 0x00E0;
    assert Decode(0xEE00) == 0x00EE;
    assert WordHex(0x00E0) == "0x00e0";
    assert WordHex(0x00EE) == "0x00ee";
  }

  /** The mnemonic line of the normalised jump 0x121A. */
  lemma ExampleJumpBody()
    ensures Generate(0x121A) == "JMP\t0x21a"
  {
    assert Address(0x121A) == 0x21A;
    assert Addr(0x21A) == "0x21a";
  }

  /** The line of a byte-swapped jump: the raw word 0x1A12 is the instruction 0x121A. */
  lemma ExampleJumpLine()
    ensures Line(0x1A12) == "0x121a\tJMP\t0x21a\n"
  {
    assert Decode(0x1A12) == 0x121A;
    assert Line(0x1A12) == WordHex(0x121A) + "\t" + Generate(0x121A) + "\n";
    assert WordHex(0x121A) == "0x121a";
    ExampleJumpBody();
  }

  // Two concatenations of string literals, used as steps by the example listings below.
  lemma ExampleText()
    ensures "0x00e0\tCLS\n" + "0x00ee\tRET\n" == "0x00e0\tCLS\n0x00ee\tRET\n"
    ensures "0x00e0\tCLS\n0x00ee\tRET\n" + "0x121a\tJMP\t0x21a\n" == "0x00e0\tCLS\n0x00ee\tRET\n0x121a\tJMP\t0x21a\n"
  {
  }

  /** The listing of the one-word program image `e0 00`. */
  lemma ExampleListingOne()
    ensures Listing([0xE000]) == "0x00e0\tCLS\n"
  {
    var one: seq<Word> := [0xE000];
    assert one[..0] == [];
    assert Listing([0xE000]) == Line(0xE000);
    ExampleLines();
  }

  /** The listing of the two-word program image `e0 00 ee 00`. */
  lemma ExampleListingTwo()
    ensures Listing([0xE000, 0xEE00]) == "0x00e0\tCLS\n0x00ee\tRET\n"
  {
    assert [0xE000, 0xEE00][..1] == [0xE000];
    assert Listing([0xE000, 0xEE00]) == Listing([0xE000]) + Line(0xEE00);
    ExampleListingOne();
    ExampleLines();
    ExampleText();
  }

  /**
   * The whole listing of the program image `e0 00 ee 00 12 1a`: one line per
   * word, in program order, each the decoded word in hex, a tab and its mnemonic.
   */
  lemma ExampleListing()
    ensures Listing([0xE000, 0xEE00, 0x1A12]) == "0x00e0\tCLS\n0x00ee\tRET\n0x121a\tJMP\t0x21a\n"
  {
    assert [0xE000, 0xEE00, 0x1A12][..2] == [0xE000, 0xEE00];
    assert Listing([0xE000, 0xEE00, 0x1A12]) == Listing([0xE000, 0xEE00]) + Line(0x1A12);
    ExampleListingTwo();
    ExampleJumpLine();
    ExampleText();
  }
}
