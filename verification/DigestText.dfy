/** Digests as text: the fingerprint's spelling and what the exporter takes for a digest are the same 64 characters. */
module DigestText {
  import opened DocumentModel
  import opened Sha256Standard
  import opened StreamingSha256

  ghost predicate AllHex(text: string) { forall i | 0 <= i < |text| :: LowerHex(text[i]) }

  function DigitValue(c: char): (n: nat)
    requires LowerHex(c)
    ensures n < 16 && HexDigit(n) == c
  {
    if c <= '9' then (c - '0') as nat else 10 + (c - 'a') as nat
  }

  function Power16(n: nat): nat { if n == 0 then 1 else 16 * Power16(n - 1) }

  /** The number a text of hexadecimal digits stands for. */
  function HexValue(text: string): nat
    requires AllHex(text)
  {
    if text == "" then 0 else 16 * HexValue(text[..|text| - 1]) + DigitValue(text[|text| - 1])
  }

  lemma OneDigitLess(text: string, n: nat)
    requires text != "" && AllHex(text[..|text| - 1]) && text[|text| - 1] == HexDigit(n % 16)
    requires HexValue(text[..|text| - 1]) == n / 16
    ensures AllHex(text) && HexValue(text) == n
  {
    assert DigitValue(text[|text| - 1]) == n % 16;
  }

  lemma QuotientIsSmaller(n: nat, power: nat)
    requires n < 16 * power
    ensures n / 16 < power
  {
  }

  lemma {:induction false} HexReadBack(n: nat, width: nat)
    requires n < Power16(width)
    ensures AllHex(Hex(n, width)) && HexValue(Hex(n, width)) == n
  {
    if width > 0 {
      QuotientIsSmaller(n, Power16(width - 1));
      HexReadBack(n / 16, width - 1);
      assert Hex(n, width)[..width - 1] == Hex(n / 16, width - 1);
      OneDigitLess(Hex(n, width), n);
    }
  }

  lemma OneDigitMore(n: nat, digit: nat, width: nat)
    requires digit < 16
    ensures Hex(16 * n + digit, width + 1) == Hex(n, width) + [HexDigit(digit)]
  {
    assert (16 * n + digit) / 16 == n && (16 * n + digit) % 16 == digit;
  }

  lemma {:induction false} HexOfValue(text: string)
    requires AllHex(text)
    ensures HexValue(text) < Power16(|text|) && Hex(HexValue(text), |text|) == text
  {
    if text != "" {
      var front, last := text[..|text| - 1], text[|text| - 1];
      HexOfValue(front);
      OneDigitMore(HexValue(front), DigitValue(last), |front|);
      assert text == front + [last];
    }
  }

  lemma WordsHaveEightDigits()
    ensures Power16(8) == TWO_32
  {
    assert Power16(4) == 0x1_0000;
    assert Power16(6) == 0x100_0000;
  }

  lemma WordReadBack(w: Word)
    ensures AllHex(Hex(w as nat, 8)) && HexValue(Hex(w as nat, 8)) == w as nat
  {
    WordsHaveEightDigits();
    HexReadBack(w as nat, 8);
  }

  /** The last word's digits, and those before it. */
  lemma LastWord(words: seq<Word>)
    requires words != []
    ensures HexOf(words)[..|HexOf(words)| - 8] == HexOf(words[..|words| - 1])
    ensures HexOf(words)[|HexOf(words)| - 8..] == Hex(words[|words| - 1] as nat, 8)
  {
  }

  /** Different digests have different texts. */
  lemma {:induction false} HexOfIsInjective(a: seq<Word>, b: seq<Word>)
    requires HexOf(a) == HexOf(b)
    ensures a == b
  {
    if a != [] {
      LastWord(a);
      LastWord(b);
      HexOfIsInjective(a[..|a| - 1], b[..|b| - 1]);
      WordReadBack(a[|a| - 1]);
      WordReadBack(b[|b| - 1]);
      SameNumberSameWord(a[|a| - 1], b[|b| - 1]);
      assert a == a[..|a| - 1] + [a[|a| - 1]] && b == b[..|b| - 1] + [b[|b| - 1]];
    }
  }

  lemma SameNumberSameWord(v: Word, w: Word)
    requires v as nat == w as nat
    ensures v == w
  {
    assert (v as nat) as Word == v && (w as nat) as Word == w;
  }

  lemma {:induction false} DigestIsHex(words: seq<Word>)
    ensures AllHex(HexOf(words))
  {
    if words != [] {
      DigestIsHex(words[..|words| - 1]);
      WordReadBack(words[|words| - 1]);
    }
  }

  /** The exporter accepts no fingerprint, or the 64 digits of a number of 256 bits, and nothing else. */
  lemma ValidDigestExactlyWhen(text: string)
    ensures ValidDigest(text) <==> text == "" || exists n: nat | n < Power16(64) :: Hex(n, 64) == text
  {
    if ValidDigest(text) && text != "" {
      HexOfValue(text);
    }
    forall n: nat | n < Power16(64) && Hex(n, 64) == text
      ensures ValidDigest(text)
    {
      HexReadBack(n, 64);
    }
  }

  /** Every digest is accepted, as the fingerprint spells it. */
  lemma DigestIsAccepted(words: seq<Word>)
    requires |words| == 8
    ensures ValidDigest(HexOf(words))
  {
    DigestIsHex(words);
  }
}
