/**
  The character-class macros of the preprocessor (lambda.c, lines 31-34).
  They are written with unsigned arithmetic instead of the C library's
  locale-dependent classifiers: a subtraction that would go below zero wraps
  around and so fails the `< n` test.  The model writes that wrap-around out
  modulo 2^32, and each macro is proved equal to the plain range test.
*/
module CharClass {

  /** Conversion of a difference to C's 32-bit `unsigned`: wraps modulo 2^32. */
  function Unsigned(x: int): (u: nat)
    ensures u < 0x1_0000_0000
  {
    x % 0x1_0000_0000
  }

  /** `x | 32` on a non-negative integer: sets the bit of weight 32. */
  function Or32(x: nat): (r: nat)
  {
    if (x / 32) % 2 == 1 then x else x + 32
  }

  /** `isalpha`: `((unsigned)a | 32) - 'a' < 26`, in unsigned arithmetic. */
  predicate IsAlpha(c: char)
  {
    Unsigned(Or32(c as int) - 'a' as int) < 26
  }

  /** `isdigit`: `(unsigned)a - '0' < 10`, in unsigned arithmetic. */
  predicate IsDigit(c: char)
  {
    Unsigned(c as int - '0' as int) < 10
  }

  /** `isalnum`. */
  predicate IsAlnum(c: char)
  {
    IsAlpha(c) || IsDigit(c)
  }

  /** `isspace`: a byte from `'\t'` to `'\r'`, or a blank. */
  predicate IsSpace(c: char)
  {
    ('\t' <= c && c <= '\r') || c == ' '
  }

  /** The bit trick of `isalpha` accepts exactly the ASCII letters. */
  lemma AlphaIsLetter(c: char)
    ensures IsAlpha(c) <==> ('a' <= c <= 'z' || 'A' <= c <= 'Z')
  {
    var x := c as int;
    if 'a' <= c <= 'z' {
      assert (x / 32) % 2 == 1 by { assert x / 32 == 3; }
    } else if 'A' <= c <= 'Z' {
      assert (x / 32) % 2 == 0 by { assert x / 32 == 2; }
    } else if x < 64 {
      assert Or32(x) < 97;
    } else if x < 128 {
      assert x / 32 == 2 || x / 32 == 3;
    }
  }

  /** The wrap-around test of `isdigit` accepts exactly the ASCII digits. */
  lemma DigitIsDecimal(c: char)
    ensures IsDigit(c) <==> '0' <= c <= '9'
  {
  }
}
