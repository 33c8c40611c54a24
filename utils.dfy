/** Package `utils`: the Base62 codec of `internal/utils/shortcode.go` (the digit
    alphabet, the encoder by repeated division and reversal, the decoder by Horner
    accumulation on a signed 64-bit integer, the rune-slice reversal), and short-code
    generation, which encodes the IDs of a snowflake node. */
module Utils {
  import opened Wrappers

  /** The digit alphabet, "0123456789abcdefghijklmnopqrstuvwxyzABCDEFGHIJKLMNOPQRSTUVWXYZ":
      digit d is the character at index d. It is written as its three runs so that the
      proofs can index each run separately. */
  const Base62Chars: string := Decimal + Lower + Upper

  const Base: int := 62

  const Two63: int := 0x8000_0000_0000_0000
  const Two64: int := 0x1_0000_0000_0000_0000

  /** Go's `int64`. */
  type Int64 = x: int | -0x8000_0000_0000_0000 <= x < 0x8000_0000_0000_0000

  /** Two's-complement wrap-around of an unbounded integer into `int64`. */
  function ToInt64(x: int): (r: Int64)
    ensures (r - x) % Two64 == 0
    ensures -Two63 <= x < Two63 ==> r == x
  {
    var m := (x + Two63) % Two64;
    assert (m - Two63 - x) % Two64 == 0 by {
      assert m - Two63 - x == -((x + Two63) / Two64) * Two64;
    }
    m - Two63
  }

  /** The characters the decoder accepts: `0-9`, `a-z` and `A-Z`. */
  predicate IsDigit62(c: char) {
    ('0' <= c <= '9') || ('a' <= c <= 'z') || ('A' <= c <= 'Z')
  }

  /** The decoder's value of one accepted character. */
  function DigitValue(c: char): (d: nat)
    requires IsDigit62(c)
    ensures d < Base
  {
    if '0' <= c <= '9' then c as int - '0' as int
    else if 'a' <= c <= 'z' then c as int - 'a' as int + 10
    else c as int - 'A' as int + 36
  }

  /** A string made only of Base62 digits. */
  predicate IsNumeral(s: string) {
    forall i :: 0 <= i < |s| ==> IsDigit62(s[i])
  }

  /** A numeral without redundant leading zeros: "0" itself, or one whose first digit is not '0'. */
  predicate IsCanonical(s: string) {
    IsNumeral(s) && |s| > 0 && (s == "0" || s[0] != '0')
  }

  /** The number a numeral denotes, most significant digit first. */
  function Value(s: string): nat
    requires IsNumeral(s)
  {
    if s == [] then 0 else Value(s[..|s| - 1]) * Base + DigitValue(s[|s| - 1])
  }

  /** The digits of `n`, least significant first, as the encoder's loop writes them. */
  function LittleEndianDigits(n: nat): string
  {
    if n == 0 then [] else [Base62Chars[n % Base]] + LittleEndianDigits(n / Base)
  }

  /** The sequence `s` read backwards. */
  function Reversed<T>(s: seq<T>): seq<T>
  {
    if s == [] then [] else Reversed(s[1..]) + [s[0]]
  }

  // ---------------------------------------------------------------------------
  // Properties of the alphabet and of the value function
  // ---------------------------------------------------------------------------

  /** Every character of the alphabet is accepted by the decoder, which gives it its index as value. */
  lemma AlphabetDigit(d: nat)
    requires d < Base
    ensures |Base62Chars| == Base
    ensures IsDigit62(Base62Chars[d]) && DigitValue(Base62Chars[d]) == d
  {
    assert |Base62Chars| == |Decimal| + |Lower| + |Upper|;
    if d < 10 {
      DecimalDigit(d);
    } else if d < 36 {
      LowerDigit(d - 10);
    } else {
      UpperDigit(d - 36);
    }
  }

  lemma DecimalDigit(k: nat)
    requires k < 10
    ensures Base62Chars[k] == Decimal[k] && IsDigit62(Decimal[k]) && DigitValue(Decimal[k]) == k
  {
    DecimalRun(k);
  }

  lemma LowerDigit(k: nat)
    requires k < 26
    ensures Base62Chars[10 + k] == Lower[k] && IsDigit62(Lower[k]) && DigitValue(Lower[k]) == 10 + k
  {
    LowerRun(k);
    assert Base62Chars == (Decimal + Lower) + Upper;
    assert (Decimal + Lower)[10 + k] == Lower[k];
  }

  lemma UpperDigit(k: nat)
    requires k < 26
    ensures Base62Chars[36 + k] == Upper[k] && IsDigit62(Upper[k]) && DigitValue(Upper[k]) == 36 + k
  {
    UpperRun(k);
  }

  const Decimal: string := "0123456789"
  const Lower: string := "abcdefghijklmnopqrstuvwxyz"
  const Upper: string := "ABCDEFGHIJKLMNOPQRSTUVWXYZ"

  lemma DecimalRun(k: nat)
    requires k < 10
    ensures Decimal[k] == ('0' as int + k) as char
  {
  }

  lemma LowerRun(k: nat)
    requires k < 26
    ensures Lower[k] == ('a' as int + k) as char
  {
  }

  lemma UpperRun(k: nat)
    requires k < 26
    ensures Upper[k] == ('A' as int + k) as char
  {
  }

  /** Conversely, an accepted character is the alphabet's entry at its value. */
  lemma DigitInAlphabet(c: char)
    requires IsDigit62(c)
    ensures Base62Chars[DigitValue(c)] == c
  {
    AlphabetDigit(DigitValue(c));
  }

  /** `Reversed` has the length of its argument and puts element k at position |s| - 1 - k. */
  lemma {:induction false} ReversedAt<T>(s: seq<T>, k: nat)
    requires k < |s|
    ensures |Reversed(s)| == |s| && Reversed(s)[k] == s[|s| - 1 - k]
  {
    if k < |s| - 1 {
      ReversedAt(s[1..], k);
    } else {
      ReversedLength(s[1..]);
    }
  }

  lemma {:induction false} ReversedLength<T>(s: seq<T>)
    ensures |Reversed(s)| == |s|
  {
    if s != [] {
      ReversedLength(s[1..]);
    }
  }

  /** Reversing a sequence with one more element at its end puts that element first. */
  lemma {:induction false} ReversedAppend<T>(s: seq<T>, x: T)
    ensures Reversed(s + [x]) == [x] + Reversed(s)
  {
    if s == [] {
      assert [x][1..] == [];
    } else {
      assert (s + [x])[1..] == s[1..] + [x];
      ReversedAppend(s[1..], x);
    }
  }

  /** Reversing twice gives back the original sequence. */
  lemma {:induction false} ReversedTwice<T>(s: seq<T>)
    ensures Reversed(Reversed(s)) == s
  {
    if s != [] {
      ReversedTwice(s[1..]);
      ReversedAppend(Reversed(s[1..]), s[0]);
      assert [s[0]] + s[1..] == s;
    }
  }

  /** Two canonical numerals with the same value are the same string. */
  lemma CanonicalUnique(s: string, t: string)
    requires IsCanonical(s) && IsCanonical(t) && Value(s) == Value(t)
    ensures s == t
  {
    if s != "0" {
      CanonicalIsEncoding(s);
    }
    if t != "0" {
      CanonicalIsEncoding(t);
    }
    if s == "0" || t == "0" {
      ZeroDigit();
    }
  }

  /** The value of a numeral extended by one digit on the right. */
  lemma ValueAppend(s: string, c: char)
    requires IsNumeral(s) && IsDigit62(c)
    ensures IsNumeral(s + [c]) && Value(s + [c]) == Value(s) * Base + DigitValue(c)
  {
    assert (s + [c])[..|s|] == s;
  }

  /** The digits the encoder emits for `n`, read most significant first, form a numeral
      denoting `n`; for positive `n` it does not start with '0'. */
  lemma {:induction false} EncodingDenotes(n: nat)
    ensures IsNumeral(Reversed(LittleEndianDigits(n)))
    ensures Value(Reversed(LittleEndianDigits(n))) == n
    ensures n > 0 ==> IsCanonical(Reversed(LittleEndianDigits(n)))
  {
    if n > 0 {
      var q, d := n / Base, n % Base;
      var rest, c := Reversed(LittleEndianDigits(q)), Base62Chars[d];
      EncodingDenotes(q);
      AlphabetDigit(d);
      EncodingStep(n);
      ValueAppend(rest, c);
      DigitSplit(q, d);
      ZeroDigit();
      CanonicalAppend(rest, c);
    }
  }

  /** A digit appended to a canonical numeral of a positive number, or a non-zero digit on
      its own, gives a canonical numeral. */
  lemma CanonicalAppend(s: string, c: char)
    requires IsNumeral(s) && IsDigit62(c)
    requires (s == [] && c != '0') || (IsCanonical(s) && s != "0")
    ensures IsCanonical(s + [c])
  {
    if s != [] {
      assert (s + [c])[0] == s[0];
    }
  }

  /** For positive `n`, the reversed digits are those of `n / Base` followed by the last digit. */
  lemma EncodingStep(n: nat)
    requires n > 0
    ensures Reversed(LittleEndianDigits(n)) == Reversed(LittleEndianDigits(n / Base)) + [Base62Chars[n % Base]]
  {
    var digits := LittleEndianDigits(n);
    assert digits[1..] == LittleEndianDigits(n / Base);
  }

  /** A numeral that does not start with '0' denotes a positive number, and it is
      exactly what the encoder's digit loop produces for that number, reversed. */
  lemma {:induction false} CanonicalIsEncoding(s: string)
    requires IsNumeral(s) && |s| > 0 && s[0] != '0'
    ensures Value(s) > 0 && Reversed(LittleEndianDigits(Value(s))) == s
  {
    var init, c := s[..|s| - 1], s[|s| - 1];
    assert s == init + [c];
    if init != [] {
      assert init[0] == s[0];
      CanonicalIsEncoding(init);
    }
    CanonicalStep(init, c);
  }

  /** The inductive step: a digit appended to the encoding of a positive number, or a
      non-zero digit on its own, is the encoding of the number it denotes. */
  lemma CanonicalStep(init: string, c: char)
    requires IsNumeral(init) && IsDigit62(c)
    requires init == [] ==> c != '0'
    requires init != [] ==> Value(init) > 0 && Reversed(LittleEndianDigits(Value(init))) == init
    ensures IsNumeral(init + [c]) && Value(init + [c]) > 0
    ensures Reversed(LittleEndianDigits(Value(init + [c]))) == init + [c]
  {
    var m, d := Value(init), DigitValue(c);
    ValueAppend(init, c);
    var n := Value(init + [c]);
    DigitSplit(m, d);
    assert n % Base == d && n / Base == m;
    DigitInAlphabet(c);
    if init == [] {
      ZeroDigit();
      assert n == d && d != 0;
    }
    EncodingStep(n);
    assert Reversed(LittleEndianDigits(n)) == Reversed(LittleEndianDigits(m)) + [c];
  }

  /** Appending digit `d` to a number `q` in base 62 and splitting it again. */
  lemma DigitSplit(q: nat, d: nat)
    requires d < Base
    ensures (q * Base + d) % Base == d && (q * Base + d) / Base == q
  {
  }

  /** Wrapping once per Horner step gives the same result as wrapping the exact value once. */
  lemma HornerWrap(acc: int, d: nat)
    ensures ToInt64(ToInt64(acc) * Base + d) == ToInt64(acc * Base + d)
  {
    var k := (ToInt64(acc) - acc) / Two64;
    assert ToInt64(acc) == acc + k * Two64;
    var x := acc * Base + d;
    assert ToInt64(acc) * Base + d == x + (k * Base) * Two64;
    ShiftInvariant(x, k * Base);
  }

  lemma ShiftInvariant(x: int, j: int)
    ensures ToInt64(x + j * Two64) == ToInt64(x)
  {
    var q, r := (x + Two63) / Two64, (x + Two63) % Two64;
    assert x + j * Two64 + Two63 == (q + j) * Two64 + r;
    ModOfDecomposition(x + j * Two64 + Two63, q + j, r);
  }

  lemma ModOfDecomposition(y: int, q: int, r: int)
    requires y == q * Two64 + r && 0 <= r < Two64
    ensures y % Two64 == r
  {
  }

  /** The encoder's special case for zero is the canonical numeral "0", denoting 0. */
  lemma ZeroDigit()
    ensures [Base62Chars[0]] == "0" && IsCanonical("0") && Value("0") == 0
  {
    assert Base62Chars[0] == Decimal[0];
    assert "0"[..0] == [];
  }

  // ---------------------------------------------------------------------------
  // The codec
  // ---------------------------------------------------------------------------

  /** reverseString: copies the runes into a slice and swaps from both ends inward. */
  method ReverseString(s: string) returns (r: string)
    ensures r == Reversed(s)
  {
    var runes := new char[|s|](k requires 0 <= k < |s| => s[k]);
    var n := |s|;
    var i, j := 0, n - 1;
    while i < j
      invariant 0 <= i <= n && j == n - 1 - i && i <= j + 1
      invariant forall k :: 0 <= k < i ==> runes[k] == s[n - 1 - k] && runes[n - 1 - k] == s[k]
      invariant forall k :: i <= k <= j ==> runes[k] == s[k]
    {
      runes[i], runes[j] := runes[j], runes[i];
      i, j := i + 1, j - 1;
    }
    r := runes[..];
    ReversedLength(s);
    forall k | 0 <= k < n
      ensures r[k] == Reversed(s)[k]
    {
      ReversedAt(s, k);
    }
  }

  /** The encoder's output, as a function: "0" for zero, "" for a negative number, and
      otherwise the digits of the division loop, read most significant first. */
  function Encoding(num: Int64): string
  {
    if num == 0 then "0"
    else if num < 0 then ""
    else Reversed(LittleEndianDigits(num))
  }

  /** What the encoder's output means: "0" for zero, "" for a negative number, and otherwise
      a numeral without a leading '0' that denotes the number. */
  lemma EncodingMeaning(num: Int64)
    ensures num == 0 ==> Encoding(num) == "0"
    ensures num < 0 ==> Encoding(num) == ""
    ensures num >= 0 ==> IsCanonical(Encoding(num)) && Value(Encoding(num)) == num
  {
    if num == 0 {
      ZeroDigit();
    } else if num > 0 {
      EncodingDenotes(num);
    }
  }

  /** EncodeBase62: "0" for zero; otherwise the remainders of repeated division by 62,
      taken as alphabet characters, then reversed. A negative input skips the loop. */
  method EncodeBase62(num: Int64) returns (s: string)
    ensures s == Encoding(num)
    ensures num == 0 ==> s == "0"
    ensures num < 0 ==> s == ""
    ensures num >= 0 ==> IsCanonical(s) && Value(s) == num
    ensures forall i :: 0 <= i < |s| ==> s[i] in Base62Chars
  {
    if num == 0 {
      s := [Base62Chars[0]];
      assert s == "0";
    } else {
      var result: string := [];
      var n: int := num;
      while n > 0
        invariant num < 0 ==> n == num && result == []
        invariant num > 0 ==> 0 <= n && result + LittleEndianDigits(n) == LittleEndianDigits(num)
      {
        var remainder := n % Base;
        assert LittleEndianDigits(n) == [Base62Chars[remainder]] + LittleEndianDigits(n / Base);
        result := result + [Base62Chars[remainder]];
        n := n / Base;
      }
      assert result == if num > 0 then LittleEndianDigits(num) else [];
      s := ReverseString(result);
    }
    EncodingMeaning(num);
    forall i | 0 <= i < |s|
      ensures s[i] in Base62Chars
    {
      DigitInAlphabet(s[i]);
    }
  }


  /** DecodeBase62: Horner accumulation in `int64`; any character outside `0-9a-zA-Z`
      makes the whole result 0. */
  method DecodeBase62(encoded: string) returns (num: Int64)
    ensures IsNumeral(encoded) ==> num == ToInt64(Value(encoded))
    ensures !IsNumeral(encoded) ==> num == 0
    ensures IsNumeral(encoded) && Value(encoded) < Two63 ==> num == Value(encoded)
  {
    num := 0;
    var i := 0;
    while i < |encoded|
      invariant 0 <= i <= |encoded|
      invariant IsNumeral(encoded[..i]) && num == ToInt64(Value(encoded[..i]))
    {
      var c := encoded[i];
      var value: int;
      if '0' <= c <= '9' {
        value := c as int - '0' as int;
      } else if 'a' <= c <= 'z' {
        value := c as int - 'a' as int + 10;
      } else if 'A' <= c <= 'Z' {
        value := c as int - 'A' as int + 36;
      } else {
        assert !IsDigit62(encoded[i]);
        return 0;
      }
      assert encoded[..i + 1] == encoded[..i] + [c];
      ValueAppend(encoded[..i], c);
      HornerWrap(Value(encoded[..i]), value);
      num := ToInt64(num * Base + value);
      i := i + 1;
    }
    assert encoded[..i] == encoded;
  }

  /** Decoding what the encoder produced for a non-negative `int64` gives the number back. */
  method EncodeThenDecode(n: Int64) returns (decoded: Int64)
    requires n >= 0
    ensures decoded == n
  {
    var code := EncodeBase62(n);
    decoded := DecodeBase62(code);
  }

  /** Re-encoding the number a canonical code denotes gives the code back, as long as the
      number fits in `int64` (every code the encoder produces does). */
  method DecodeThenEncode(code: string) returns (reencoded: string)
    requires IsCanonical(code) && Value(code) < Two63
    ensures reencoded == code
  {
    var n := DecodeBase62(code);
    reencoded := EncodeBase62(n);
    CanonicalUnique(reencoded, code);
  }

  // ---------------------------------------------------------------------------
  // Short-code generation
  // ---------------------------------------------------------------------------

  /** A snowflake node, seen from outside: the IDs its successive `GenerateID` calls return,
      and the calls that find no initialised node. */
  class SnowflakeNode {
    /** The ID the call numbered `k` (counting from 0) returns when it succeeds. */
    const ids: nat -> Int64
    /** The numbers of the calls that fail because the node was never initialised. */
    const failing: set<nat>
    var issued: nat

    constructor (ids: nat -> Int64, failing: set<nat>)
      ensures this.ids == ids && this.failing == failing && issued == 0
    {
      this.ids := ids;
      this.failing := failing;
      issued := 0;
    }

    /** GenerateID: the next outcome of the node, an error when it is not initialised. */
    method GenerateID() returns (id: Option<Int64>)
      modifies this
      ensures issued == old(issued) + 1
      ensures id == if old(issued) in failing then None else Some(ids(old(issued)))
    {
      if issued in failing {
        id := None;
      } else {
        id := Some(ids(issued));
      }
      issued := issued + 1;
    }

    /** `code` is the short code of the ID the last call drew. */
    ghost predicate LastDrawn(code: string)
      reads this
    {
      issued > 0 && code == Encoding(ids(issued - 1))
    }
  }

  /** GenerateShortCode: the Base62 encoding of the node's next ID, or `None` when the
      node fails. */
  method GenerateShortCode(node: SnowflakeNode) returns (code: Option<string>)
    modifies node
    ensures node.issued == old(node.issued) + 1
    ensures code.None? <==> old(node.issued) in node.failing
    ensures code.Some? && node.ids(old(node.issued)) >= 0 ==>
              IsCanonical(code.value) && Value(code.value) == node.ids(old(node.issued))
    ensures code.Some? && node.ids(old(node.issued)) < 0 ==> code.value == ""
    ensures code == if old(node.issued) in node.failing then None else Some(Encoding(node.ids(old(node.issued))))
  {
    var id := node.GenerateID();
    if id.None? {
      return None;
    }
    var encoded := EncodeBase62(id.value);
    code := Some(encoded);
  }
}
