/**
 * Bytes and the base16 (hexadecimal) codec used for URef names:
 * `encode_lower` writes two lower-case digits per byte, `decode` reads
 * digits of either case and rejects odd lengths and non-digits.
 */
module Base16 {
  import opened Wrappers

  /** An unsigned 8-bit value. */
  type Byte = x: int | 0 <= x < 256

  /** Why `decode` refused its input; `index` counts characters from 0 and `byte` is the one found there. */
  datatype DecodeError = InvalidLength(length: nat) | InvalidByte(index: nat, byte: char)

  const LOWER_DIGITS: string := "0123456789abcdef"

  /** The sequence of `n` copies of `x`. */
  function Repeat<T>(x: T, n: nat): (r: seq<T>)
    ensures |r| == n
    ensures forall i :: 0 <= i < n ==> r[i] == x
  {
    if n == 0 then [] else [x] + Repeat(x, n - 1)
  }

  predicate IsLowerHexDigit(c: char) {
    '0' <= c <= '9' || 'a' <= c <= 'f'
  }

  /** The value of a hexadecimal digit of either case; `None` for any other character. */
  function DigitValue(c: char): (r: Option<nat>)
    ensures r.Some? ==> r.value < 16
    ensures IsLowerHexDigit(c) ==> r.Some?
  {
    if '0' <= c <= '9' then Some(c as int - '0' as int)
    else if 'a' <= c <= 'f' then Some(c as int - 'a' as int + 10)
    else if 'A' <= c <= 'F' then Some(c as int - 'A' as int + 10)
    else None
  }

  predicate IsHexDigit(c: char) {
    DigitValue(c).Some?
  }

  /** The lower-case digit for a value below 16 reads back as that value. */
  lemma LowerDigitValue(n: nat)
    requires n < 16
    ensures IsLowerHexDigit(LOWER_DIGITS[n])
    ensures DigitValue(LOWER_DIGITS[n]) == Some(n)
  {
  }

  /** The two lower-case digits of one byte, high nibble first. */
  function EncodeByte(b: Byte): (s: string)
    ensures |s| == 2
    ensures IsLowerHexDigit(s[0]) && IsLowerHexDigit(s[1])
    ensures DigitValue(s[0]) == Some(b / 16) && DigitValue(s[1]) == Some(b % 16)
  {
    LowerDigitValue(b / 16);
    LowerDigitValue(b % 16);
    [LOWER_DIGITS[b / 16], LOWER_DIGITS[b % 16]]
  }

  /** `base16::encode_lower`: two lower-case hexadecimal digits per byte, in order. */
  function EncodeLower(bytes: seq<Byte>): (s: string)
    ensures |s| == 2 * |bytes|
    ensures forall i :: 0 <= i < |s| ==> IsLowerHexDigit(s[i])
  {
    if bytes == [] then [] else EncodeByte(bytes[0]) + EncodeLower(bytes[1..])
  }

  /** Reads an even-length string pair by pair, reporting the first character that is no digit. */
  function DecodePairs(s: string): (r: Result<seq<Byte>, DecodeError>)
    requires |s| % 2 == 0
    ensures r.Success? <==> forall i :: 0 <= i < |s| ==> IsHexDigit(s[i])
    ensures r.Success? ==> 2 * |r.value| == |s|
    ensures r.Failure? ==> r.error.InvalidByte? && r.error.index < |s| && !IsHexDigit(s[r.error.index])
    ensures r.Failure? ==> r.error.byte == s[r.error.index]
    ensures r.Failure? ==> forall i :: 0 <= i < r.error.index ==> IsHexDigit(s[i])
  {
    if s == [] then Success([])
    else if DigitValue(s[0]).None? then Failure(InvalidByte(0, s[0]))
    else if DigitValue(s[1]).None? then Failure(InvalidByte(1, s[1]))
    else
      var rest := DecodePairs(s[2..]);
      if rest.Failure? then Failure(InvalidByte(rest.error.index + 2, rest.error.byte))
      else Success([16 * DigitValue(s[0]).value + DigitValue(s[1]).value] + rest.value)
  }

  /** `base16::decode`: the length is checked first, then the digits two by two. */
  function Decode(s: string): (r: Result<seq<Byte>, DecodeError>)
    ensures r == Failure(InvalidLength(|s|)) <==> |s| % 2 == 1
    ensures r.Success? <==> |s| % 2 == 0 && forall i :: 0 <= i < |s| ==> IsHexDigit(s[i])
    ensures r.Success? ==> 2 * |r.value| == |s|
    ensures r.Failure? && r.error.InvalidByte? ==> r.error.index < |s| && !IsHexDigit(s[r.error.index])
    ensures r.Failure? && r.error.InvalidByte? ==> r.error.byte == s[r.error.index]
    ensures r.Failure? && r.error.InvalidByte? ==> forall i :: 0 <= i < r.error.index ==> IsHexDigit(s[i])
  {
    if |s| % 2 == 1 then Failure(InvalidLength(|s|)) else DecodePairs(s)
  }

  /** Decoding what `EncodeLower` wrote gives back the bytes. */
  lemma DecodeEncodeLower(bytes: seq<Byte>)
    ensures Decode(EncodeLower(bytes)) == Success(bytes)
  {
    var s := EncodeLower(bytes);
    assert |s| % 2 == 0 by {
      DivModTwo(|bytes|);
    }
    DecodePairsEncodeLower(bytes);
  }

  /** An even number leaves no remainder modulo 2. */
  lemma DivModTwo(n: nat)
    ensures (2 * n) % 2 == 0
  {
  }

  lemma {:induction false} DecodePairsEncodeLower(bytes: seq<Byte>)
    ensures DecodePairs(EncodeLower(bytes)) == Success(bytes)
  {
    if bytes != [] {
      var s := EncodeLower(bytes);
      var b := bytes[0];
      var tail := EncodeLower(bytes[1..]);
      assert s == EncodeByte(b) + tail;
      assert s[2..] == tail;
      DecodePairsEncodeLower(bytes[1..]);
      DivModTwo(|bytes|);
      DecodePairsStep(s, b / 16, b % 16);
      assert bytes == [b] + bytes[1..];
    }
  }

  /** Byte `k` of a successful decoding is the value of the digits at `2 * k` (high) and `2 * k + 1` (low). */
  lemma {:induction false} DecodePairsValue(s: string, k: nat)
    requires |s| % 2 == 0 && DecodePairs(s).Success? && k < |DecodePairs(s).value|
    ensures 2 * k + 1 < |s|
    ensures DecodePairs(s).value[k] == 16 * DigitValue(s[2 * k]).value + DigitValue(s[2 * k + 1]).value
  {
    if k > 0 {
      DecodePairsValue(s[2..], k - 1);
      assert s[2..][2 * (k - 1)] == s[2 * k] && s[2..][2 * (k - 1) + 1] == s[2 * k + 1];
    }
  }

  /** One step of `DecodePairs`: two digits, then whatever the rest decodes to. */
  lemma DecodePairsStep(s: string, hi: nat, lo: nat)
    requires |s| >= 2 && |s| % 2 == 0
    requires DigitValue(s[0]) == Some(hi) && DigitValue(s[1]) == Some(lo)
    requires DecodePairs(s[2..]).Success?
    ensures DecodePairs(s) == Success([16 * hi + lo] + DecodePairs(s[2..]).value)
  {
  }

  /** Encoding `n` zero bytes gives `2 * n` zero digits. */
  lemma {:induction false} EncodeLowerZeros(n: nat)
    ensures EncodeLower(Repeat<Byte>(0, n)) == Repeat('0', 2 * n)
  {
    if n > 0 {
      EncodeLowerZeros(n - 1);
      assert Repeat<Byte>(0, n)[1..] == Repeat<Byte>(0, n - 1);
    }
  }

  /** An even-length string whose first non-digit is at `k` is refused at `k`. */
  lemma DecodeStopsAtFirstNonDigit(s: string, k: nat)
    requires |s| % 2 == 0 && k < |s| && !IsHexDigit(s[k])
    requires forall i :: 0 <= i < k ==> IsHexDigit(s[i])
    ensures Decode(s) == Failure(InvalidByte(k, s[k]))
  {
    var r := Decode(s);
    assert r.Failure? && r.error.InvalidByte?;
  }
}
