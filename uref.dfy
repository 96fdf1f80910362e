/**
 * Unforgeable references (`URef`): a 32-byte address in global state plus a
 * set of access rights. A `URef` has a text form, `uref-<hex address>-<octal rights>`,
 * used as a name in named-key maps, and a 33-byte binary form.
 */
module URefs {
  import opened Wrappers
  import opened Base16

  // ---------------------------------------------------------------- access rights

  /**
   * `AccessRights` is a bit set over READ, WRITE and ADD. A value is a valid set
   * exactly when no bit above ADD is set, that is when it is below 8.
   */
  type AccessRights = b: int | 0 <= b < 8

  const NONE: AccessRights := 0
  const READ: AccessRights := 1
  const WRITE: AccessRights := 2
  const ADD: AccessRights := 4
  const READ_ADD_WRITE: AccessRights := 7

  /** Whether the single-bit `flag` is set in `bits`. */
  predicate HasFlag(bits: AccessRights, flag: AccessRights)
    requires flag == READ || flag == WRITE || flag == ADD
  {
    (bits / flag) % 2 == 1
  }

  /** `AccessRights::from_bits`: `None` when a bit outside the three flags is set. */
  function AccessRightsFromBits(v: Byte): (r: Option<AccessRights>)
    ensures r.Some? <==> v < 8
    ensures r.Some? ==> r.value == v
  {
    if v < 8 then Some(v) else None
  }

  // ---------------------------------------------------------------- the URef value

  const UREF_ADDR_LENGTH: nat := 32
  const ACCESS_RIGHTS_SERIALIZED_LENGTH: nat := 1
  const UREF_SERIALIZED_LENGTH: nat := UREF_ADDR_LENGTH + ACCESS_RIGHTS_SERIALIZED_LENGTH
  const PREFIX: string := "uref-"

  type URefAddr = s: seq<Byte> | |s| == UREF_ADDR_LENGTH witness Repeat<Byte>(0, UREF_ADDR_LENGTH)

  /** `URef::new(address, access_rights)`; `addr()` and `access_rights()` are the two fields. */
  datatype URef = URef(addr: URefAddr, accessRights: AccessRights)

  function WithAccessRights(u: URef, accessRights: AccessRights): URef {
    URef(u.addr, accessRights)
  }

  function RemoveAccessRights(u: URef): URef {
    URef(u.addr, NONE)
  }

  function IntoRead(u: URef): URef {
    URef(u.addr, READ)
  }

  function IntoReadAddWrite(u: URef): URef {
    URef(u.addr, READ_ADD_WRITE)
  }

  predicate IsReadable(u: URef) {
    HasFlag(u.accessRights, READ)
  }

  predicate IsWriteable(u: URef) {
    HasFlag(u.accessRights, WRITE)
  }

  predicate IsAddable(u: URef) {
    HasFlag(u.accessRights, ADD)
  }

  /** The rights-changing operations keep the address and set exactly the rights they name. */
  lemma RightsChangesKeepAddress(u: URef, accessRights: AccessRights)
    ensures WithAccessRights(u, accessRights).addr == u.addr
    ensures WithAccessRights(u, accessRights).accessRights == accessRights
    ensures RemoveAccessRights(u).addr == u.addr && RemoveAccessRights(u).accessRights == NONE
    ensures IntoRead(u).addr == u.addr && IntoReadAddWrite(u).addr == u.addr
    ensures !IsReadable(RemoveAccessRights(u)) && !IsWriteable(RemoveAccessRights(u))
    ensures !IsAddable(RemoveAccessRights(u))
    ensures IsReadable(IntoRead(u)) && !IsWriteable(IntoRead(u)) && !IsAddable(IntoRead(u))
    ensures IsReadable(IntoReadAddWrite(u)) && IsWriteable(IntoReadAddWrite(u))
    ensures IsAddable(IntoReadAddWrite(u))
  {
  }

  // ---------------------------------------------------------------- octal digits

  predicate IsOctalDigit(c: char) {
    '0' <= c <= '7'
  }

  predicate AllOctal(s: string) {
    forall i :: 0 <= i < |s| ==> IsOctalDigit(s[i])
  }

  function OctalDigit(n: nat): (c: char)
    requires n < 8
    ensures IsOctalDigit(c) && c as int - '0' as int == n
  {
    ('0' as int + n) as char
  }

  /** `{:03o}` of an 8-bit value: three octal digits, most significant first, zero-padded. */
  function FormatOctal3(v: Byte): (s: string)
    ensures |s| == 3 && AllOctal(s)
    ensures 64 * (s[0] as int - '0' as int) + 8 * (s[1] as int - '0' as int) + (s[2] as int - '0' as int) == v
  {
    [OctalDigit(v / 64), OctalDigit(v / 8 % 8), OctalDigit(v % 8)]
  }

  /** Why `u8::from_str_radix` refused its input. */
  datatype IntErrorKind = Empty | InvalidDigit | PosOverflow

  /** The value of a string of octal digits read after `acc`, without any bound. */
  function OctalValue(acc: nat, digits: string): nat
    requires AllOctal(digits)
    decreases digits
  {
    if digits == [] then acc
    else OctalValue(8 * acc + (digits[0] as int - '0' as int), digits[1..])
  }

  lemma {:induction false} OctalValueAtLeast(acc: nat, digits: string)
    requires AllOctal(digits)
    ensures OctalValue(acc, digits) >= acc
    decreases digits
  {
    if digits != [] {
      OctalValueAtLeast(8 * acc + (digits[0] as int - '0' as int), digits[1..]);
    }
  }

  /** The length of the leading run of octal digits. */
  function OctalRun(digits: string): (n: nat)
    ensures n <= |digits| && AllOctal(digits[..n])
    ensures n < |digits| ==> !IsOctalDigit(digits[n])
    decreases digits
  {
    if digits == [] || !IsOctalDigit(digits[0]) then 0
    else
      var n := 1 + OctalRun(digits[1..]);
      assert digits[..n] == [digits[0]] + digits[1..][..n - 1];
      n
  }

  /**
   * The digit loop of `from_str_radix`: left to right, the first non-digit
   * is `InvalidDigit`, and a value that would exceed 255 is `PosOverflow`
   * as soon as it does, whatever follows.
   */
  function AccumulateOctal(acc: Byte, digits: string): (r: Result<Byte, IntErrorKind>)
    ensures r.Success? <==> AllOctal(digits) && OctalValue(acc, digits) <= 255
    ensures r.Success? ==> r.value == OctalValue(acc, digits)
    ensures r.Failure? ==> r.error != Empty
    ensures r == Failure(PosOverflow) <==> OctalValue(acc, digits[..OctalRun(digits)]) > 255
    decreases digits
  {
    if digits == [] then
      assert digits[..OctalRun(digits)] == [];
      Success(acc)
    else if !IsOctalDigit(digits[0]) then
      assert digits[..OctalRun(digits)] == [];
      Failure(InvalidDigit)
    else
      var next := 8 * acc + (digits[0] as int - '0' as int);
      var run := digits[..OctalRun(digits)];
      assert run == [digits[0]] + digits[1..][..OctalRun(digits[1..])];
      assert OctalValue(acc, run) == OctalValue(next, digits[1..][..OctalRun(digits[1..])]);
      if next > 255 then
        assert AllOctal(digits) ==> OctalValue(acc, digits) > 255 by {
          if AllOctal(digits) { OctalValueAtLeast(next, digits[1..]); }
        }
        OctalValueAtLeast(next, digits[1..][..OctalRun(digits[1..])]);
        Failure(PosOverflow)
      else AccumulateOctal(next, digits[1..])
  }

  /** The digits `from_str_radix` reads: the input without one leading `+`. */
  function Unsigned(s: string): string {
    if s != [] && s[0] == '+' then s[1..] else s
  }

  /** `u8::from_str_radix(s, 8)`. */
  function FromStrRadix8(s: string): (r: Result<Byte, IntErrorKind>)
    ensures r == Failure(Empty) <==> Unsigned(s) == []
    ensures r.Success? <==> Unsigned(s) != [] && AllOctal(Unsigned(s)) && OctalValue(0, Unsigned(s)) <= 255
    ensures r.Success? ==> r.value == OctalValue(0, Unsigned(s))
    ensures r == Failure(PosOverflow) <==> Unsigned(s) != [] && OctalValue(0, Unsigned(s)[..OctalRun(Unsigned(s))]) > 255
  {
    if s == [] then Failure(Empty)
    else if Unsigned(s) == [] then Failure(Empty)
    else AccumulateOctal(0, Unsigned(s))
  }

  /** Reading back three octal digits written by `FormatOctal3` gives the value. */
  lemma FromStrRadix8FormatOctal3(v: Byte)
    ensures FromStrRadix8(FormatOctal3(v)) == Success(v)
  {
    var s := FormatOctal3(v);
    assert Unsigned(s) == s;
    var d0, d1, d2 := s[0] as int - '0' as int, s[1] as int - '0' as int, s[2] as int - '0' as int;
    assert s[1..][1..] == [s[2]];
    calc {
      OctalValue(0, s);
      OctalValue(d0, s[1..]);
      OctalValue(8 * d0 + d1, s[1..][1..]);
      OctalValue(8 * (8 * d0 + d1) + d2, []);
      v;
    }
  }

  // ---------------------------------------------------------------- the text form

  /** `URef::to_formatted_string`: `uref-`, the address in lower-case hex, `-`, the rights in three octal digits. */
  function ToFormattedString(u: URef): (s: string)
    ensures |s| == |PREFIX| + 2 * UREF_ADDR_LENGTH + 1 + 3
    ensures PREFIX <= s
    ensures s[5..69] == EncodeLower(u.addr) && s[69] == '-' && s[70..] == FormatOctal3(u.accessRights)
    ensures forall i :: 5 <= i < 69 ==> IsLowerHexDigit(s[i])
  {
    PREFIX + EncodeLower(u.addr) + "-" + FormatOctal3(u.accessRights)
  }

  /** `splitn(2, c)` when it finds `c`: the text before the first `c` and the text after it. */
  function SplitAtFirst(s: string, c: char): (r: Option<(string, string)>)
    ensures r.None? <==> c !in s
    ensures r.Some? ==> s == r.value.0 + [c] + r.value.1 && c !in r.value.0
  {
    if s == [] then None
    else if s[0] == c then Some(([], s[1..]))
    else match SplitAtFirst(s[1..], c)
      case None => None
      case Some((before, after)) =>
        assert s == [s[0]] + s[1..];
        Some(([s[0]] + before, after))
  }

  /** `FromStrError`: the ways `from_formatted_str` can fail. */
  datatype FromStrError =
    | InvalidPrefix
    | MissingSuffix
    | InvalidAccessRights
    | Hex(decodeError: DecodeError)
    | Int(kind: IntErrorKind)
    | Address

  /**
   * `URef::from_formatted_str`. The checks run in this order: the prefix,
   * a `-` after it, the address part as hex, its length of 32 bytes, the
   * rights part as an octal `u8`, and that value as a set of flags.
   */
  function FromFormattedStr(input: string): (r: Result<URef, FromStrError>)
    ensures r == Failure(InvalidPrefix) <==> !(PREFIX <= input)
    ensures r == Failure(MissingSuffix) <==> PREFIX <= input && '-' !in input[|PREFIX|..]
    ensures r.Success? ==> PREFIX <= input && input[|PREFIX|..] == AddrPart(input) + "-" + RightsPart(input)
    ensures r.Success? ==> Decode(AddrPart(input)) == Success(r.value.addr)
    ensures r.Success? ==> FromStrRadix8(RightsPart(input)) == Success(r.value.accessRights)
  {
    if !(PREFIX <= input) then Failure(InvalidPrefix)
    else
      match SplitAtFirst(input[|PREFIX|..], '-')
      case None => Failure(MissingSuffix)
      case Some((addrPart, rightsPart)) =>
        match Decode(addrPart)
        case Failure(e) => Failure(Hex(e))
        case Success(bytes) =>
          if |bytes| != UREF_ADDR_LENGTH then Failure(Address)
          else
            match FromStrRadix8(rightsPart)
            case Failure(kind) => Failure(Int(kind))
            case Success(v) =>
              match AccessRightsFromBits(v)
              case None => Failure(InvalidAccessRights)
              case Some(accessRights) => Success(URef(bytes, accessRights))
  }

  /** The text between the prefix and the first `-` after it (empty when there is none). */
  function AddrPart(input: string): string
    requires PREFIX <= input
  {
    match SplitAtFirst(input[|PREFIX|..], '-')
    case None => []
    case Some((before, _)) => before
  }

  /** The text after the first `-` that follows the prefix (empty when there is none). */
  function RightsPart(input: string): string
    requires PREFIX <= input
  {
    match SplitAtFirst(input[|PREFIX|..], '-')
    case None => []
    case Some((_, after)) => after
  }

  /** With prefix and separator in place, the address part decides the next two errors. */
  lemma FromFormattedStrAddressErrors(input: string)
    requires PREFIX <= input && '-' in input[|PREFIX|..]
    ensures Decode(AddrPart(input)).Failure? ==>
      FromFormattedStr(input) == Failure(Hex(Decode(AddrPart(input)).error))
    ensures Decode(AddrPart(input)).Success? && |Decode(AddrPart(input)).value| != UREF_ADDR_LENGTH ==>
      FromFormattedStr(input) == Failure(Address)
  {
  }

  /** With a 32-byte address, the rights part decides the last two errors and, when it passes, the result. */
  lemma FromFormattedStrRightsErrors(input: string)
    requires PREFIX <= input && '-' in input[|PREFIX|..]
    requires Decode(AddrPart(input)).Success? && |Decode(AddrPart(input)).value| == UREF_ADDR_LENGTH
    ensures FromStrRadix8(RightsPart(input)).Failure? ==>
      FromFormattedStr(input) == Failure(Int(FromStrRadix8(RightsPart(input)).error))
    ensures FromStrRadix8(RightsPart(input)).Success? && FromStrRadix8(RightsPart(input)).value >= 8 ==>
      FromFormattedStr(input) == Failure(InvalidAccessRights)
    ensures FromStrRadix8(RightsPart(input)).Success? && FromStrRadix8(RightsPart(input)).value < 8 ==>
      FromFormattedStr(input) == Success(URef(Decode(AddrPart(input)).value, FromStrRadix8(RightsPart(input)).value))
  {
  }

  /** Parsing the text form of any URef gives that URef back. */
  lemma FromFormattedStrRoundTrip(u: URef)
    ensures FromFormattedStr(ToFormattedString(u)) == Success(u)
  {
    var s := ToFormattedString(u);
    var rest := s[|PREFIX|..];
    var hex := EncodeLower(u.addr);
    var octal := FormatOctal3(u.accessRights);
    assert rest == hex + "-" + octal;
    assert '-' !in hex by {
      forall i | 0 <= i < |hex| ensures hex[i] != '-' {
        assert IsLowerHexDigit(hex[i]);
      }
    }
    SplitAtFirstUnique(rest, '-', hex, octal);
    DecodeEncodeLower(u.addr);
    FromStrRadix8FormatOctal3(u.accessRights);
  }

  /** When `c` does not occur in `before`, splitting `before + [c] + after` at `c` gives the two parts. */
  lemma {:induction false} SplitAtFirstUnique(s: string, c: char, before: string, after: string)
    requires s == before + [c] + after && c !in before
    ensures SplitAtFirst(s, c) == Some((before, after))
  {
    if before != [] {
      assert s[0] == before[0] && s[0] != c;
      assert s[1..] == before[1..] + [c] + after;
      SplitAtFirstUnique(s[1..], c, before[1..], after);
      assert before == [s[0]] + before[1..];
    }
  }

  /** The zero address the tests use. */
  const ZERO_ADDR: URefAddr := Repeat<Byte>(0, UREF_ADDR_LENGTH)

  /** The text forms the tests expect for the zero address with READ, WRITE and no rights. */
  lemma ToFormattedStringExamples()
    ensures ToFormattedString(URef(ZERO_ADDR, READ)) == PREFIX + Repeat('0', 64) + "-001"
    ensures ToFormattedString(URef(ZERO_ADDR, WRITE)) == PREFIX + Repeat('0', 64) + "-002"
    ensures ToFormattedString(RemoveAccessRights(URef(ZERO_ADDR, WRITE))) == PREFIX + Repeat('0', 64) + "-000"
  {
    EncodeLowerZeros(UREF_ADDR_LENGTH);
  }

  /** An input assembled from an address part without `-` and a rights part splits back into them. */
  lemma FormattedParts(addrPart: string, rightsPart: string)
    requires '-' !in addrPart
    ensures PREFIX <= PREFIX + addrPart + "-" + rightsPart
    ensures '-' in (PREFIX + addrPart + "-" + rightsPart)[|PREFIX|..]
    ensures AddrPart(PREFIX + addrPart + "-" + rightsPart) == addrPart
    ensures RightsPart(PREFIX + addrPart + "-" + rightsPart) == rightsPart
  {
    var input := PREFIX + addrPart + "-" + rightsPart;
    assert input[|PREFIX|..] == addrPart + "-" + rightsPart;
    SplitAtFirstUnique(input[|PREFIX|..], '-', addrPart, rightsPart);
  }

  /** The test inputs with a wrong prefix or no separator. */
  lemma FromFormattedStrFramingExamples()
    ensures FromFormattedStr("ref-" + Repeat('0', 64) + "-000") == Failure(InvalidPrefix)
    ensures FromFormattedStr("uref" + Repeat('0', 64) + "-000") == Failure(InvalidPrefix)
    ensures FromFormattedStr(PREFIX + Repeat('0', 64) + ":000") == Failure(MissingSuffix)
  {
    var noU := "ref-" + Repeat('0', 64) + "-000";
    assert noU[0] != PREFIX[0];
    var noDash := "uref" + Repeat('0', 64) + "-000";
    assert noDash[4] == '0';
    var colon := PREFIX + Repeat('0', 64) + ":000";
    assert colon[..|PREFIX|] == PREFIX;
    assert colon[|PREFIX|..] == Repeat('0', 64) + ":000";
    assert forall i :: 0 <= i < |colon[|PREFIX|..]| ==> colon[|PREFIX|..][i] != '-';
    assert '-' !in colon[|PREFIX|..];
  }

  /** `2 * k` zero digits followed by the given rights part: the address part decodes to `k` zero bytes. */
  lemma ZeroRunParts(k: nat, rightsPart: string)
    ensures PREFIX <= PREFIX + Repeat('0', 2 * k) + "-" + rightsPart
    ensures '-' in (PREFIX + Repeat('0', 2 * k) + "-" + rightsPart)[|PREFIX|..]
    ensures Decode(AddrPart(PREFIX + Repeat('0', 2 * k) + "-" + rightsPart)) == Success(Repeat<Byte>(0, k))
    ensures RightsPart(PREFIX + Repeat('0', 2 * k) + "-" + rightsPart) == rightsPart
  {
    var hex := EncodeLower(Repeat<Byte>(0, k));
    EncodeLowerZeros(k);
    DecodeEncodeLower(Repeat<Byte>(0, k));
    assert '-' !in hex by {
      forall i | 0 <= i < |hex| ensures hex[i] != '-' {
        assert IsLowerHexDigit(hex[i]);
      }
    }
    FormattedParts(hex, rightsPart);
  }

  /** An address part of `2 * k` zero digits with `k` other than 32 is refused as an address. */
  lemma ZeroRunWrongLength(k: nat)
    requires k != UREF_ADDR_LENGTH
    ensures FromFormattedStr(PREFIX + Repeat('0', 2 * k) + "-" + "000") == Failure(Address)
  {
    ZeroRunParts(k, "000");
    FromFormattedStrAddressErrors(PREFIX + Repeat('0', 2 * k) + "-" + "000");
  }

  /** The test input whose address part is one byte too short. */
  lemma FromFormattedStrShortAddressExample()
    ensures FromFormattedStr(PREFIX + Repeat('0', 62) + "-000") == Failure(Address)
  {
    ZeroRunWrongLength(31);
    assert PREFIX + Repeat('0', 62) + "-000" == PREFIX + Repeat('0', 62) + "-" + "000";
  }

  /** The test input whose address part is one byte too long. */
  lemma FromFormattedStrLongAddressExample()
    ensures FromFormattedStr(PREFIX + Repeat('0', 66) + "-000") == Failure(Address)
  {
    ZeroRunWrongLength(33);
    assert PREFIX + Repeat('0', 66) + "-000" == PREFIX + Repeat('0', 66) + "-" + "000";
  }

  /** An address part that is not valid hex is reported with the decoder's error. */
  lemma FromFormattedStrHexError(addrPart: string, rightsPart: string)
    requires '-' !in addrPart && Decode(addrPart).Failure?
    ensures FromFormattedStr(PREFIX + addrPart + "-" + rightsPart) == Failure(Hex(Decode(addrPart).error))
  {
    FormattedParts(addrPart, rightsPart);
    FromFormattedStrAddressErrors(PREFIX + addrPart + "-" + rightsPart);
  }

  /** Zero digits followed by `g`: no separator in it, and decoding stops at the `g`. */
  lemma ZerosThenG(k: nat)
    ensures '-' !in Repeat('0', 2 * k + 1) + "g"
    ensures Decode(Repeat('0', 2 * k + 1) + "g") == Failure(InvalidByte(2 * k + 1, 'g'))
  {
    var g := Repeat('0', 2 * k + 1) + "g";
    DecodeStopsAtFirstNonDigit(g, 2 * k + 1);
    assert forall i :: 0 <= i < |g| ==> g[i] == '0' || g[i] == 'g';
  }

  /** Regrouping a text that ends in `g-000` into address part, separator and rights part. */
  lemma GroupTrailingG(head: string, zeros: string)
    ensures head + zeros + "g-000" == head + (zeros + "g") + "-" + "000"
  {
  }

  /** An address part of zero digits ending in `g` is refused at the `g`. */
  lemma TrailingNonDigit(k: nat)
    ensures FromFormattedStr(PREFIX + Repeat('0', 2 * k + 1) + "g-000") == Failure(Hex(InvalidByte(2 * k + 1, 'g')))
  {
    ZerosThenG(k);
    FromFormattedStrHexError(Repeat('0', 2 * k + 1) + "g", "000");
    GroupTrailingG(PREFIX, Repeat('0', 2 * k + 1));
  }

  /** The test input whose last address digit is `g`. */
  lemma FromFormattedStrBadHexExample()
    ensures FromFormattedStr(PREFIX + Repeat('0', 63) + "g-000") == Failure(Hex(InvalidByte(63, 'g')))
  {
    TrailingNonDigit(31);
  }

  /** Regrouping a text into everything before the separator, the separator and the rights part. */
  lemma GroupRights(head: string, rightsPart: string)
    ensures head + ("-" + rightsPart) == head + "-" + rightsPart
  {
  }

  /** The separator and rights parts of the test inputs, as written and as concatenated. */
  lemma RightsLiterals()
    ensures "-" + "0001" == "-0001" && "-" + "+1" == "-+1"
    ensures "-" + "abc" == "-abc" && "-" + "200" == "-200"
  {
  }

  /** How `from_str_radix` reads the rights parts of the test inputs. */
  lemma RightsValues()
    ensures FromStrRadix8("abc") == Failure(InvalidDigit)
    ensures FromStrRadix8("200") == Success(128)
    ensures FromStrRadix8("+1") == Success(1)
    ensures FromStrRadix8("0001") == Success(1)
  {
    var two, plus, zeros := "200", "+1", "0001";
    assert two[1..][1..] == "0";
    assert Unsigned(plus) == "1";
    assert zeros[1..][1..][1..] == "1";
  }

  /** A well-formed zero address followed by the given rights part. */
  lemma ZeroAddressParts(rightsPart: string)
    ensures PREFIX <= PREFIX + Repeat('0', 64) + "-" + rightsPart
    ensures '-' in (PREFIX + Repeat('0', 64) + "-" + rightsPart)[|PREFIX|..]
    ensures Decode(AddrPart(PREFIX + Repeat('0', 64) + "-" + rightsPart)) == Success(ZERO_ADDR)
    ensures RightsPart(PREFIX + Repeat('0', 64) + "-" + rightsPart) == rightsPart
  {
    ZeroRunParts(UREF_ADDR_LENGTH, rightsPart);
  }

  /** The test input whose rights part is not an octal number. */
  lemma FromFormattedStrNotOctalExample()
    ensures FromFormattedStr(PREFIX + Repeat('0', 64) + "-abc") == Failure(Int(InvalidDigit))
  {
    ZeroAddressParts("abc");
    RightsValues();
    FromFormattedStrRightsErrors(PREFIX + Repeat('0', 64) + "-" + "abc");
    GroupRights(PREFIX + Repeat('0', 64), "abc");
    RightsLiterals();
  }

  /** The test input whose rights value 0o200 sets a bit outside the three flags. */
  lemma FromFormattedStrBadRightsExample()
    ensures FromFormattedStr(PREFIX + Repeat('0', 64) + "-200") == Failure(InvalidAccessRights)
  {
    ZeroAddressParts("200");
    RightsValues();
    FromFormattedStrRightsErrors(PREFIX + Repeat('0', 64) + "-" + "200");
    GroupRights(PREFIX + Repeat('0', 64), "200");
    RightsLiterals();
  }

  /** Distinct URefs have distinct text forms, so the text form can serve as a unique name. */
  lemma ToFormattedStringInjective(u1: URef, u2: URef)
    ensures ToFormattedString(u1) == ToFormattedString(u2) <==> u1 == u2
  {
    if ToFormattedString(u1) == ToFormattedString(u2) {
      FromFormattedStrRoundTrip(u1);
      FromFormattedStrRoundTrip(u2);
    }
  }

  /**
   * The parser is more lenient than the formatter: a `+` sign in the rights part is
   * accepted, so a second string names the zero-address READ URef.
   */
  lemma FromFormattedStrAcceptsPlusSign()
    ensures FromFormattedStr(PREFIX + Repeat('0', 64) + "-+1") == Success(URef(ZERO_ADDR, READ))
    ensures ToFormattedString(URef(ZERO_ADDR, READ)) != PREFIX + Repeat('0', 64) + "-+1"
  {
    ZeroAddressParts("+1");
    RightsValues();
    GroupRights(PREFIX + Repeat('0', 64), "+1");
    RightsLiterals();
    ToFormattedStringExamples();
    SignedRightsDiffer(PREFIX + Repeat('0', 64));
  }

  /** A rights part with a sign differs from the three digits the text form writes. */
  lemma SignedRightsDiffer(head: string)
    ensures head + "-001" != head + "-+1"
  {
    assert (head + "-001")[|head| + 1] == '0';
    assert (head + "-+1")[|head| + 1] == '+';
  }

  /** Extra leading zeros in the rights part are accepted as well. */
  lemma FromFormattedStrAcceptsLeadingZeros()
    ensures FromFormattedStr(PREFIX + Repeat('0', 64) + "-0001") == Success(URef(ZERO_ADDR, READ))
  {
    ZeroAddressParts("0001");
    RightsValues();
    GroupRights(PREFIX + Repeat('0', 64), "0001");
    RightsLiterals();
  }

  // ---------------------------------------------------------------- the byte form

  /** Errors of `bytesrepr::FromBytes` that can arise here. */
  datatype BytesError = EarlyEndOfStream | Formatting

  /** `AccessRights::to_bytes`: the bits as a single byte. */
  function AccessRightsToBytes(accessRights: AccessRights): (bs: seq<Byte>)
    ensures |bs| == ACCESS_RIGHTS_SERIALIZED_LENGTH
  {
    [accessRights]
  }

  /** `AccessRights::from_bytes`: one byte, which must be a valid flag set. */
  function AccessRightsFromBytes(bytes: seq<Byte>): (r: Result<(AccessRights, seq<Byte>), BytesError>)
    ensures r == Failure(EarlyEndOfStream) <==> bytes == []
    ensures r == Failure(Formatting) <==> bytes != [] && bytes[0] >= 8
    ensures r.Success? ==> bytes == AccessRightsToBytes(r.value.0) + r.value.1
  {
    if bytes == [] then Failure(EarlyEndOfStream)
    else match AccessRightsFromBits(bytes[0])
      case None => Failure(Formatting)
      case Some(accessRights) => Success((accessRights, bytes[1..]))
  }

  /** `URef::to_bytes`: the 32 address bytes, then the rights byte. */
  function ToBytes(u: URef): (bs: seq<Byte>)
    ensures |bs| == UREF_SERIALIZED_LENGTH
    ensures bs[..UREF_ADDR_LENGTH] == u.addr && bs[UREF_ADDR_LENGTH] == u.accessRights
  {
    u.addr + AccessRightsToBytes(u.accessRights)
  }

  /** `URef::from_bytes`: reads 32 address bytes, then the rights, and returns the rest. */
  function FromBytes(bytes: seq<Byte>): (r: Result<(URef, seq<Byte>), BytesError>)
    ensures r == Failure(EarlyEndOfStream) <==> |bytes| < UREF_SERIALIZED_LENGTH
    ensures r == Failure(Formatting) <==> |bytes| >= UREF_SERIALIZED_LENGTH && bytes[UREF_ADDR_LENGTH] >= 8
    ensures r.Success? ==> bytes == ToBytes(r.value.0) + r.value.1
  {
    if |bytes| < UREF_ADDR_LENGTH then Failure(EarlyEndOfStream)
    else
      var id: URefAddr := bytes[..UREF_ADDR_LENGTH];
      match AccessRightsFromBytes(bytes[UREF_ADDR_LENGTH..])
      case Failure(e) => Failure(e)
      case Success((accessRights, rem)) =>
        assert bytes == id + bytes[UREF_ADDR_LENGTH..];
        Success((URef(id, accessRights), rem))
  }

  /** Reading back what `ToBytes` wrote, followed by anything, gives the URef and the rest. */
  lemma FromBytesToBytes(u: URef, rest: seq<Byte>)
    ensures FromBytes(ToBytes(u) + rest) == Success((u, rest))
  {
    var bs := ToBytes(u) + rest;
    assert bs[..UREF_ADDR_LENGTH] == u.addr;
    assert bs[UREF_ADDR_LENGTH..] == [u.accessRights] + rest;
  }

  // ---------------------------------------------------------------- keys

  /** The global-state key variants that matter here: only `URef` carries a URef. */
  datatype Key = Account(accountHash: seq<Byte>) | Hash(hashAddr: seq<Byte>) | URefKey(uref: URef)

  /** The one `ApiError` variant this conversion returns. */
  datatype ApiError = UnexpectedKeyVariant

  /** `TryFrom<Key> for URef`. */
  function TryFromKey(key: Key): (r: Result<URef, ApiError>)
    ensures r.Success? <==> key.URefKey?
    ensures r.Success? ==> r.value == key.uref
    ensures r.Failure? ==> r.error == UnexpectedKeyVariant
  {
    if key.URefKey? then Success(key.uref) else Failure(UnexpectedKeyVariant)
  }
}
