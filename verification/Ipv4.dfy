/** IPv4 arithmetic of the dashboard: dotted quads as numbers, bit-mask subnet tests and
    netmasks, with JavaScript's 32-bit operators written out bit by bit. The meaning they
    are held against is division: prefix notation of section 3.1 of RFC 4632. */
module Ipv4 {
  import opened Prelude
  import opened Text

  function Pow2(n: nat): (r: nat)
    ensures r >= 1
  {
    if n == 0 then 1 else 2 * Pow2(n - 1)
  }

  // ---------------------------------------------------------------- JavaScript's operators

  /** The remainder modulo 2^32, as `>>> 0` takes it. */
  function ToUint32(x: int): (r: nat)
    ensures r < 0x1_0000_0000
  {
    x % 0x1_0000_0000
  }

  function ToInt32(x: int): int {
    var u := ToUint32(x);
    if u >= 0x8000_0000 then u - 0x1_0000_0000 else u
  }

  /** `x & y` of the lowest `bits` bits. */
  function AndBits(x: nat, y: nat, bits: nat): nat {
    if bits == 0 then 0 else (if x % 2 == 1 && y % 2 == 1 then 1 else 0) + 2 * AndBits(x / 2, y / 2, bits - 1)
  }

  const WORD: nat := 32

  function BitAnd(x: int, y: int): int {
    ToInt32(AndBits(ToUint32(x), ToUint32(y), WORD))
  }

  /** `x << count`; the count is taken modulo 32. */
  function ShiftLeft(x: int, count: int): int {
    ToInt32(x * Pow2(count % 32))
  }

  /** The lowest `count` bits dropped, one after the other. */
  function DropBits(x: nat, count: nat): (r: nat)
    ensures r <= x
  {
    if count == 0 then x else DropBits(x / 2, count - 1)
  }

  /** `x >>> count`. */
  function ShiftRightUnsigned(x: int, count: int): nat {
    DropBits(ToUint32(x), count % 32)
  }

  /** `(~0 << (32 - prefix)) >>> 0`. */
  function Mask(prefix: int): nat {
    ShiftRightUnsigned(ShiftLeft(-1, 32 - prefix), 0)
  }

  // ---------------------------------------------------------------- dotted quads

  predicate IsDigit(ch: char) {
    '0' <= ch <= '9'
  }

  /** The number the leading digits spell, continued from `value`. */
  function LeadingDigits(s: string, value: nat): nat {
    if s == "" || !IsDigit(s[0]) then value else LeadingDigits(s[1..], value * 10 + (s[0] as int - '0' as int))
  }

  /** `Number.parseInt(part, 10)`: leading blanks, a sign, and as many digits as follow. */
  function ParseInt(part: string): Option<int> {
    var s := TrimStart(part);
    var sign := if s != "" && s[0] == '-' then -1 else 1;
    var digits := if s != "" && (s[0] == '-' || s[0] == '+') then s[1..] else s;
    if digits == "" || !IsDigit(digits[0]) then None else Some(sign * LeadingDigits(digits, 0))
  }

  /** Codes 48 to 57 are the ten digits. */
  predicate IsNumeral(digits: string) {
    forall i :: 0 <= i < |digits| ==> 48 <= digits[i] as int < 58
  }

  /** The number a decimal numeral stands for. */
  function NumeralValue(digits: string): nat
    requires IsNumeral(digits)
    decreases |digits|
  {
    if digits == "" then 0
    else NumeralValue(digits[..|digits| - 1]) * 10 + (digits[|digits| - 1] as int - 48)
  }

  lemma {:induction false} LeadingDigitsStop(digits: string, rest: string, value: nat)
    requires forall i :: 0 <= i < |digits| ==> IsDigit(digits[i])
    requires rest != "" ==> !IsDigit(rest[0])
    ensures LeadingDigits(digits + rest, value) == LeadingDigits(digits, value)
    decreases |digits|
  {
    if digits == "" {
      assert digits + rest == rest;
    } else {
      assert (digits + rest)[1..] == digits[1..] + rest;
      LeadingDigitsStop(digits[1..], rest, value * 10 + (digits[0] as int - '0' as int));
    }
  }

  lemma {:induction false} DigitsSpellTheirValue(digits: string)
    requires IsNumeral(digits)
    ensures LeadingDigits(digits, 0) == NumeralValue(digits)
    decreases |digits|
  {
    if digits != "" {
      var n := |digits| - 1;
      DigitsSpellTheirValue(digits[..n]);
      DigitsContinue(digits[..n], digits[n], 0);
      assert digits[..n] + [digits[n]] == digits;
    }
  }

  lemma {:induction false} TrimPad(pad: string, s: string)
    requires forall i :: 0 <= i < |pad| ==> IsJsSpace(pad[i])
    requires s != "" ==> !IsJsSpace(s[0])
    ensures TrimStart(pad + s) == s
    decreases |pad|
  {
    if pad == "" {
      assert pad + s == s;
    } else {
      TrimPad(pad[1..], s);
      assert (pad + s)[1..] == pad[1..] + s;
    }
  }

  /** What is read as a number: after any blanks and at most one sign the longest numeral, with the
      sign's value, whatever follows it; and nothing if there is no numeral. */
  lemma NumbersAreRead(pad: string, sign: string, digits: string, rest: string)
    requires forall i :: 0 <= i < |pad| ==> IsJsSpace(pad[i])
    requires sign in {"", "+", "-"} && IsNumeral(digits)
    requires rest != "" ==> !(48 <= rest[0] as int < 58)
    requires sign == "" && digits == "" && rest != "" ==> !IsJsSpace(rest[0]) && rest[0] !in {'+', '-'}
    ensures var read := ParseInt(pad + (sign + (digits + rest)));
      && (read.Some? <==> digits != "")
      && (read.Some? && sign == "-" ==> read.value == 0 - NumeralValue(digits))
      && (read.Some? && sign != "-" ==> read.value == NumeralValue(digits))
  {
    hide LeadingDigits, TrimStart, NumeralValue, IsJsSpace;
    var spelled := digits + rest;
    var s := sign + spelled;
    SignedStarts(sign, digits, rest);
    TrimPad(pad, s);
    LeadingDigitsStop(digits, rest, 0);
    DigitsSpellTheirValue(digits);
    if digits == "" {
      assert spelled == rest;
    }
  }

  lemma SignedStarts(sign: string, digits: string, rest: string)
    requires sign in {"", "+", "-"} && IsNumeral(digits)
    requires rest != "" ==> !(48 <= rest[0] as int < 58)
    requires sign == "" && digits == "" && rest != "" ==> !IsJsSpace(rest[0]) && rest[0] !in {'+', '-'}
    ensures var s := sign + (digits + rest);
      && (s != "" ==> !IsJsSpace(s[0]))
      && (sign != "" ==> s != "" && s[0] == sign[0] && s[1..] == digits + rest)
      && (sign == "" ==> s == digits + rest && (s == "" || s[0] !in {'+', '-'}))
      && (digits != "" ==> (digits + rest)[0] == digits[0])
  {}

  function SplitDots(s: string): seq<string>
    decreases |s|
  {
    var i := IndexOf(s, '.');
    if i == |s| then [s] else [s[..i]] + SplitDots(s[i + 1..])
  }

  predicate IsOctet(n: int) {
    0 <= n <= 255
  }

  /** The four octets a text stands for. */
  function Octets(ip: string): Option<seq<nat>> {
    var parts := SplitDots(ip);
    if |parts| == 4 && forall i :: 0 <= i < 4 ==> ParseInt(parts[i]).Some? && IsOctet(ParseInt(parts[i]).value)
    then Some(seq(4, i requires 0 <= i < 4 => ParseInt(parts[i]).value))
    else None
  }

  /** Octets as digits to the base 256, most significant first. */
  function Value(octets: seq<nat>): nat {
    if octets == [] then 0 else Value(octets[..|octets| - 1]) * 256 + octets[|octets| - 1]
  }

  method Ipv4ToInt(ip: string) returns (r: Option<nat>)
    ensures r == match Octets(ip) case Some(octets) => Some(Value(octets)) case None => None
  {
    var parts := SplitDots(ip);
    if |parts| != 4 {
      return None;
    }
    var value, n := 0, 0;
    ghost var octets: seq<nat> := [];
    while n < 4
      invariant n == |octets| <= 4
      invariant forall i :: 0 <= i < n ==>
        ParseInt(parts[i]).Some? && IsOctet(ParseInt(parts[i]).value) && octets[i] == ParseInt(parts[i]).value
      invariant value == Value(octets)
    {
      var octet := ParseInt(parts[n]);
      if octet.None? || octet.value < 0 || octet.value > 255 {
        return None;
      }
      assert (octets + [octet.value])[..n] == octets;
      value := value * 256 + octet.value;
      octets := octets + [octet.value];
      n := n + 1;
    }
    assert Octets(ip).Some? && octets == Octets(ip).value;
    return Some(value);
  }

  function ToInt(ip: string): Option<nat> {
    match Octets(ip)
    case Some(octets) => Some(Value(octets))
    case None => None
  }

  lemma {:induction false} ValueIsBounded(octets: seq<nat>)
    requires forall i :: 0 <= i < |octets| ==> octets[i] <= 255
    ensures Value(octets) < Pow2(8 * |octets|)
  {
    if octets != [] {
      var n := |octets| - 1;
      ValueIsBounded(octets[..n]);
      Pow2Adds(8 * n, 8);
      assert 8 * |octets| == 8 * n + 8 && Pow2(8) == 256;
    }
  }

  lemma {:induction false} ValueIsInjective(a: seq<nat>, b: seq<nat>)
    requires |a| == |b| && Value(a) == Value(b)
    requires forall i :: 0 <= i < |a| ==> a[i] <= 255 && b[i] <= 255
    ensures a == b
  {
    if a != [] {
      var n := |a| - 1;
      var high, high' := Value(a[..n]), Value(b[..n]);
      assert high * 256 + a[n] == high' * 256 + b[n];
      assert high == high' && a[n] == b[n];
      ValueIsInjective(a[..n], b[..n]);
      assert a == a[..n] + [a[n]] && b == b[..n] + [b[n]];
    }
  }

  /** Addresses are numbers below 2^32, and two texts give the same number exactly when they
      stand for the same octets. */
  lemma AddressesAreNumbers(a: string, b: string)
    requires ToInt(a).Some? && ToInt(b).Some?
    ensures ToInt(a).value < Pow2(32)
    ensures ToInt(a) == ToInt(b) <==> Octets(a) == Octets(b)
  {
    ValueIsBounded(Octets(a).value);
    if ToInt(a) == ToInt(b) {
      ValueIsInjective(Octets(a).value, Octets(b).value);
    }
  }

  // ---------------------------------------------------------------- masks

  lemma {:induction false} Pow2Adds(a: nat, b: nat)
    ensures Pow2(a + b) == Pow2(a) * Pow2(b)
  {
    if a > 0 {
      Pow2Adds(a - 1, b);
    }
  }

  lemma Pow2Of32()
    ensures Pow2(32) == 0x1_0000_0000
  {
    Pow2Adds(16, 16);
    Pow2Adds(8, 8);
    assert Pow2(8) == 256;
  }

  lemma {:induction false} Pow2Grows(a: nat, b: nat)
    requires a <= b
    ensures Pow2(a) <= Pow2(b)
  {
    if a < b {
      Pow2Grows(a, b - 1);
    }
  }

  lemma DivisionIsUnique(x: nat, unit: nat, q: nat, r: nat)
    requires r < unit && x == q * unit + r
    ensures x / unit == q && x % unit == r
  {
    var q', r' := x / unit, x % unit;
    assert x == unit * q' + r' && 0 <= r' < unit;
    if q' > q {
      MultiplesApart(q', q, unit);
    } else if q' < q {
      MultiplesApart(q, q', unit);
    }
  }

  lemma HalvingFirst(x: nat, unit: nat)
    requires unit > 0
    ensures x / (2 * unit) == x / 2 / unit
    ensures x % (2 * unit) == x % 2 + 2 * (x / 2 % unit)
  {
    var q, r := x / 2 / unit, x / 2 % unit;
    assert x / 2 == unit * q + r && 0 <= r < unit;
    assert q * (2 * unit) == 2 * (unit * q);
    DivisionIsUnique(x, 2 * unit, q, 2 * r + x % 2);
  }

  lemma MultiplesApart(a: nat, b: nat, unit: nat)
    requires a > b
    ensures a * unit >= b * unit + unit
  {
    assert (a - b - 1) * unit >= 0;
    assert a * unit == (a - b - 1) * unit + b * unit + unit;
  }

  /** Dropping bits is dividing by a power of two, and what is dropped is the remainder. */
  lemma {:induction false} DroppingIsDividing(x: nat, count: nat)
    ensures DropBits(x, count) == x / Pow2(count)
    ensures LowBits(x, count) == x % Pow2(count)
  {
    if count > 0 {
      DroppingIsDividing(x / 2, count - 1);
      HalvingFirst(x, Pow2(count - 1));
    }
  }

  function LowBits(x: nat, count: nat): nat {
    if count == 0 then 0 else x % 2 + 2 * LowBits(x / 2, count - 1)
  }

  /** `count` zeros appended. */
  function Raise(x: nat, count: nat): nat {
    if count == 0 then x else 2 * Raise(x, count - 1)
  }

  lemma {:induction false} RaiseIsInjective(x: nat, y: nat, count: nat)
    ensures Raise(x, count) == Raise(y, count) <==> x == y
  {
    if count > 0 {
      RaiseIsInjective(x, y, count - 1);
    }
  }

  lemma {:induction false} AndWithOnes(x: nat, bits: nat)
    requires x < Pow2(bits)
    ensures AndBits(x, Pow2(bits) - 1, bits) == x
  {
    if bits > 0 {
      AndWithOnes(x / 2, bits - 1);
      assert (Pow2(bits) - 1) / 2 == Pow2(bits - 1) - 1 && (Pow2(bits) - 1) % 2 == 1;
    }
  }

  /** And-ing with ones above `low` zeros clears the low bits. */
  lemma {:induction false} AndWithHighOnes(x: nat, low: nat, bits: nat)
    requires low <= bits && x < Pow2(bits)
    ensures Pow2(low) <= Pow2(bits)
    ensures AndBits(x, Pow2(bits) - Pow2(low), bits) == Raise(DropBits(x, low), low)
  {
    Pow2Grows(low, bits);
    if low == 0 {
      AndWithOnes(x, bits);
    } else {
      Pow2Grows(low - 1, bits - 1);
      AndWithHighOnes(x / 2, low - 1, bits - 1);
      assert Pow2(bits) - Pow2(low) == 2 * (Pow2(bits - 1) - Pow2(low - 1));
    }
  }

  lemma MaskIsHighOnes(prefix: int)
    requires 1 <= prefix <= 32
    ensures Pow2(32 - prefix) <= Pow2(31) < Pow2(32) == 0x1_0000_0000
    ensures Mask(prefix) == Pow2(32) - Pow2(32 - prefix)
  {
    Pow2Of32();
    var low: nat := 32 - prefix;
    Pow2Grows(low, 31);
    assert Pow2(32) == 2 * Pow2(31);
    assert low % 32 == low;
    assert Pow2(0 % 32) == 1;
    var unit: int := Pow2(low);
    assert ToUint32(-1 * unit) == Pow2(32) - unit;
  }

  /** The 32-bit operators are what the language says: signed words congruent modulo 2^32, unsigned
      shifts that divide, and shift counts modulo 32. */
  lemma WordsWrap(x: int, count: nat)
    ensures -0x8000_0000 <= ToInt32(x) < 0x8000_0000 && (ToInt32(x) - x) % 0x1_0000_0000 == 0
    ensures ShiftRightUnsigned(x, count + 32) == ShiftRightUnsigned(x, count)
    ensures count < 32 ==> ShiftRightUnsigned(x, count) == ToUint32(x) / Pow2(count)
    ensures ShiftLeft(x, count + 32) == ShiftLeft(x, count)
    ensures count < 32 ==> ShiftLeft(x, count) == ToInt32(x * Pow2(count))
  {
    hide DropBits, Pow2;
    assert (count + 32) % 32 == count % 32;
    if count < 32 {
      DroppingIsDividing(ToUint32(x), count);
      assert count % 32 == count;
    }
  }

  lemma ToInt32IsInjective(x: nat, y: nat)
    requires x < 0x1_0000_0000 && y < 0x1_0000_0000
    ensures ToInt32(x) == ToInt32(y) <==> x == y
  {}

  // ---------------------------------------------------------------- subnets

  datatype Subnet = Subnet(base: string, prefix: int)

  predicate InSubnet(ip: Option<string>, subnet: Subnet) {
    && ip.Some? && ip.value != "" && ':' !in ip.value && subnet.prefix > 0
    && ToInt(ip.value).Some?
    && ToInt(subnet.base).Some?
    && BitAnd(ToInt(ip.value).value, Mask(subnet.prefix)) == BitAnd(ToInt(subnet.base).value, Mask(subnet.prefix))
  }

  lemma MaskedIsMultiple(x: nat, prefix: int)
    requires 1 <= prefix <= 32 && x < Pow2(32)
    ensures BitAnd(x, Mask(prefix)) == ToInt32(Raise(DropBits(x, 32 - prefix), 32 - prefix))
    ensures Raise(DropBits(x, 32 - prefix), 32 - prefix) < 0x1_0000_0000
  {
    hide AndBits, Mask, DropBits, Raise;
    MaskIsHighOnes(prefix);
    var low: nat := 32 - prefix;
    AndWithHighOnes(x, low, WORD);
    AndIsBelow(x, Pow2(32) - Pow2(low), WORD);
    assert ToUint32(x) == x && ToUint32(Mask(prefix)) == Mask(prefix);
  }

  lemma {:induction false} AndIsBelow(x: nat, y: nat, bits: nat)
    ensures AndBits(x, y, bits) < Pow2(bits)
  {
    if bits > 0 {
      AndIsBelow(x / 2, y / 2, bits - 1);
    }
  }

  /** How many leading bits the mask of a positive prefix has: the shift count is taken modulo 32, so a
      prefix above 32 begins again at 1. */
  function LeadingBits(prefix: int): (bits: nat)
    requires prefix >= 1
    ensures 1 <= bits <= 32
    ensures prefix <= 32 ==> bits == prefix
    ensures (prefix - bits) % 32 == 0
  {
    32 - (32 - prefix) % 32
  }

  lemma MaskOfLeadingBits(prefix: int)
    requires prefix >= 1
    ensures Mask(prefix) == Mask(LeadingBits(prefix))
  {
    assert (32 - LeadingBits(prefix)) % 32 == (32 - prefix) % 32;
  }

  /** For every prefix the bit-mask test holds exactly when the prefix is positive, both texts are
      addresses, and the two agree after division by 2^(32 - bits), where the bits are the prefix
      itself up to 32. Missing and empty texts, texts that are no address, and texts with a colon
      are in no subnet. */
  lemma SubnetTestIsDivision(ip: Option<string>, subnet: Subnet)
    ensures InSubnet(ip, subnet) <==>
      && subnet.prefix >= 1
      && ip.Some?
      && ':' !in ip.value
      && ToInt(ip.value).Some?
      && ToInt(subnet.base).Some?
      && var unit := Pow2(32 - LeadingBits(subnet.prefix));
         ToInt(ip.value).value / unit == ToInt(subnet.base).value / unit
  {
    hide BitAnd, Mask, Octets, Value, Pow2;
    EmptyIsNoAddress();
    if subnet.prefix >= 1 && ip.Some? && ToInt(ip.value).Some? && ToInt(subnet.base).Some? {
      AddressesAreNumbers(ip.value, subnet.base);
      AddressesAreNumbers(subnet.base, ip.value);
      MaskOfLeadingBits(subnet.prefix);
      AndComparesQuotients(ToInt(ip.value).value, ToInt(subnet.base).value, LeadingBits(subnet.prefix));
    }
  }

  lemma EmptyIsNoAddress()
    ensures Octets("").None?
  {
    assert SplitDots("") == [""];
  }

  lemma AndComparesQuotients(x: nat, y: nat, prefix: int)
    requires 1 <= prefix <= 32 && x < Pow2(32) && y < Pow2(32)
    ensures BitAnd(x, Mask(prefix)) == BitAnd(y, Mask(prefix)) <==> x / Pow2(32 - prefix) == y / Pow2(32 - prefix)
  {
    hide BitAnd, Mask, ToInt32, DropBits, Raise, Pow2;
    var low: nat := 32 - prefix;
    var a, b := DropBits(x, low), DropBits(y, low);
    MaskedIsMultiple(x, prefix);
    MaskedIsMultiple(y, prefix);
    DroppingIsDividing(x, low);
    DroppingIsDividing(y, low);
    RaiseIsInjective(a, b, low);
    ToInt32IsInjective(Raise(a, low), Raise(b, low));
  }

  // ---------------------------------------------------------------- netmasks

  function Decimal(n: nat): string {
    (if n < 10 then "" else Decimal(n / 10)) + [(n % 10 + '0' as int) as char]
  }

  function JoinDots(octets: seq<nat>): string {
    if octets == [] then ""
    else if |octets| == 1 then Decimal(octets[0])
    else Decimal(octets[0]) + "." + JoinDots(octets[1..])
  }

  /** `(mask >>> shift) & 255`, with no shift for the last octet. */
  function MaskOctet(mask: nat, shift: nat): (r: nat) {
    AndBits(ToUint32(ShiftRightUnsigned(mask, shift)), 255, WORD)
  }

  function PrefixBits(prefix: real): (r: nat)
    ensures r <= 32
  {
    if prefix.Floor < 0 then 0 else if prefix.Floor > 32 then 32 else prefix.Floor
  }

  function PrefixToNetmask(prefix: real): string {
    var bits := PrefixBits(prefix);
    var mask := if bits == 0 then 0 else Mask(bits);
    JoinDots([MaskOctet(mask, 24), MaskOctet(mask, 16), MaskOctet(mask, 8), MaskOctet(mask, 0)])
  }

  lemma {:induction false} DigitsContinue(a: string, ch: char, value: nat)
    requires IsDigit(ch) && forall i :: 0 <= i < |a| ==> IsDigit(a[i])
    ensures LeadingDigits(a + [ch], value) == LeadingDigits(a, value) * 10 + (ch as int - '0' as int)
  {
    if a == "" {
      assert (a + [ch])[1..] == "";
    } else {
      assert (a + [ch])[1..] == a[1..] + [ch];
      DigitsContinue(a[1..], ch, value * 10 + (a[0] as int - '0' as int));
    }
  }

  lemma {:induction false} DecimalReadsBack(n: nat)
    ensures Decimal(n) != ""
    ensures forall i :: 0 <= i < |Decimal(n)| ==> IsDigit(Decimal(n)[i])
    ensures LeadingDigits(Decimal(n), 0) == n
  {
    var front := if n < 10 then "" else Decimal(n / 10);
    if n >= 10 {
      DecimalReadsBack(n / 10);
    }
    DigitsContinue(front, (n % 10 + '0' as int) as char, 0);
  }

  lemma OctetReadsBack(n: nat)
    ensures ParseInt(Decimal(n)) == Some(n)
    ensures IndexOf(Decimal(n), '.') == |Decimal(n)|
  {
    DecimalReadsBack(n);
  }

  lemma DotAfter(n: nat, rest: string)
    ensures SplitDots(Decimal(n) + "." + rest) == [Decimal(n)] + SplitDots(rest)
  {
    hide Decimal;
    OctetReadsBack(n);
    DecimalReadsBack(n);
    var s, i := Decimal(n) + "." + rest, |Decimal(n)|;
    assert s[i] == '.' && s[..i] == Decimal(n) && s[i + 1..] == rest;
    assert forall k :: 0 <= k < i ==> s[k] == Decimal(n)[k];
    assert IndexOf(s, '.') == i;
  }

  /** Four octets written in dotted form are read back as those octets. */
  lemma DottedReadsBack(a: nat, b: nat, c: nat, d: nat)
    requires a <= 255 && b <= 255 && c <= 255 && d <= 255
    ensures Octets(JoinDots([a, b, c, d])) == Some([a, b, c, d])
  {
    hide Decimal, ParseInt, JoinDots, SplitDots, Octets, IndexOf;
    OctetReadsBack(a);
    OctetReadsBack(b);
    OctetReadsBack(c);
    OctetReadsBack(d);
    JoinDotsCons(a, [b, c, d]);
    JoinDotsCons(b, [c, d]);
    JoinDotsCons(c, [d]);
    assert [a] + [b, c, d] == [a, b, c, d] && [b] + [c, d] == [b, c, d] && [c] + [d] == [c, d];
    LastOctet(d);
    var parts := [Decimal(a)] + ([Decimal(b)] + ([Decimal(c)] + [Decimal(d)]));
    assert SplitDots(JoinDots([a, b, c, d])) == parts;
    OctetsOfParts(JoinDots([a, b, c, d]), parts, [a, b, c, d]);
  }

  lemma JoinDotsCons(n: nat, rest: seq<nat>)
    requires rest != []
    ensures SplitDots(JoinDots([n] + rest)) == [Decimal(n)] + SplitDots(JoinDots(rest))
  {
    hide Decimal, SplitDots;
    assert ([n] + rest)[1..] == rest;
    DotAfter(n, JoinDots(rest));
  }

  lemma LastOctet(n: nat)
    ensures SplitDots(JoinDots([n])) == [Decimal(n)]
  {
    hide Decimal;
    OctetReadsBack(n);
  }

  lemma OctetsOfParts(ip: string, parts: seq<string>, octets: seq<nat>)
    requires SplitDots(ip) == parts && |parts| == |octets| == 4
    requires forall i :: 0 <= i < 4 ==> ParseInt(parts[i]) == Some(octets[i]) && octets[i] <= 255
    ensures Octets(ip) == Some(octets)
  {
    hide ParseInt, SplitDots;
    assert Octets(ip).Some? && Octets(ip).value == octets;
  }

  /** And-ing with ones in the lowest places keeps those bits. */
  lemma {:induction false} AndWithLowOnes(x: nat, ones: nat, bits: nat)
    requires ones <= bits
    ensures AndBits(x, Pow2(ones) - 1, bits) == LowBits(x, ones)
  {
    if ones == 0 {
      AndWithZero(x, bits);
    } else {
      AndWithLowOnes(x / 2, ones - 1, bits - 1);
      assert (Pow2(ones) - 1) / 2 == Pow2(ones - 1) - 1 && (Pow2(ones) - 1) % 2 == 1;
    }
  }

  lemma {:induction false} AndWithZero(x: nat, bits: nat)
    ensures AndBits(x, 0, bits) == 0
  {
    if bits > 0 {
      AndWithZero(x / 2, bits - 1);
    }
  }

  lemma WordStays(x: nat)
    requires x < 0x1_0000_0000
    ensures ToUint32(x) == x
  {}

  lemma MaskOctetIs(mask: nat, shift: nat)
    requires mask < 0x1_0000_0000 && shift < 32
    ensures MaskOctet(mask, shift) == DropBits(mask, shift) % 256
  {
    hide AndBits, LowBits, DropBits, Pow2, ToUint32;
    var x := DropBits(mask, shift);
    OctetUnits();
    AndWithLowOnes(x, 8, WORD);
    DroppingIsDividing(x, 8);
    WordStays(mask);
    WordStays(x);
    assert shift % 32 == shift;
  }

  lemma FourOctets(mask: nat)
    requires mask < 0x1_0000_0000
    ensures Value([mask / 0x100_0000 % 256, mask / 0x1_0000 % 256, mask / 0x100 % 256, mask % 256]) == mask
  {
    hide Value;
    ValueOfFour(mask / 0x100_0000 % 256, mask / 0x1_0000 % 256, mask / 0x100 % 256, mask % 256);
    var t1 := mask / 0x100;
    var t2 := t1 / 0x100;
    var t3 := t2 / 0x100;
    assert mask / 0x1_0000 == t2 && mask / 0x100_0000 == t3;
    assert t3 < 256 && t2 == t3 * 256 + t2 % 256 && t1 == t2 * 256 + t1 % 256 && mask == t1 * 256 + mask % 256;
  }

  lemma ValueOfFour(a: nat, b: nat, c: nat, d: nat)
    ensures Value([a, b, c, d]) == ((a * 256 + b) * 256 + c) * 256 + d
  {
    assert [a, b, c, d][..3] == [a, b, c] && [a, b, c][..2] == [a, b] && [a, b][..1] == [a] && [a][..0] == [];
    assert Value([a]) == a;
    assert Value([a, b]) == a * 256 + b;
    assert Value([a, b, c]) == (a * 256 + b) * 256 + c;
  }

  /** The netmask text of every prefix, fractional and out of range included, reads back as the
      number whose top bits are ones: none of them below 1, all of them from 32 on, and in between
      as many as whole ones are in the prefix. */
  lemma NetmaskReadsBack(prefix: real, bits: nat)
    ensures prefix < 1.0 ==> ToInt(PrefixToNetmask(prefix)) == Some(0)
    ensures prefix >= 32.0 ==> ToInt(PrefixToNetmask(prefix)) == Some(Pow2(32) - 1)
    ensures bits <= 32 && bits as real <= prefix < bits as real + 1.0 ==>
      ToInt(PrefixToNetmask(prefix)) == Some(Pow2(32) - Pow2(32 - bits))
  {
    hide PrefixToNetmask, Octets, Value;
    NetmaskOfBits(prefix);
    assert Pow2(0) == 1;
  }

  lemma NetmaskOfBits(prefix: real)
    ensures ToInt(PrefixToNetmask(prefix)) == Some(Pow2(32) - Pow2(32 - PrefixBits(prefix)))
  {
    hide Mask, MaskOctet, JoinDots, Octets, Value;
    var bits := PrefixBits(prefix);
    var mask := if bits == 0 then 0 else Mask(bits);
    Pow2Of32();
    if bits > 0 {
      MaskIsHighOnes(bits);
    }
    assert mask == Pow2(32) - Pow2(32 - bits);
    NetmaskOctets(mask);
    DottedReadsBack(mask / 0x100_0000 % 256, mask / 0x1_0000 % 256, mask / 0x100 % 256, mask % 256);
    FourOctets(mask);
  }

  lemma NetmaskOctets(mask: nat)
    requires mask < 0x1_0000_0000
    ensures MaskOctet(mask, 24) == mask / 0x100_0000 % 256
    ensures MaskOctet(mask, 16) == mask / 0x1_0000 % 256
    ensures MaskOctet(mask, 8) == mask / 0x100 % 256
    ensures MaskOctet(mask, 0) == mask % 256
  {
    hide MaskOctet, DropBits, LowBits, Pow2;
    OctetUnits();
    MaskOctetIs(mask, 24);
    MaskOctetIs(mask, 16);
    MaskOctetIs(mask, 8);
    MaskOctetIs(mask, 0);
    DroppingIsDividing(mask, 24);
    DroppingIsDividing(mask, 16);
    DroppingIsDividing(mask, 8);
    DroppingIsDividing(mask, 0);
  }

  lemma OctetUnits()
    ensures Pow2(0) == 1 && Pow2(8) == 0x100 && Pow2(16) == 0x1_0000 && Pow2(24) == 0x100_0000
  {
    assert Pow2(8) == 256;
    Pow2Adds(8, 8);
    Pow2Adds(16, 8);
  }
}
