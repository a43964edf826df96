/** The hex and decimal text forms used by the order JSON: encoding/hex,
    the "%#x" verb and big.Int's base-10 String/SetString. */
module Text {
  import opened Bytes

  datatype Option<+T> = None | Some(value: T)

  function HexDigit(d: nat): (c: char)
    requires d < 16
    ensures HexValue(c) == Some(d)
    ensures c != 'x'
  {
    if d < 10 then '0' + d as char else 'a' + (d - 10) as char
  }

  function HexValue(c: char): (v: Option<nat>)
    ensures v.Some? ==> v.value < 16
  {
    if '0' <= c <= '9' then Some((c - '0') as nat)
    else if 'a' <= c <= 'f' then Some((c - 'a') as nat + 10)
    else if 'A' <= c <= 'F' then Some((c - 'A') as nat + 10)
    else None
  }

  /** hex.EncodeToString */
  function EncodeHex(s: Bytes): (t: string)
    ensures |t| == 2 * |s|
  {
    if s == [] then "" else [HexDigit(s[0] / 16), HexDigit(s[0] % 16)] + EncodeHex(s[1..])
  }

  /** hex.DecodeString: fails on odd length and on any other character. */
  function DecodeHex(t: string): (s: Option<Bytes>)
    ensures s.Some? ==> 2 * |s.value| == |t|
  {
    if t == "" then Some([])
    else if |t| == 1 then None
    else
      var rest := DecodeHex(t[2..]);
      if HexValue(t[0]).None? || HexValue(t[1]).None? || rest.None? then None
      else Some([16 * HexValue(t[0]).value + HexValue(t[1]).value] + rest.value)
  }

  /** fmt's "%#x" on a byte slice, which prints nothing at all for an empty one. */
  function FormatHex(s: Bytes): string {
    if s == [] then "" else "0x" + EncodeHex(s)
  }

  /** HexStringToBytes: drop one leading 0x, then decode. */
  function HexStringToBytes(t: string): Option<Bytes> {
    DecodeHex(if "0x" <= t then t[2..] else t)
  }

  lemma {:induction false} DecodeEncodeHex(s: Bytes)
    ensures DecodeHex(EncodeHex(s)) == Some(s)
  {
    if s == [] {
    } else {
      DecodeEncodeHex(s[1..]);
      assert EncodeHex(s)[2..] == EncodeHex(s[1..]);
      assert [s[0]] + s[1..] == s;
    }
  }

  lemma {:induction false} HexRoundTrip(s: Bytes)
    ensures HexStringToBytes(FormatHex(s)) == Some(s)
  {
    DecodeEncodeHex(s);
    assert s != [] ==> FormatHex(s)[2..] == EncodeHex(s);
  }

  /** big.Int.String of a non-negative number. */
  function FormatDecimal(n: nat): (t: string)
    ensures t != "" && t[0] !in "+-"
  {
    if n < 10 then ['0' + n as char] else FormatDecimal(n / 10) + ['0' + (n % 10) as char]
  }

  function ParseDigits(t: string): Option<nat>
  {
    if t == "" then None
    else
      var last := t[|t| - 1];
      if !('0' <= last <= '9') then None
      else if |t| == 1 then Some((last - '0') as nat)
      else match ParseDigits(t[..|t| - 1])
        case None => None
        case Some(n) => Some(10 * n + (last - '0') as nat)
  }

  /** big.Int.SetString(t, 10): an optional sign, then at least one digit. */
  function ParseInt(t: string): Option<int> {
    if t != "" && t[0] in "+-" then
      match ParseDigits(t[1..])
      case None => None
      case Some(n) => Some(if t[0] == '-' then 0 - n as int else n as int)
    else
      match ParseDigits(t)
      case None => None
      case Some(n) => Some(n)
  }

  lemma {:induction false} ParseFormatDigits(n: nat)
    ensures ParseDigits(FormatDecimal(n)) == Some(n)
  {
    if n >= 10 {
      ParseFormatDigits(n / 10);
      assert FormatDecimal(n)[..|FormatDecimal(n)| - 1] == FormatDecimal(n / 10);
    }
  }

  /** intStringToBytes: parse, then reduce to 32 bytes. */
  function IntStringToWord(t: string): Option<Word> {
    match ParseInt(t)
    case None => None
    case Some(n) => Some(WordOf(n))
  }

  /** Every Uint256 survives being printed in decimal and parsed again. */
  lemma {:induction false} DecimalRoundTrip(w: Word)
    ensures IntStringToWord(FormatDecimal(FromBytes(w))) == Some(w)
  {
    ParseFormatDigits(FromBytes(w));
    FromBytesInjective(WordOf(FromBytes(w)), w);
  }

  // ---- text that was not printed here ----

  /** The value of a digit is its place among the digits, letters in either case. */
  lemma HexDigits(i: nat)
    requires i < 16
    ensures HexValue("0123456789abcdef"[i]) == HexValue("0123456789ABCDEF"[i]) == Some(i)
  {
  }

  /** And nothing else is a digit. */
  lemma NoOtherHexDigits(c: char)
    ensures HexValue(c).Some? <==> '0' <= c <= '9' || 'a' <= c <= 'f' || 'A' <= c <= 'F'
  {
  }

  /** Decoding succeeds exactly on an even number of hex digits. */
  lemma {:induction false} DecodesIff(t: string)
    ensures DecodeHex(t).Some? <==> |t| % 2 == 0 && forall i :: 0 <= i < |t| ==> HexValue(t[i]).Some?
    decreases |t|
  {
    if |t| < 2 {
    } else {
      DecodesIff(t[2..]);
      assert forall i :: 0 <= i < |t| - 2 ==> t[2..][i] == t[i + 2];
      assert forall i :: 2 <= i < |t| ==> t[i] == t[2..][i - 2];
    }
  }

  /** Byte i comes from digits 2 i and 2 i + 1, the first counting sixteenfold. */
  lemma {:induction false} DecodedByte(t: string, i: nat)
    requires DecodeHex(t).Some? && 2 * i < |t|
    ensures HexValue(t[2 * i]).Some? && HexValue(t[2 * i + 1]).Some?
    ensures DecodeHex(t).value[i] == 16 * HexValue(t[2 * i]).value + HexValue(t[2 * i + 1]).value
    decreases i
  {
    if i == 0 {
    } else {
      DecodedByte(t[2..], i - 1);
    }
  }

  /** The printed form: 0x and two lower-case digits for each byte, the higher one first;
      nothing at all for no bytes. */
  lemma {:induction false} FormattedHex(s: Bytes, i: nat)
    requires i < |s|
    ensures |FormatHex(s)| == 2 + 2 * |s| && FormatHex(s)[..2] == "0x"
    ensures FormatHex(s)[2 + 2 * i] == "0123456789abcdef"[s[i] / 16]
    ensures FormatHex(s)[3 + 2 * i] == "0123456789abcdef"[s[i] % 16]
  {
    EncodedDigits(s, i);
    assert FormatHex(s)[2..] == EncodeHex(s);
  }

  lemma {:induction false} EncodedDigits(s: Bytes, i: nat)
    requires i < |s|
    ensures EncodeHex(s)[2 * i] == "0123456789abcdef"[s[i] / 16]
    ensures EncodeHex(s)[2 * i + 1] == "0123456789abcdef"[s[i] % 16]
    decreases i
  {
    if i == 0 {
    } else {
      EncodedDigits(s[1..], i - 1);
      assert EncodeHex(s)[2..] == EncodeHex(s[1..]);
    }
  }

  /** A leading 0x makes no difference, unless another follows it. */
  lemma PrefixIsOptional(t: string)
    requires !("0x" <= t)
    ensures HexStringToBytes("0x" + t) == HexStringToBytes(t) == DecodeHex(t)
  {
    assert ("0x" + t)[2..] == t;
  }

  /** Ten to the power n. */
  function Pow10(n: nat): nat {
    if n == 0 then 1 else 10 * Pow10(n - 1)
  }

  lemma Shift(d: nat, p: nat, v: nat, last: nat)
    ensures 10 * (d * p + v) + last == d * (10 * p) + (10 * v + last)
  {
  }

  /** Digits are read from the most significant on: a leading digit counts for ten to the
      power of what follows. */
  lemma {:induction false} LeadingDigit(c: char, t: string)
    requires '0' <= c <= '9' && ParseDigits(t).Some?
    ensures ParseDigits([c] + t) == Some((c - '0') as nat * Pow10(|t|) + ParseDigits(t).value)
    decreases |t|
  {
    var all, front := [c] + t, t[..|t| - 1];
    assert all[..|all| - 1] == [c] + front;
    if |t| == 1 {
      assert Pow10(1) == 10 * Pow10(0);
    } else {
      LeadingDigit(c, front);
      assert ParseDigits(front).Some? && Pow10(|t|) == 10 * Pow10(|front|);
      Shift((c - '0') as nat, Pow10(|front|), ParseDigits(front).value, (t[|t| - 1] - '0') as nat);
    }
  }

  lemma {:induction false} DigitsParse(t: string)
    ensures ParseDigits(t).Some? <==> t != "" && forall i :: 0 <= i < |t| ==> '0' <= t[i] <= '9'
    decreases |t|
  {
    if |t| < 2 {
    } else {
      DigitsParse(t[..|t| - 1]);
    }
  }

  /** A number is digits after at most one sign; a minus negates. */
  lemma SignedInt(sign: char, t: string)
    requires sign == '-' || sign == '+'
    ensures ParseInt([sign] + t) ==
            match ParseDigits(t)
            case None => None
            case Some(n) => Some(if sign == '-' then 0 - n as int else n as int)
  {
    var all := [sign] + t;
    assert all[1..] == t && all[0] == sign;
  }

  lemma UnsignedInt(t: string)
    requires t == "" || (t[0] != '-' && t[0] != '+')
    ensures ParseInt(t) == match ParseDigits(t) case None => None case Some(n) => Some(n as int)
  {
  }

  /** Printed numbers have no leading zero, but zero itself is one. */
  lemma {:induction false} NoLeadingZero(n: nat)
    ensures n > 0 ==> FormatDecimal(n)[0] != '0'
    ensures FormatDecimal(0) == "0"
    decreases n
  {
    if n < 10 {
    } else {
      NoLeadingZero(n / 10);
    }
  }
}
