/**
 The pieces of the .NET string library the PassThru code leans on, stated over
 `seq<char>`: decimal rendering and `uint.Parse`, `string.Split(char)` and
 `string.Join`, ordinal `Contains` and `Replace(pattern, "")`, ASCII upper-casing,
 hexadecimal byte rendering (`BitConverter.ToString`) and `Convert.ToByte(s, 16)`,
 and the leftmost-longest match of the regular expression `\d+`.
 */
module Text {
  import opened Base

  // ---------------------------------------------------------------------------
  // Decimal digits

  predicate IsDigit(c: char) {
    '0' <= c <= '9'
  }

  predicate AllDigits(s: string) {
    forall i :: 0 <= i < |s| ==> IsDigit(s[i])
  }

  function DigitChar(d: nat): (c: char)
    requires d < 10
    ensures IsDigit(c)
  {
    ('0' as int + d) as char
  }

  function DigitValue(c: char): (d: nat)
    requires IsDigit(c)
    ensures d < 10 && DigitChar(d) == c
  {
    c as int - '0' as int
  }

  /** The number a non-empty run of decimal digits denotes (unbounded). */
  function DigitsValue(s: string): nat
    requires AllDigits(s)
  {
    if |s| == 0 then 0 else DigitsValue(s[..|s| - 1]) * 10 + DigitValue(s[|s| - 1])
  }

  /** `n.ToString()` for an unsigned integer: no sign, no leading zero. */
  function Decimal(n: nat): (s: string)
    ensures |s| > 0 && AllDigits(s)
    ensures DigitsValue(s) == n
    ensures s[0] == '0' ==> n == 0
    decreases n
  {
    if n < 10 then [DigitChar(n)]
    else
      var prefix := Decimal(n / 10);
      var s := prefix + [DigitChar(n % 10)];
      assert s[..|s| - 1] == prefix;
      s
  }

  // ---------------------------------------------------------------------------
  // uint.Parse

  datatype ParseError =
    | FormatError    // FormatException
    | OverflowError  // OverflowException
    | ArgumentError  // ArgumentException or ArgumentOutOfRangeException (Convert.ToByte only)

  /** The characters the number parser skips around a number: U+0009 to U+000D and the space. */
  predicate IsWhite(c: char) {
    c == ' ' || '\t' <= c <= '\r'
  }

  function TrimStart(s: string): (r: string)
    ensures |r| <= |s| && r == s[|s| - |r|..]
    ensures |r| > 0 ==> !IsWhite(r[0])
  {
    if |s| > 0 && IsWhite(s[0]) then TrimStart(s[1..]) else s
  }

  function TrimEnd(s: string): (r: string)
    ensures |r| <= |s| && r == s[..|r|]
    ensures |r| > 0 ==> !IsWhite(r[|r| - 1])
  {
    if |s| > 0 && IsWhite(s[|s| - 1]) then TrimEnd(s[..|s| - 1]) else s
  }

  /** Removes the NUL characters at the end of `s`. */
  function TrimTrailingNuls(s: string): (r: string)
    ensures |r| <= |s| && r == s[..|r|]
    ensures |r| > 0 ==> r[|r| - 1] != '\0'
    ensures forall i :: |r| <= i < |s| ==> s[i] == '\0'
  {
    if |s| > 0 && s[|s| - 1] == '\0' then TrimTrailingNuls(s[..|s| - 1]) else s
  }

  /**
   The part of `s` that `uint.Parse` reads as a number: leading white space is
   skipped, trailing NUL characters are tolerated after the number, and white
   space before them is skipped as well.
   */
  function NumberText(s: string): string {
    TrimEnd(TrimTrailingNuls(TrimStart(s)))
  }

  /** The length of the optional leading sign of a number's text. */
  function SignLength(t: string): (n: nat)
    ensures n <= 1 && n <= |t|
  {
    if |t| > 0 && (t[0] == '+' || t[0] == '-') then 1 else 0
  }

  /** The digits of a number's text: what follows the optional sign. */
  function UnsignedPart(t: string): string {
    t[SignLength(t)..]
  }

  /**
   The trimmed texts `uint.Parse` accepts: an optional sign followed by at
   least one decimal digit, the value at most 4294967295, and a minus sign
   only in front of a zero value.
   */
  predicate ValidUIntText(t: string) {
    && |UnsignedPart(t)| > 0
    && AllDigits(UnsignedPart(t))
    && DigitsValue(UnsignedPart(t)) <= UINT32_MAX
    && (t[0] == '-' ==> DigitsValue(UnsignedPart(t)) == 0)
  }

  /**
   `uint.Parse(s)` with the default integer style: surrounding white space,
   trailing NUL characters and one leading sign are allowed, at least one digit
   is required (else a FormatException), and a value above 4294967295 or a
   negative non-zero value is an OverflowException; "-0" is 0.
   */
  function ParseUInt(s: string): (r: Result<uint32, ParseError>)
    ensures r.Success? <==> ValidUIntText(NumberText(s))
    ensures r.Success? ==> r.value == DigitsValue(UnsignedPart(NumberText(s)))
    ensures r.Failure? ==>
              (r.error == FormatError <==>
                 |UnsignedPart(NumberText(s))| == 0 || !AllDigits(UnsignedPart(NumberText(s))))
    ensures r.Failure? ==> !r.error.ArgumentError?
    ensures |s| == 0 ==> r == Failure(FormatError)
  {
    var t := NumberText(s);
    ParseDigits(UnsignedPart(t), |t| > 0 && t[0] == '-')
  }

  /** A plain run of digits parses exactly when its value fits in 32 bits, to that value. */
  lemma ParseAllDigits(s: string)
    requires |s| > 0 && AllDigits(s)
    ensures ParseUInt(s).Success? <==> DigitsValue(s) <= UINT32_MAX
    ensures ParseUInt(s).Success? ==> ParseUInt(s).value == DigitsValue(s)
  {
    DigitsAreNumberText(s);
    assert ParseUInt(s) == ParseDigits(s, false);
  }

  /** A plain run of digits is its own number text, without a sign. */
  lemma DigitsAreNumberText(s: string)
    requires |s| > 0 && AllDigits(s)
    ensures UnsignedPart(NumberText(s)) == s
    ensures !(|NumberText(s)| > 0 && NumberText(s)[0] == '-')
  {
    assert IsDigit(s[0]) && IsDigit(s[|s| - 1]);
    UnsignedNumberText(s);
  }

  /** A text that starts with neither white space nor a sign and ends with neither white space nor NUL is left as it is. */
  lemma UnsignedNumberText(s: string)
    requires |s| > 0 && !IsWhite(s[0]) && s[0] != '+' && s[0] != '-'
    requires !IsWhite(s[|s| - 1]) && s[|s| - 1] != '\0'
    ensures NumberText(s) == s && UnsignedPart(s) == s
  {
    assert TrimStart(s) == s;
    assert TrimTrailingNuls(s) == s;
    assert TrimEnd(s) == s;
    assert SignLength(s) == 0;
  }

  function ParseDigits(digits: string, negative: bool): Result<uint32, ParseError> {
    if |digits| == 0 || !AllDigits(digits) then Failure(FormatError)
    else if negative && DigitsValue(digits) != 0 then Failure(OverflowError)
    else if DigitsValue(digits) > UINT32_MAX then Failure(OverflowError)
    else Success(DigitsValue(digits))
  }

  /** Rendering a uint in decimal and parsing it back gives the same uint. */
  lemma ParseDecimal(n: uint32)
    ensures ParseUInt(Decimal(n)) == Success(n)
  {
    ParseAllDigits(Decimal(n));
  }

  /** Whitespace around the text does not change what it parses to. */
  lemma ParseIgnoresPadding(s: string, before: string, after: string)
    requires |s| > 0 && !IsWhite(s[0]) && !IsWhite(s[|s| - 1]) && s[|s| - 1] != '\0'
    requires forall i :: 0 <= i < |before| ==> IsWhite(before[i])
    requires forall i :: 0 <= i < |after| ==> IsWhite(after[i])
    ensures ParseUInt(before + s + after) == ParseUInt(s)
  {
    TrimPadding(s, before, after);
    TrimPadding(s, [], []);
    assert [] + s + [] == s;
  }

  /**
   Trimming removes exactly the white space around a text that starts and ends
   with characters that are neither white space nor NUL.
   */
  lemma TrimPadding(s: string, before: string, after: string)
    requires |s| > 0 && !IsWhite(s[0]) && !IsWhite(s[|s| - 1]) && s[|s| - 1] != '\0'
    requires forall i :: 0 <= i < |before| ==> IsWhite(before[i])
    requires forall i :: 0 <= i < |after| ==> IsWhite(after[i])
    ensures NumberText(before + s + after) == s
  {
    var tail := s + after;
    assert tail[0] == s[0];
    assert before + s + after == before + tail;
    TrimStartPadding(before, tail);
    assert tail[|tail| - 1] != '\0' by {
      if |after| > 0 {
        assert tail[|tail| - 1] == after[|after| - 1];
      }
    }
    assert TrimTrailingNuls(tail) == tail;
    TrimEndPadding(s, after);
  }

  /** NUL characters after the number do not change what it parses to. */
  lemma ParseIgnoresTrailingNuls(s: string, nuls: string)
    requires forall i :: 0 <= i < |nuls| ==> nuls[i] == '\0'
    ensures ParseUInt(s + nuls) == ParseUInt(s)
  {
    TrimStartBeforeNuls(s, nuls);
    TrimTrailingNulsAppend(TrimStart(s), nuls);
  }

  lemma {:induction false} TrimStartBeforeNuls(s: string, nuls: string)
    requires forall i :: 0 <= i < |nuls| ==> nuls[i] == '\0'
    ensures TrimStart(s + nuls) == TrimStart(s) + nuls
    decreases |s|
  {
    if |s| == 0 {
      assert s + nuls == nuls;
      assert |nuls| > 0 ==> !IsWhite(nuls[0]);
      assert TrimStart(s) + nuls == nuls;
    } else if IsWhite(s[0]) {
      assert (s + nuls)[1..] == s[1..] + nuls;
      TrimStartBeforeNuls(s[1..], nuls);
    }
  }

  lemma {:induction false} TrimTrailingNulsAppend(t: string, nuls: string)
    requires forall i :: 0 <= i < |nuls| ==> nuls[i] == '\0'
    ensures TrimTrailingNuls(t + nuls) == TrimTrailingNuls(t)
    decreases |nuls|
  {
    if |nuls| == 0 {
      assert t + nuls == t;
    } else {
      assert (t + nuls)[..|t + nuls| - 1] == t + nuls[..|nuls| - 1];
      TrimTrailingNulsAppend(t, nuls[..|nuls| - 1]);
    }
  }

  lemma {:induction false} TrimStartPadding(before: string, s: string)
    requires |s| > 0 && !IsWhite(s[0])
    requires forall i :: 0 <= i < |before| ==> IsWhite(before[i])
    ensures TrimStart(before + s) == s
    decreases |before|
  {
    if |before| > 0 {
      assert (before + s)[1..] == before[1..] + s;
      TrimStartPadding(before[1..], s);
    }
  }

  lemma {:induction false} TrimEndPadding(s: string, after: string)
    requires |s| > 0 && !IsWhite(s[|s| - 1])
    requires forall i :: 0 <= i < |after| ==> IsWhite(after[i])
    ensures TrimEnd(s + after) == s
    decreases |after|
  {
    if |after| > 0 {
      assert (s + after)[..|s + after| - 1] == s + after[..|after| - 1];
      TrimEndPadding(s, after[..|after| - 1]);
    }
  }

  /** A plus sign is accepted. */
  lemma ParsePlusSeven()
    ensures ParseUInt("+7") == Success(7)
  {
    var s := "+7";
    assert TrimStart(s) == s;
    assert TrimTrailingNuls(s) == s;
    assert TrimEnd(s) == s;
    assert s[1..] == "7";
    assert DigitsValue("7") == 7 by {
      assert "7"[..0] == "";
    }
  }

  /** A minus sign is accepted on zero. */
  lemma ParseMinusZero()
    ensures ParseUInt("-0") == Success(0)
  {
    var s := "-0";
    assert TrimStart(s) == s;
    assert TrimTrailingNuls(s) == s;
    assert TrimEnd(s) == s;
    assert s[1..] == "0";
    assert DigitsValue("0") == 0 by {
      assert "0"[..0] == "";
    }
  }

  /** Letters are a format error. */
  lemma ParseLetters()
    ensures ParseUInt("abc") == Failure(FormatError)
  {
    var s := "abc";
    assert TrimStart(s) == s;
    assert TrimTrailingNuls(s) == s;
    assert TrimEnd(s) == s;
    assert !IsDigit(s[0]);
  }

  /** The default channel id text "-1" cannot be parsed as a uint. */
  lemma ParseMinusOne()
    ensures ParseUInt("-1") == Failure(OverflowError)
  {
    var s := "-1";
    assert TrimStart(s) == s;
    assert TrimTrailingNuls(s) == s;
    assert TrimEnd(s) == s;
    assert s[1..] == "1";
    assert DigitsValue("1") == 1 by {
      assert "1"[..0] == "";
    }
  }

  // ---------------------------------------------------------------------------
  // Hexadecimal

  /** Upper-case hexadecimal digit, as `BitConverter.ToString` writes it. */
  function HexDigit(d: nat): (c: char)
    requires d < 16
  {
    if d < 10 then ('0' as int + d) as char else ('A' as int + d - 10) as char
  }

  /** The value of one hexadecimal digit of either case, as `Convert.ToByte(s, 16)` reads it. */
  function HexValue(c: char): (r: Option<nat>)
    ensures r.Some? ==> r.value < 16
  {
    if '0' <= c <= '9' then Some(c as int - '0' as int)
    else if 'A' <= c <= 'F' then Some(c as int - 'A' as int + 10)
    else if 'a' <= c <= 'f' then Some(c as int - 'a' as int + 10)
    else None
  }

  /** The two-character upper-case rendering of one byte. */
  function HexPair(b: byte): (s: string)
    ensures |s| == 2
  {
    [HexDigit(b / 16), HexDigit(b % 16)]
  }

  /** The number a run of hexadecimal digits denotes, or None when a character is not a digit. */
  function HexDigitsValue(s: string): Option<nat> {
    if |s| == 0 then Some(0)
    else
      match (HexDigitsValue(s[..|s| - 1]), HexValue(s[|s| - 1]))
      case (Some(high), Some(low)) => Some(high * 16 + low)
      case _ => None
  }

  /** The length of the optional `+` that `Convert.ToByte(s, 16)` skips. */
  function PlusLength(s: string): (n: nat)
    ensures n <= 1 && n <= |s|
  {
    if |s| > 0 && s[0] == '+' then 1 else 0
  }

  /**
   The digits `Convert.ToByte(s, 16)` reads: what follows an optional `+` and
   then an optional `0x` or `0X`, the prefix skipped only when a character
   follows its `0`.
   */
  function HexBody(s: string): (r: string)
    ensures |r| <= |s| && r == s[|s| - |r|..]
  {
    var i := PlusLength(s);
    if i + 1 < |s| && s[i] == '0' && (s[i + 1] == 'x' || s[i + 1] == 'X') then s[i + 2..] else s[i..]
  }

  /** The longest run of hexadecimal digits at the start of `s`. */
  function LeadingHexDigits(s: string): (r: string)
    ensures |r| <= |s| && r == s[..|r|] && AllHexDigits(r)
    ensures |r| < |s| ==> HexValue(s[|r|]).None?
  {
    if |s| > 0 && HexValue(s[0]).Some? then [s[0]] + LeadingHexDigits(s[1..]) else ""
  }

  /** A run of hexadecimal digits always denotes a number. */
  lemma {:induction false} HexDigitsHaveValue(s: string)
    requires AllHexDigits(s)
    ensures HexDigitsValue(s).Some?
    decreases |s|
  {
    if |s| > 0 {
      HexDigitsHaveValue(s[..|s| - 1]);
    }
  }

  /** Only a run of hexadecimal digits denotes a number. */
  lemma {:induction false} HexValueHasDigits(s: string)
    ensures HexDigitsValue(s).Some? ==> AllHexDigits(s)
    decreases |s|
  {
    if |s| > 0 && HexDigitsValue(s).Some? {
      HexValueHasDigits(s[..|s| - 1]);
      assert forall i :: 0 <= i < |s| - 1 ==> s[i] == s[..|s| - 1][i];
    }
  }

  /**
   `Convert.ToByte(s, 16)`: an empty string and a leading `-` are argument
   errors. After the optional `+` and `0x` prefix the digits are read while
   they last, and the read throws an OverflowException as soon as the running
   value no longer fits in 32 bits. Only then is the rest checked: no digits or
   a character left over is a FormatException, and a value above 255 an
   OverflowException. No white space is skipped.
   */
  function ParseHexByte(s: string): (r: Result<byte, ParseError>)
    ensures r.Success? <==>
              && |s| > 0 && s[0] != '-' && |HexBody(s)| > 0
              && HexDigitsValue(HexBody(s)).Some? && HexDigitsValue(HexBody(s)).value < 0x100
    ensures r.Success? ==> HexDigitsValue(HexBody(s)) == Some(r.value)
    ensures r.Failure? ==> (r.error == ArgumentError <==> |s| == 0 || s[0] == '-')
    ensures r.Failure? ==>
              (r.error == OverflowError <==>
                 && |s| > 0 && s[0] != '-'
                 && var run := LeadingHexDigits(HexBody(s));
                    && |run| > 0 && HexDigitsValue(run).Some?
                    && (HexDigitsValue(run).value > UINT32_MAX || (run == HexBody(s) && HexDigitsValue(run).value >= 0x100)))
  {
    if |s| == 0 || s[0] == '-' then Failure(ArgumentError)
    else
      var body := HexBody(s);
      var run := LeadingHexDigits(body);
      HexDigitsHaveValue(run);
      HexValueHasDigits(body);
      assert |run| == |body| ==> run == body;
      var v := HexDigitsValue(run).value;
      if |run| == 0 then Failure(FormatError)
      else if v > UINT32_MAX then Failure(OverflowError)
      else if |run| < |body| then Failure(FormatError)
      else if v < 0x100 then Success(v)
      else Failure(OverflowError)
  }

  /**
   Once the leading digits are worth more than 32 bits, the read overflows
   whatever follows them.
   */
  lemma WideRunOverflowsFirst(s: string)
    requires |s| > 0 && s[0] != '-'
    requires HexDigitsValue(LeadingHexDigits(HexBody(s))).Some?
    requires HexDigitsValue(LeadingHexDigits(HexBody(s))).value > UINT32_MAX
    ensures ParseHexByte(s) == Failure(OverflowError)
  {
  }

  /** `"FFFFFFFFFZ"`: nine digits worth 2^36 - 1, then a character that is not a digit. */
  lemma WideRunOverflows()
    ensures ParseHexByte("FFFFFFFFFZ") == Failure(OverflowError)
  {
    WideRunBody();
    WideRunDigits();
    NineHexFs();
    WideRunOverflowsFirst("FFFFFFFFFZ");
  }

  lemma WideRunBody()
    ensures HexBody("FFFFFFFFFZ") == "FFFFFFFFFZ"
  {
    assert PlusLength("FFFFFFFFFZ") == 0;
  }

  lemma WideRunDigits()
    ensures LeadingHexDigits("FFFFFFFFFZ") == "FFFFFFFFF"
  {
    var s := "FFFFFFFFFZ";
    var run := LeadingHexDigits(s);
    assert HexValue(s[|run|]).None? by {
      assert AllHexDigits(run) && HexValue(s[9]).None?;
    }
  }

  lemma NineHexFs()
    ensures HexDigitsValue("FFFFFFFFF") == Some(0xF_FFFF_FFFF)
  {
    assert HexDigitsValue("F") == Some(0xF);
    assert "FF"[..1] == "F";
    assert HexDigitsValue("FF") == Some(0xFF);
    assert "FFF"[..2] == "FF";
    assert HexDigitsValue("FFF") == Some(0xFFF);
    assert "FFFF"[..3] == "FFF";
    assert HexDigitsValue("FFFF") == Some(0xFFFF);
    assert "FFFFF"[..4] == "FFFF";
    assert HexDigitsValue("FFFFF") == Some(0xF_FFFF);
    assert "FFFFFF"[..5] == "FFFFF";
    assert HexDigitsValue("FFFFFF") == Some(0xFF_FFFF);
    assert "FFFFFFF"[..6] == "FFFFFF";
    assert HexDigitsValue("FFFFFFF") == Some(0xFFF_FFFF);
    assert "FFFFFFFF"[..7] == "FFFFFFF";
    assert HexDigitsValue("FFFFFFFF") == Some(0xFFFF_FFFF);
    assert "FFFFFFFFF"[..8] == "FFFFFFFF";
    assert HexDigitsValue("FFFFFFFFF") == Some(0xF_FFFF_FFFF);
  }

  lemma HexValueOfDigit(d: nat)
    requires d < 16
    ensures HexValue(HexDigit(d)) == Some(d)
  {
  }

  /** Hexadecimal digits, with no sign or prefix in front. */
  predicate AllHexDigits(s: string) {
    forall i :: 0 <= i < |s| ==> HexValue(s[i]).Some?
  }

  /**
   A leading `+`, a `0x` or `0X` prefix, or both, in front of hexadecimal
   digits are skipped: the text reads as the bare digits do.
   */
  lemma HexPrefixesSkipped(digits: string)
    requires |digits| > 0 && AllHexDigits(digits)
    ensures ParseHexByte("+" + digits) == ParseHexByte(digits)
    ensures ParseHexByte("0x" + digits) == ParseHexByte(digits)
    ensures ParseHexByte("0X" + digits) == ParseHexByte(digits)
    ensures ParseHexByte("+0X" + digits) == ParseHexByte(digits)
  {
    HexDigitsBody(digits);
    PrefixedHexBody("+", digits);
    SameBodySameByte("+" + digits, digits);
    PrefixedHexBody("0x", digits);
    SameBodySameByte("0x" + digits, digits);
    PrefixedHexBody("0X", digits);
    SameBodySameByte("0X" + digits, digits);
    PrefixedHexBody("+0X", digits);
    SameBodySameByte("+0X" + digits, digits);
  }

  /** Bare hexadecimal digits are read whole. */
  lemma HexDigitsBody(digits: string)
    requires |digits| > 0 && AllHexDigits(digits)
    ensures digits[0] != '-' && HexBody(digits) == digits
  {
    assert HexValue(digits[0]).Some?;
    if |digits| > 1 {
      assert HexValue(digits[1]).Some?;
    }
  }

  /** Two texts that have the same digits and neither of which starts with `-` read alike. */
  lemma SameBodySameByte(s: string, t: string)
    requires |s| > 0 && |t| > 0 && s[0] != '-' && t[0] != '-'
    requires HexBody(s) == HexBody(t)
    ensures ParseHexByte(s) == ParseHexByte(t)
  {
  }

  lemma PrefixedHexBody(prefix: string, digits: string)
    requires prefix == "+" || prefix == "0x" || prefix == "0X" || prefix == "+0X"
    requires |digits| > 0 && AllHexDigits(digits)
    ensures (prefix + digits)[0] != '-' && HexBody(prefix + digits) == digits
  {
    var s := prefix + digits;
    assert s[|prefix|..] == digits;
    assert s[|prefix|] == digits[0] && HexValue(digits[0]).Some?;
    if |digits| > 1 {
      assert s[|prefix| + 1] == digits[1] && HexValue(digits[1]).Some?;
    }
  }

  /** Reading back the two-digit rendering of a byte gives the byte. */
  lemma ParseHexPair(b: byte)
    ensures ParseHexByte(HexPair(b)) == Success(b)
  {
    HexPairBody(b);
    HexPairValue(b);
  }

  /** A two-digit rendering carries neither sign nor prefix: all of it is read as digits. */
  lemma HexPairBody(b: byte)
    ensures HexPair(b)[0] != '-' && HexBody(HexPair(b)) == HexPair(b)
  {
    var s := HexPair(b);
    assert s[0] == HexDigit(b / 16) && s[1] == HexDigit(b % 16);
    assert s[0] != '+' && s[0] != '-' && s[1] != 'x' && s[1] != 'X';
    assert PlusLength(s) == 0;
  }

  lemma HexPairValue(b: byte)
    ensures HexDigitsValue(HexPair(b)) == Some(b as nat)
  {
    var s := HexPair(b);
    HexValueOfDigit(b / 16);
    HexValueOfDigit(b % 16);
    assert s[..1][..0] == [];
    assert s[..1] == [HexDigit(b / 16)];
    assert HexDigitsValue(s[..1]) == Some(b / 16);
  }

  // ---------------------------------------------------------------------------
  // Split and Join

  /** `string.Join(sep, parts)`. */
  function Join(parts: seq<string>, sep: char): string {
    if |parts| == 0 then ""
    else if |parts| == 1 then parts[0]
    else parts[0] + [sep] + Join(parts[1..], sep)
  }

  /** `s.Split(sep)`: every separator ends a part; empty parts are kept. */
  function Split(s: string, sep: char): (r: seq<string>)
    ensures |r| > 0
    decreases |s|
  {
    if |s| == 0 then [""]
    else
      var rest := Split(s[1..], sep);
      if s[0] == sep then [""] + rest else [[s[0]] + rest[0]] + rest[1..]
  }

  lemma {:induction false} SplitWithoutSeparator(t: string, sep: char)
    requires sep !in t
    ensures Split(t, sep) == [t]
    decreases |t|
  {
    if |t| > 0 {
      SplitWithoutSeparator(t[1..], sep);
      assert [t[0]] + t[1..] == t;
    }
  }

  lemma {:induction false} SplitAtSeparator(t: string, sep: char, rest: string)
    requires sep !in t
    ensures Split(t + [sep] + rest, sep) == [t] + Split(rest, sep)
    decreases |t|
  {
    var s := t + [sep] + rest;
    if |t| == 0 {
      assert s[1..] == rest;
    } else {
      assert s[1..] == t[1..] + [sep] + rest;
      SplitAtSeparator(t[1..], sep, rest);
      assert [t[0]] + t[1..] == t;
    }
  }

  /** Splitting a join on its separator gives the parts back, provided no part holds the separator. */
  lemma {:induction false} SplitJoin(parts: seq<string>, sep: char)
    requires |parts| > 0
    requires forall i :: 0 <= i < |parts| ==> sep !in parts[i]
    ensures Split(Join(parts, sep), sep) == parts
    decreases |parts|
  {
    if |parts| == 1 {
      SplitWithoutSeparator(parts[0], sep);
    } else {
      SplitAtSeparator(parts[0], sep, Join(parts[1..], sep));
      SplitJoin(parts[1..], sep);
      assert [parts[0]] + parts[1..] == parts;
    }
  }

  /** Joining the parts of a split with the same separator gives the text back, and no part holds the separator. */
  lemma {:induction false} JoinSplit(s: string, sep: char)
    ensures Join(Split(s, sep), sep) == s
    ensures forall i :: 0 <= i < |Split(s, sep)| ==> sep !in Split(s, sep)[i]
    decreases |s|
  {
    if |s| > 0 {
      var rest := Split(s[1..], sep);
      JoinSplit(s[1..], sep);
      assert [s[0]] + s[1..] == s;
      if s[0] == sep {
        var r := [""] + rest;
        assert r[1..] == rest;
        assert forall i :: 1 <= i < |r| ==> r[i] == rest[i - 1];
      } else {
        var r := [[s[0]] + rest[0]] + rest[1..];
        assert r[1..] == rest[1..];
        if |rest| > 1 {
          assert Join(r, sep) == [s[0]] + rest[0] + [sep] + Join(rest[1..], sep);
        }
        assert forall i :: 1 <= i < |r| ==> r[i] == rest[i];
      }
    }
  }

  /** The first part of a split is everything before the first separator. */
  lemma SplitHead(t: string, sep: char, rest: string)
    requires sep !in t
    ensures Split(t + [sep] + rest, sep)[0] == t
  {
    SplitAtSeparator(t, sep, rest);
  }

  /** A join of parts that all have length `k` has length `(k + 1) * n - 1`. */
  lemma {:induction false} JoinLength(parts: seq<string>, sep: char, k: nat)
    requires |parts| > 0
    requires forall i :: 0 <= i < |parts| ==> |parts[i]| == k
    ensures |Join(parts, sep)| == (k + 1) * |parts| - 1
    decreases |parts|
  {
    if |parts| > 1 {
      JoinLength(parts[1..], sep, k);
    }
  }

  lemma JoinHead(parts: seq<string>, sep: char)
    requires |parts| > 0 && |parts[0]| > 0
    ensures |Join(parts, sep)| > 0 && Join(parts, sep)[0] == parts[0][0]
  {
  }

  // ---------------------------------------------------------------------------
  // Ordinal substring search, replacement and casing

  predicate StartsWith(s: string, prefix: string) {
    |prefix| <= |s| && s[..|prefix|] == prefix
  }

  /** Ordinal `s.Contains(pattern)`. */
  predicate Contains(s: string, pattern: string)
    decreases |s|
  {
    StartsWith(s, pattern) || (|s| > 0 && Contains(s[1..], pattern))
  }

  /** `s.Replace(pattern, "")`: every non-overlapping occurrence, scanned left to right, is removed. */
  function RemoveAll(s: string, pattern: string): (r: string)
    requires |pattern| > 0
    ensures |r| <= |s|
    ensures !Contains(s, pattern) ==> r == s
    ensures StartsWith(s, pattern) ==> r == RemoveAll(s[|pattern|..], pattern)
    decreases |s|
  {
    if |s| == 0 then s
    else if StartsWith(s, pattern) then RemoveAll(s[|pattern|..], pattern)
    else
      assert [s[0]] + s[1..] == s;
      [s[0]] + RemoveAll(s[1..], pattern)
  }

  /** Removing a pattern whose last character never occurs leaves the string unchanged. */
  lemma {:induction false} RemoveAllAbsent(s: string, pattern: string)
    requires |pattern| > 0 && pattern[|pattern| - 1] !in s
    ensures RemoveAll(s, pattern) == s
    decreases |s|
  {
    if |s| > 0 {
      if |pattern| <= |s| {
        assert s[..|pattern|][|pattern| - 1] == s[|pattern| - 1];
      }
      assert !StartsWith(s, pattern);
      RemoveAllAbsent(s[1..], pattern);
      assert [s[0]] + s[1..] == s;
    }
  }

  function UpperChar(c: char): char {
    if 'a' <= c <= 'z' then (c as int - 32) as char else c
  }

  /** `s.ToUpper()` restricted to ASCII letters. */
  function ToUpperAscii(s: string): (r: string)
    ensures |r| == |s|
  {
    seq(|s|, i requires 0 <= i < |s| => UpperChar(s[i]))
  }

  // ---------------------------------------------------------------------------
  // First match of \d+

  /** The longest prefix of `s` made of digits. */
  function LeadingDigits(s: string): (r: string)
    ensures AllDigits(r) && |r| <= |s| && r == s[..|r|]
    ensures |r| < |s| ==> !IsDigit(s[|r|])
  {
    if |s| > 0 && IsDigit(s[0]) then [s[0]] + LeadingDigits(s[1..]) else ""
  }

  /** No digit appears in `s` before index `i`. */
  predicate NoDigitBefore(s: string, i: nat)
    requires i <= |s|
  {
    forall j :: 0 <= j < i ==> !IsDigit(s[j])
  }

  /**
   `Regex.Match(s, "\\d+").Value`: the first run of digits, or "" when there
   is none. The run starts at some index with no digit before it and extends
   as far as the digits go.
   */
  function FirstDigitRun(s: string): (r: string)
    ensures AllDigits(r)
    ensures (exists i :: 0 <= i < |s| && IsDigit(s[i])) <==> |r| > 0
    ensures exists i :: 0 <= i <= |s| && NoDigitBefore(s, i) && r == LeadingDigits(s[i..])
  {
    if |s| == 0 then
      assert NoDigitBefore(s, 0) && "" == LeadingDigits(s[0..]);
      ""
    else if IsDigit(s[0]) then
      assert NoDigitBefore(s, 0) && s[0..] == s;
      LeadingDigits(s)
    else
      var r := FirstDigitRun(s[1..]);
      assert forall i :: 0 < i < |s| ==> s[i] == s[1..][i - 1];
      FirstDigitRunShifts(s, r);
      r
  }

  /** The first run is taken, not a later one: `"ab12cd7"` matches `"12"`. */
  lemma FirstRunNotLater()
    ensures FirstDigitRun("ab12cd7") == "12"
  {
    var s := "ab12cd7";
    assert s[1..] == "b12cd7" && s[1..][1..] == "12cd7";
    FirstDigitRunOfPrefix("12", "cd7");
    assert "12" + "cd7" == "12cd7";
  }

  /** A run found after a leading non-digit is found at the next index of the whole text. */
  lemma FirstDigitRunShifts(s: string, r: string)
    requires |s| > 0 && !IsDigit(s[0])
    requires exists i :: 0 <= i <= |s[1..]| && NoDigitBefore(s[1..], i) && r == LeadingDigits(s[1..][i..])
    ensures exists i :: 0 <= i <= |s| && NoDigitBefore(s, i) && r == LeadingDigits(s[i..])
  {
    var k :| 0 <= k <= |s[1..]| && NoDigitBefore(s[1..], k) && r == LeadingDigits(s[1..][k..]);
    assert s[1..][k..] == s[k + 1..];
    assert forall j :: 0 < j < k + 1 ==> s[j] == s[1..][j - 1];
    assert NoDigitBefore(s, k + 1);
  }

  /** A digit run followed by a non-digit is the first digit run. */
  lemma {:induction false} FirstDigitRunOfPrefix(d: string, tail: string)
    requires |d| > 0 && AllDigits(d)
    requires |tail| > 0 && !IsDigit(tail[0])
    ensures FirstDigitRun(d + tail) == d
    decreases |d|
  {
    LeadingDigitsOfPrefix(d, tail);
  }

  lemma {:induction false} LeadingDigitsOfPrefix(d: string, tail: string)
    requires AllDigits(d)
    requires |tail| > 0 && !IsDigit(tail[0])
    ensures LeadingDigits(d + tail) == d
    decreases |d|
  {
    if |d| > 0 {
      assert (d + tail)[1..] == d[1..] + tail;
      LeadingDigitsOfPrefix(d[1..], tail);
      assert [d[0]] + d[1..] == d;
    }
  }

  // ---------------------------------------------------------------------------
  // First occurrence

  /** The index of the first occurrence of `pattern` in `s`. */
  function IndexOf(s: string, pattern: string): (r: Option<nat>)
    ensures r.Some? ==> r.value + |pattern| <= |s| && s[r.value..r.value + |pattern|] == pattern
    ensures r.Some? ==> forall j :: 0 <= j < r.value ==> !StartsWith(s[j..], pattern)
    ensures r.None? ==> forall j :: 0 <= j <= |s| ==> !StartsWith(s[j..], pattern)
    decreases |s|
  {
    if StartsWith(s, pattern) then Some(0)
    else if |s| == 0 then None
    else
      var rest := IndexOf(s[1..], pattern);
      DropFirstSuffixes(s);
      match rest
      case None => None
      case Some(i) =>
        TailSlice(s, i, |pattern|);
        Some(i + 1)
  }

  /** A slice of `s[1..]` is the slice of `s` one position further on. */
  lemma TailSlice(s: string, i: nat, n: nat)
    requires |s| > 0 && i + n <= |s| - 1
    ensures s[i + 1..i + 1 + n] == s[1..][i..i + n]
  {
    var a := s[i + 1..i + 1 + n];
    var b := s[1..][i..i + n];
    assert |a| == |b|;
    forall k | 0 <= k < n
      ensures a[k] == b[k]
    {
    }
  }

  /** Every non-empty suffix of `s` past the first element is a suffix of `s[1..]`. */
  lemma DropFirstSuffixes(s: string)
    requires |s| > 0
    ensures forall j :: 1 <= j <= |s| ==> s[j..] == s[1..][j - 1..]
  {
  }
}
