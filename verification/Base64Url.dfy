/**
 * The launch description in a window's address: base64 with the URL alphabet and no padding
 * (sections 3.2, 4 and 5 of RFC 4648), on top of the platform's `btoa` and `atob`.
 */
module Base64Url {

  import opened JsText
  import opened Optional

  type Byte = b: int | 0 <= b < 256

  type Sextet = n: int | 0 <= n < 64

  // ---- Three bytes and four sextets ----------------------------------------------------------------

  function Power(base: nat, k: nat): nat
  {
    if k == 0 then 1 else Power(base, k - 1) * base
  }

  /** The last `k` digits of a number, most significant first. */
  function Digits(base: nat, k: nat, n: nat): (d: seq<nat>)
    requires base > 1
    ensures |d| == k
  {
    if k == 0 then [] else Digits(base, k - 1, n / base) + [n % base]
  }

  function Number(base: nat, d: seq<nat>): nat
  {
    if d == [] then 0 else Number(base, d[..|d| - 1]) * base + d[|d| - 1]
  }

  predicate Below(d: seq<nat>, base: nat)
  {
    forall i | 0 <= i < |d| :: d[i] < base
  }

  predicate IsBase(base: nat)
  {
    base == 64 || base == 256
  }

  lemma DivMod(base: nat, q: nat, r: nat)
    requires IsBase(base) && r < base
    ensures (q * base + r) / base == q && (q * base + r) % base == r
  {
  }

  lemma QuotientBelow(base: nat, n: nat, p: nat)
    requires IsBase(base) && n < p * base
    ensures n / base < p && n == (n / base) * base + n % base && n % base < base
  {
  }

  lemma {:induction false} NumberDigits(base: nat, k: nat, n: nat)
    requires IsBase(base) && n < Power(base, k)
    ensures Number(base, Digits(base, k, n)) == n && Below(Digits(base, k, n), base)
  {
    if k > 0 {
      QuotientBelow(base, n, Power(base, k - 1));
      NumberDigits(base, k - 1, n / base);
      AddDigit(base, Digits(base, k - 1, n / base), n % base);
    }
  }

  lemma AddDigit(base: nat, front: seq<nat>, last: nat)
    requires Below(front, base) && last < base
    ensures Number(base, front + [last]) == Number(base, front) * base + last && Below(front + [last], base)
  {
    assert (front + [last])[..|front|] == front;
  }

  lemma {:induction false} DigitsNumber(base: nat, d: seq<nat>)
    requires IsBase(base) && Below(d, base)
    ensures Digits(base, |d|, Number(base, d)) == d && Number(base, d) < Power(base, |d|)
  {
    if d != [] {
      var front, last := d[..|d| - 1], d[|d| - 1];
      DigitsNumber(base, front);
      DivMod(base, Number(base, front), last);
      RoomBelow(base, Number(base, front), Power(base, |front|), last);
    }
  }

  lemma RoomBelow(base: nat, q: nat, p: nat, r: nat)
    requires IsBase(base) && q < p && r < base
    ensures q * base + r < p * base
  {
  }

  lemma SamePower()
    ensures Power(256, 3) == Power(64, 4)
  {
    assert Power(256, 1) == 256 && Power(256, 2) == 65536;
    assert Power(64, 1) == 64 && Power(64, 2) == 4096 && Power(64, 3) == 262144;
  }

  function AsSextets(d: seq<nat>): (n: seq<Sextet>)
    requires Below(d, 64)
    ensures n == d
  {
    if d == [] then [] else assert d == [d[0]] + d[1..]; [d[0]] + AsSextets(d[1..])
  }

  function AsBytes(d: seq<nat>): (b: seq<Byte>)
    requires Below(d, 256)
    ensures b == d
  {
    if d == [] then [] else assert d == [d[0]] + d[1..]; [d[0]] + AsBytes(d[1..])
  }

  lemma Group24(d: seq<nat>)
    ensures |d| == 3 && Below(d, 256) ==> Number(256, d) < Power(64, 4) && Below(Digits(64, 4, Number(256, d)), 64)
    ensures |d| == 4 && Below(d, 64) ==> Number(64, d) < Power(256, 3) && Below(Digits(256, 3, Number(64, d)), 256)
  {
    SamePower();
    if |d| == 3 && Below(d, 256) {
      DigitsNumber(256, d);
      NumberDigits(64, 4, Number(256, d));
    }
    if |d| == 4 && Below(d, 64) {
      DigitsNumber(64, d);
      NumberDigits(256, 3, Number(64, d));
    }
  }

  /** Three bytes, read as one number of 24 bits, are cut into four sextets. */
  function Cut(b: seq<Byte>): (n: seq<Sextet>)
    requires |b| == 3
    ensures |n| == 4
  {
    Group24(b);
    AsSextets(Digits(64, 4, Number(256, b)))
  }

  function Paste(n: seq<Sextet>): (b: seq<Byte>)
    requires |n| == 4
    ensures |b| == 3
  {
    Group24(n);
    AsBytes(Digits(256, 3, Number(64, n)))
  }

  lemma CutPaste(b: seq<Byte>)
    requires |b| == 3
    ensures Paste(Cut(b)) == b && Number(64, Cut(b)) == Number(256, b)
  {
    Group24(b);
    DigitsNumber(256, b);
    NumberDigits(64, 4, Number(256, b));
  }

  lemma PasteCut(n: seq<Sextet>)
    requires |n| == 4
    ensures Cut(Paste(n)) == n && Number(256, Paste(n)) == Number(64, n)
  {
    Group24(n);
    DigitsNumber(64, n);
    NumberDigits(256, 3, Number(64, n));
  }

  lemma FourDigits(base: nat, d: seq<nat>)
    requires 3 <= |d| <= 4
    ensures |d| == 3 ==> Number(base, d) == (d[0] * base + d[1]) * base + d[2]
    ensures |d| == 4 ==> Number(base, d) == ((d[0] * base + d[1]) * base + d[2]) * base + d[3]
  {
    assert d[..1][..0] == [] && d[..2][..1] == d[..1] && d[..3][..2] == d[..2];
    assert |d| == 3 ==> d[..3] == d;
    assert Number(base, d[..1]) == d[0] && Number(base, d[..2]) == d[0] * base + d[1];
    assert Number(base, d[..3]) == (d[0] * base + d[1]) * base + d[2];
    assert |d| == 4 ==> d[..|d| - 1] == d[..3];
  }

  /** One byte needs two sextets, of which the second has four spare bits. */
  lemma OneByte(b: seq<Byte>)
    requires |b| == 3 && b[1] == 0 && b[2] == 0
    ensures Cut(b)[2] == 0 && Cut(b)[3] == 0 && Cut(b)[1] % 16 == 0
  {
    CutPaste(b);
    FourDigits(256, b);
    FourDigits(64, Cut(b));
    SpareBits(b[0], Cut(b)[0], Cut(b)[1], Cut(b)[2], Cut(b)[3]);
  }

  lemma SpareBits(b0: Byte, n0: Sextet, n1: Sextet, n2: Sextet, n3: Sextet)
    requires (b0 * 256 + 0) * 256 + 0 == ((n0 * 64 + n1) * 64 + n2) * 64 + n3
    ensures n2 == 0 && n3 == 0 && n1 % 16 == 0
  {
  }

  /** Two bytes need three sextets, of which the third has two spare bits. */
  lemma TwoBytes(b: seq<Byte>)
    requires |b| == 3 && b[2] == 0
    ensures Cut(b)[3] == 0 && Cut(b)[2] % 4 == 0
  {
    CutPaste(b);
    FourDigits(256, b);
    FourDigits(64, Cut(b));
    SpareBitsTwo(b[0], b[1], Cut(b)[0], Cut(b)[1], Cut(b)[2], Cut(b)[3]);
  }

  lemma SpareBitsTwo(b0: Byte, b1: Byte, n0: Sextet, n1: Sextet, n2: Sextet, n3: Sextet)
    requires (b0 * 256 + b1) * 256 + 0 == ((n0 * 64 + n1) * 64 + n2) * 64 + n3
    ensures n3 == 0 && n2 % 4 == 0
  {
  }

  lemma SpareOne(n: seq<Sextet>)
    requires |n| == 4 && n[2] == 0 && n[3] == 0 && n[1] % 16 == 0
    ensures Paste(n)[1] == 0 && Paste(n)[2] == 0
  {
    PasteCut(n);
    FourDigits(64, n);
    FourDigits(256, Paste(n));
    LowBytesZero(n[0], n[1], Paste(n)[0], Paste(n)[1], Paste(n)[2]);
  }

  lemma LowBytesZero(n0: Sextet, n1: Sextet, b0: Byte, b1: Byte, b2: Byte)
    requires ((n0 * 64 + n1) * 64 + 0) * 64 + 0 == (b0 * 256 + b1) * 256 + b2 && n1 % 16 == 0
    ensures b1 == 0 && b2 == 0
  {
    var k := n1 / 16;
    assert n1 == 16 * k;
  }

  lemma SpareTwo(n: seq<Sextet>)
    requires |n| == 4 && n[3] == 0 && n[2] % 4 == 0
    ensures Paste(n)[2] == 0
  {
    PasteCut(n);
    FourDigits(64, n);
    FourDigits(256, Paste(n));
    LowByteZero(n[0], n[1], n[2], Paste(n)[0], Paste(n)[1], Paste(n)[2]);
  }

  lemma LowByteZero(n0: Sextet, n1: Sextet, n2: Sextet, b0: Byte, b1: Byte, b2: Byte)
    requires ((n0 * 64 + n1) * 64 + n2) * 64 + 0 == (b0 * 256 + b1) * 256 + b2 && n2 % 4 == 0
    ensures b2 == 0
  {
    var k := n2 / 4;
    assert n2 == 4 * k;
  }

  /** The sextets of a byte sequence; an incomplete group at the end is filled up with zero bits. */
  function Sextets(bytes: seq<Byte>): seq<Sextet>
  {
    if bytes == [] then []
    else if |bytes| == 1 then Cut(bytes + [0, 0])[..2]
    else if |bytes| == 2 then Cut(bytes + [0])[..3]
    else Cut(bytes[..3]) + Sextets(bytes[3..])
  }

  /** The bytes of a sextet sequence; bits that do not fill a byte are dropped. */
  function Bytes(n: seq<Sextet>): seq<Byte>
  {
    if |n| <= 1 then []
    else if |n| == 2 then Paste(n + [0, 0])[..1]
    else if |n| == 3 then Paste(n + [0])[..2]
    else Paste(n[..4]) + Bytes(n[4..])
  }

  lemma {:induction false} SextetLength(bytes: seq<Byte>)
    ensures |Sextets(bytes)| == |bytes| + (|bytes| + 2) / 3
  {
    if |bytes| >= 3 {
      SextetLength(bytes[3..]);
    }
  }

  lemma Lengths(n: nat)
    ensures (n + (n + 2) / 3) % 4 == if n % 3 == 0 then 0 else n % 3 + 1
  {
    var k := n / 3;
    assert n == 3 * k + n % 3;
    assert (n + 2) / 3 == if n % 3 == 0 then k else k + 1;
    assert n + (n + 2) / 3 == if n % 3 == 0 then 4 * k else 4 * k + n % 3 + 1;
  }

  lemma LengthsOf(n: nat, count: nat)
    requires count == n + (n + 2) / 3
    ensures count % 4 == if n % 3 == 0 then 0 else n % 3 + 1
  {
    Lengths(n);
  }

  lemma SextetCount(bytes: seq<Byte>)
    ensures |Sextets(bytes)| % 4 == if |bytes| % 3 == 0 then 0 else |bytes| % 3 + 1
  {
    SextetLength(bytes);
    LengthsOf(|bytes|, |Sextets(bytes)|);
  }

  lemma OneBack(bytes: seq<Byte>)
    requires |bytes| == 1
    ensures Bytes(Sextets(bytes)) == bytes
  {
    var filled := bytes + [0, 0];
    CutPaste(filled);
    OneByte(filled);
    assert Cut(filled)[..2] + [0, 0] == Cut(filled) && filled[..1] == bytes;
  }

  lemma TwoBack(bytes: seq<Byte>)
    requires |bytes| == 2
    ensures Bytes(Sextets(bytes)) == bytes
  {
    var filled := bytes + [0];
    CutPaste(filled);
    TwoBytes(filled);
    assert Cut(filled)[..3] + [0] == Cut(filled) && filled[..2] == bytes;
  }

  lemma {:induction false} BytesBack(bytes: seq<Byte>)
    ensures |Sextets(bytes)| % 4 != 1 && Bytes(Sextets(bytes)) == bytes
  {
    SextetCount(bytes);
    if |bytes| == 1 {
      OneBack(bytes);
    } else if |bytes| == 2 {
      TwoBack(bytes);
    } else if |bytes| >= 3 {
      BytesBack(bytes[3..]);
      CutPaste(bytes[..3]);
      var n := Sextets(bytes);
      assert n[..4] == Cut(bytes[..3]) && n[4..] == Sextets(bytes[3..]);
      assert bytes == bytes[..3] + bytes[3..];
    }
  }

  predicate NoSpareBits(n: seq<Sextet>)
  {
    && (|n| % 4 == 2 ==> n[|n| - 1] % 16 == 0)
    && (|n| % 4 == 3 ==> n[|n| - 1] % 4 == 0)
  }

  lemma TwoForth(n: seq<Sextet>)
    requires |n| == 2
    ensures Sextets(Bytes(n)) == n <==> n[1] % 16 == 0
  {
    var filled := n + [0, 0];
    var b := Paste(filled)[..1];
    OneByte(b + [0, 0]);
    if n[1] % 16 == 0 {
      SpareOne(filled);
      PasteCut(filled);
      assert b + [0, 0] == Paste(filled) && filled[..2] == n;
    } else {
      assert Sextets(b)[1] == Cut(b + [0, 0])[1];
    }
  }

  lemma ThreeForth(n: seq<Sextet>)
    requires |n| == 3
    ensures Sextets(Bytes(n)) == n <==> n[2] % 4 == 0
  {
    var filled := n + [0];
    var b := Paste(filled)[..2];
    TwoBytes(b + [0]);
    if n[2] % 4 == 0 {
      SpareTwo(filled);
      PasteCut(filled);
      assert b + [0] == Paste(filled) && filled[..3] == n;
    } else {
      assert Sextets(b)[2] == Cut(b + [0])[2];
    }
  }

  lemma SextetsStep(group: seq<Byte>, rest: seq<Byte>)
    requires |group| == 3
    ensures Sextets(group + rest) == Cut(group) + Sextets(rest)
  {
    assert (group + rest)[..3] == group && (group + rest)[3..] == rest;
  }

  lemma GroupForth(n: seq<Sextet>)
    requires |n| >= 4
    ensures Sextets(Bytes(n)) == n[..4] + Sextets(Bytes(n[4..]))
  {
    PasteCut(n[..4]);
    BytesStep(n);
    SextetsStep(Paste(n[..4]), Bytes(n[4..]));
  }

  lemma BytesStep(n: seq<Sextet>)
    requires |n| >= 4
    ensures Bytes(n) == Paste(n[..4]) + Bytes(n[4..])
  {
  }

  lemma SameTails(group: seq<Sextet>, back: seq<Sextet>, n: seq<Sextet>)
    requires |n| >= 4 && group == n[..4]
    ensures group + back == n <==> back == n[4..]
    ensures NoSpareBits(n) <==> NoSpareBits(n[4..])
  {
    assert n == n[..4] + n[4..];
    assert (group + back)[4..] == back;
  }

  lemma {:induction false} SextetsBack(n: seq<Sextet>)
    requires |n| % 4 != 1
    ensures Sextets(Bytes(n)) == n <==> NoSpareBits(n)
  {
    if |n| == 2 {
      TwoForth(n);
    } else if |n| == 3 {
      ThreeForth(n);
    } else if |n| >= 4 {
      SextetsBack(n[4..]);
      GroupForth(n);
      SameTails(n[..4], Sextets(Bytes(n[4..])), n);
    }
  }

  // ---- The alphabets -------------------------------------------------------------------------------

  function Letter(n: Sextet): char
  {
    if n < 26 then ('A' as int + n) as char
    else if n < 52 then ('a' as int + n - 26) as char
    else if n < 62 then ('0' as int + n - 52) as char
    else if n == 62 then '+' else '/'
  }

  function Value(c: char): Option<Sextet>
  {
    if 'A' <= c <= 'Z' then Some(c as int - 'A' as int)
    else if 'a' <= c <= 'z' then Some(c as int - 'a' as int + 26)
    else if '0' <= c <= '9' then Some(c as int - '0' as int + 52)
    else if c == '+' then Some(62) else if c == '/' then Some(63) else None
  }

  predicate IsAsciiSpace(c: char)
  {
    c == ' ' || c == '\t' || c == '\n' || c == '\r' || c == '\U{000c}'
  }

  lemma LetterValue(n: Sextet)
    ensures Value(Letter(n)) == Some(n)
  {
  }

  lemma ValueLetter(c: char)
    requires Value(c).Some?
    ensures Letter(Value(c).value) == c && c != '=' && !IsAsciiSpace(c) && FromUrl(ToUrl(c)) == c && ToUrl(c) != '='
  {
  }

  function ToUrl(c: char): char
  {
    if c == '+' then '-' else if c == '/' then '_' else c
  }

  function FromUrl(c: char): char
  {
    if c == '-' then '+' else if c == '_' then '/' else c
  }

  function Write(n: seq<Sextet>): (s: string)
    ensures |s| == |n|
  {
    if n == [] then "" else [Letter(n[0])] + Write(n[1..])
  }

  function Read(s: string): Option<seq<Sextet>>
  {
    if s == "" then Some([])
    else
      match Value(s[0])
      case None => None
      case Some(first) =>
        (match Read(s[1..])
         case None => None
         case Some(rest) => Some([first] + rest))
  }

  predicate AllLetters(s: string)
  {
    forall c | c in s :: Value(c).Some?
  }

  lemma {:induction false} WriteRead(n: seq<Sextet>)
    ensures Read(Write(n)) == Some(n) && AllLetters(Write(n))
  {
    if n != [] {
      WriteRead(n[1..]);
      LetterValue(n[0]);
      assert Write(n)[1..] == Write(n[1..]);
      assert n == [n[0]] + n[1..];
    }
  }

  lemma {:induction false} ReadWrite(s: string)
    requires AllLetters(s)
    ensures Read(s).Some? && Write(Read(s).value) == s && |Read(s).value| == |s|
  {
    if s != "" {
      assert s[0] in s;
      ReadWrite(s[1..]);
      ValueLetter(s[0]);
      assert Read(s).value[1..] == Read(s[1..]).value;
      assert s == [s[0]] + s[1..];
    }
  }

  function Map(f: char -> char, s: string): (r: string)
    ensures |r| == |s|
  {
    if s == "" then "" else [f(s[0])] + Map(f, s[1..])
  }

  lemma {:induction false} MapConcat(f: char -> char, s: string, t: string)
    ensures Map(f, s + t) == Map(f, s) + Map(f, t)
  {
    if s == "" {
      assert s + t == t;
    } else {
      MapConcat(f, s[1..], t);
      assert (s + t)[1..] == s[1..] + t;
    }
  }

  // ---- btoa and atob -------------------------------------------------------------------------------

  function Padding(n: nat): string
  {
    if n % 3 == 1 then "==" else if n % 3 == 2 then "=" else ""
  }

  function Btoa(bytes: seq<Byte>): string
  {
    Write(Sextets(bytes)) + Padding(|bytes|)
  }

  function WithoutSpaces(s: string): string
  {
    if s == "" then "" else (if IsAsciiSpace(s[0]) then "" else [s[0]]) + WithoutSpaces(s[1..])
  }

  /** Up to two padding characters are removed from a text of full groups. */
  function WithoutPadding(s: string): string
  {
    if |s| % 4 != 0 || s == "" || s[|s| - 1] != '=' then s
    else if s[|s| - 2] == '=' then s[..|s| - 2] else s[..|s| - 1]
  }

  function Decoded(n: Option<seq<Sextet>>): Option<seq<Byte>>
  {
    match n
    case None => None
    case Some(sextets) => if |sextets| % 4 == 1 then None else Some(Bytes(sextets))
  }

  function Atob(s: string): Option<seq<Byte>>
  {
    Decoded(Read(WithoutPadding(WithoutSpaces(s))))
  }

  // ---- Encoding and decoding -----------------------------------------------------------------------

  /** All `=` at the end are stripped. */
  function Stripped(s: string): string
  {
    if s != "" && s[|s| - 1] == '=' then Stripped(s[..|s| - 1]) else s
  }

  function Encode(bytes: seq<Byte>): string
  {
    Stripped(Map(ToUrl, Btoa(bytes)))
  }

  /** As many `=` as the next multiple of four asks for. */
  function Missing(n: nat): string
  {
    if n % 4 == 1 then "===" else if n % 4 == 2 then "==" else if n % 4 == 3 then "=" else ""
  }

  function Decode(s: string): Option<seq<Byte>>
  {
    Atob(Map(FromUrl, s) + Missing(|s|))
  }

  /** One character for each byte. */
  predicate IsBinary(s: string)
  {
    forall i | 0 <= i < |s| :: s[i] as int < 256
  }

  function CodesOf(binary: string): (bytes: seq<Byte>)
    requires IsBinary(binary)
    ensures |bytes| == |binary| && forall i | 0 <= i < |binary| :: bytes[i] == binary[i] as int
  {
    if binary == "" then [] else CodesOf(binary[..|binary| - 1]) + [binary[|binary| - 1] as int]
  }

  /** The platform's `btoa` takes a binary string and refuses all others. */
  function PlatformBtoa(s: string): Option<string>
  {
    if IsBinary(s) then Some(Btoa(CodesOf(s))) else None
  }

  /** Byte by byte into a binary string, as the platform's `btoa` wants it; it is read back to the same bytes. */
  method EncodeBase64Url(bytes: seq<Byte>) returns (s: string)
    ensures s == Encode(bytes) && Decode(s) == Some(bytes)
  {
    var binary: string := "";
    for i := 0 to |bytes|
      invariant IsBinary(binary) && CodesOf(binary) == bytes[..i]
    {
      binary := binary + [bytes[i] as char];
    }
    assert bytes[..|bytes|] == bytes;
    var encoded := PlatformBtoa(binary);
    s := Stripped(Map(ToUrl, encoded.value));
    RoundTrip(bytes);
  }

  // ---- Proofs ------------------------------------------------------------------------------------

  lemma {:induction false} MapBack(s: string)
    requires AllLetters(s)
    ensures Map(FromUrl, Map(ToUrl, s)) == s
  {
    if s != "" {
      assert s[0] in s;
      ValueLetter(s[0]);
      MapBack(s[1..]);
      assert Map(ToUrl, s)[1..] == Map(ToUrl, s[1..]) && s == [s[0]] + s[1..];
    }
  }

  lemma {:induction false} NoSpaces(s: string)
    requires forall c | c in s :: !IsAsciiSpace(c)
    ensures WithoutSpaces(s) == s
  {
    if s != "" {
      assert s[0] in s;
      NoSpaces(s[1..]);
    }
  }

  lemma {:induction false} LastMapped(f: char -> char, s: string)
    requires s != ""
    ensures Map(f, s)[|s| - 1] == f(s[|s| - 1])
  {
    if |s| > 1 {
      LastMapped(f, s[1..]);
    }
  }

  predicate IsPad(pad: string)
  {
    pad == "" || pad == "=" || pad == "=="
  }

  lemma StripPad(s: string, pad: string)
    requires IsPad(pad) && (s != "" ==> s[|s| - 1] != '=')
    ensures Stripped(s + pad) == s
  {
    StripOne(s);
    StripOne(s + "=");
    assert s + "" == s && s + "==" == (s + "=") + "=";
  }

  lemma StripOne(s: string)
    ensures Stripped(s + "=") == Stripped(s)
  {
    assert (s + "=")[..|s|] == s;
  }

  lemma MapPad(f: char -> char, pad: string)
    requires IsPad(pad) && f('=') == '='
    ensures Map(f, pad) == pad
  {
    assert "=="[1..] == "=" && "="[1..] == "";
  }

  lemma EncodeIsLetters(bytes: seq<Byte>)
    ensures Encode(bytes) == Map(ToUrl, Write(Sextets(bytes)))
  {
    var s, pad := Write(Sextets(bytes)), Padding(|bytes|);
    WriteRead(Sextets(bytes));
    MapConcat(ToUrl, s, pad);
    MapPad(ToUrl, pad);
    if s != "" {
      assert s[|s| - 1] in s;
      ValueLetter(s[|s| - 1]);
      LastMapped(ToUrl, s);
    }
    StripPad(Map(ToUrl, s), pad);
  }

  lemma MissingIsClean(s: string, pad: string)
    requires AllLetters(s) && IsPad(pad)
    ensures WithoutSpaces(s + pad) == s + pad
  {
    forall c | c in s + pad ensures !IsAsciiSpace(c) {
      if c in s { ValueLetter(c); }
    }
    NoSpaces(s + pad);
  }

  lemma PadComesOff(s: string)
    requires |s| % 4 != 1 && (s != "" ==> s[|s| - 1] != '=')
    ensures WithoutPadding(s + Missing(|s|)) == s
  {
    var pad := Missing(|s|);
    assert (s + pad)[..|s|] == s;
    if pad == "" {
      assert s + pad == s;
    }
  }

  lemma PaddedReads(s: string)
    requires AllLetters(s) && |s| % 4 != 1
    ensures Atob(s + Missing(|s|)) == Decoded(Read(s))
  {
    MissingIsClean(s, Missing(|s|));
    if s != "" {
      assert s[|s| - 1] in s;
      ValueLetter(s[|s| - 1]);
    }
    PadComesOff(s);
  }

  /** The padding that was stripped is put back exactly, whatever remainder the length leaves. */
  lemma PaddingComesBack(bytes: seq<Byte>)
    ensures Map(FromUrl, Encode(bytes)) + Missing(|Encode(bytes)|) == Btoa(bytes)
  {
    EncodeIsLetters(bytes);
    WriteRead(Sextets(bytes));
    MapBack(Write(Sextets(bytes)));
    SextetCount(bytes);
  }

  /** Every byte sequence survives encoding and decoding. */
  lemma RoundTrip(bytes: seq<Byte>)
    ensures Decode(Encode(bytes)) == Some(bytes)
  {
    EncodeIsLetters(bytes);
    WriteRead(Sextets(bytes));
    MapBack(Write(Sextets(bytes)));
    BytesBack(bytes);
    PaddedReads(Write(Sextets(bytes)));
  }

  // ---- The texts that are encodings ----------------------------------------------------------------

  predicate IsUrlLetter(c: char)
  {
    'A' <= c <= 'Z' || 'a' <= c <= 'z' || '0' <= c <= '9' || c == '-' || c == '_'
  }

  predicate AllUrlLetters(s: string)
  {
    forall c | c in s :: IsUrlLetter(c)
  }

  lemma LettersFirst(c: char, s: string)
    requires Value(c).Some? && AllLetters(s)
    ensures AllLetters([c] + s)
  {
  }

  lemma UrlLetterFromUrl(c: char)
    requires IsUrlLetter(c)
    ensures Value(FromUrl(c)).Some? && ToUrl(FromUrl(c)) == c
  {
  }

  lemma {:induction false} MapForth(s: string)
    requires AllUrlLetters(s)
    ensures Map(ToUrl, Map(FromUrl, s)) == s && AllLetters(Map(FromUrl, s))
  {
    if s != "" {
      assert s[0] in s && forall c | c in s[1..] :: c in s;
      UrlLetterFromUrl(s[0]);
      MapForth(s[1..]);
      LettersFirst(FromUrl(s[0]), Map(FromUrl, s[1..]));
      assert Map(FromUrl, s)[1..] == Map(FromUrl, s[1..]) && s == [s[0]] + s[1..];
    }
  }

  lemma {:induction false} UrlLetters(s: string)
    requires AllLetters(s)
    ensures AllUrlLetters(Map(ToUrl, s))
  {
    if s != "" {
      assert s[0] in s;
      UrlLetters(s[1..]);
    }
  }

  /** Encodings need no escaping in an address. */
  lemma EncodingIsUrlSafe(bytes: seq<Byte>)
    ensures AllUrlLetters(Encode(bytes)) && |Encode(bytes)| % 4 != 1
  {
    EncodeIsLetters(bytes);
    WriteRead(Sextets(bytes));
    UrlLetters(Write(Sextets(bytes)));
    SextetCount(bytes);
  }

  /** The sextets that a text of the URL alphabet stands for. */
  function SextetsOf(s: string): seq<Sextet>
  {
    match Read(Map(FromUrl, s))
    case None => []
    case Some(n) => n
  }

  /**
   * Of the texts of the URL alphabet, exactly those come back from decoding and encoding that have a
   * possible length and no bits set beyond the last byte.
   */
  lemma DecodeThenEncodeExactly(s: string)
    requires AllUrlLetters(s) && |s| % 4 != 1
    ensures Decode(s).Some? && (Encode(Decode(s).value) == s <==> NoSpareBits(SextetsOf(s)))
  {
    var plain := Map(FromUrl, s);
    MapForth(s);
    ReadWrite(plain);
    PaddedReads(plain);
    var n := Read(plain).value;
    SextetsBack(n);
    EncodeIsLetters(Bytes(n));
    var n' := Sextets(Bytes(n));
    if n' != n && Map(ToUrl, Write(n')) == s {
      WriteRead(n');
      MapBack(Write(n'));
    }
  }
}
