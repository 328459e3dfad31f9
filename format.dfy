/**
 * The pure text and buffer computations of Device: usb_version_str (libusbcc.cc:77-91),
 * release_version_str (libusbcc.cc:101-106), the C-string cut in get_usb_string
 * (libusbcc.cc:250-251) and the vector resize in receive (libusbcc.cc:201).
 */
module Format {
  import opened Wrappers
  import opened UsbTypes

  predicate IsDigit(c: char)
  {
    '0' <= c <= '9'
  }

  predicate AllDigits(s: string)
  {
    forall i :: 0 <= i < |s| ==> IsDigit(s[i])
  }

  function DigitChar(d: nat): (c: char)
    requires d < 10
    ensures IsDigit(c) && c as int - '0' as int == d
  {
    ('0' as int + d) as char
  }

  /** std::to_string of a non-negative number: its decimal digits, without leading zeros. */
  function Decimal(n: nat): (s: string)
    ensures 1 <= |s|
    ensures AllDigits(s)
    ensures s[0] == '0' ==> n == 0
    decreases n
  {
    if n < 10 then [DigitChar(n)] else Decimal(n / 10) + [DigitChar(n % 10)]
  }

  /** The number a string of decimal digits denotes. */
  function DecimalValue(s: string): nat
    requires AllDigits(s)
  {
    if s == [] then 0 else DecimalValue(s[..|s| - 1]) * 10 + (s[|s| - 1] as int - '0' as int)
  }

  /** Reading back what Decimal writes gives the number. */
  lemma {:induction false} DecimalRoundTrip(n: nat)
    ensures DecimalValue(Decimal(n)) == n
    decreases n
  {
    if n >= 10 {
      DecimalRoundTrip(n / 10);
      var s := Decimal(n);
      assert s[..|s| - 1] == Decimal(n / 10);
    }
  }

  function ParseDecimal(s: string): Option<nat>
  {
    if s != [] && AllDigits(s) then Some(DecimalValue(s)) else None
  }

  /** The index of the first c in s, or |s| when there is none. */
  function FirstIndex(s: string, c: char): (k: nat)
    ensures k <= |s|
    ensures k < |s| ==> s[k] == c
    ensures forall i :: 0 <= i < k ==> s[i] != c
  {
    if s == [] then 0 else if s[0] == c then 0 else 1 + FirstIndex(s[1..], c)
  }

  /**
   * Device::release_version_str: the high byte `(v >> 8) & 0xff` and the low byte
   * `v & 0xff` of bcdDevice, each in decimal, joined by a dot.
   */
  function ReleaseVersionStr(v: u16): string
  {
    Decimal((v as int / 0x100) % 0x100) + "." + Decimal(v as int % 0x100)
  }

  /** The reading of "major.minor" back into a release number: split at the first dot, two bytes. */
  function ParseReleaseVersion(s: string): Option<u16>
  {
    var k := FirstIndex(s, '.');
    if k == |s| then None
    else
      match (ParseDecimal(s[..k]), ParseDecimal(s[k + 1..]))
      case (Some(major), Some(minor)) =>
        if major < 0x100 && minor < 0x100 then Some((major * 0x100 + minor) as u16) else None
      case _ => None
  }

  /** A dot between two digit strings is the first dot, and splitting there gives the two back. */
  lemma SplitAtDot(a: string, b: string)
    requires AllDigits(a)
    ensures FirstIndex(a + "." + b, '.') == |a|
    ensures (a + "." + b)[..|a|] == a && (a + "." + b)[|a| + 1..] == b
  {
    var s := a + "." + b;
    assert s[|a|] == '.';
    assert forall i :: 0 <= i < |a| ==> s[i] == a[i];
  }

  /** Splitting release_version_str at its dot and parsing both parts gives back the release number. */
  lemma ReleaseVersionRoundTrip(v: u16)
    ensures ParseReleaseVersion(ReleaseVersionStr(v)) == Some(v)
  {
    var major, minor := (v as int / 0x100) % 0x100, v as int % 0x100;
    SplitAtDot(Decimal(major), Decimal(minor));
    DecimalRoundTrip(major);
    DecimalRoundTrip(minor);
    assert major * 0x100 + minor == v as int;
  }

  /** Two release numbers with the same text are equal. */
  lemma ReleaseVersionStrInjective(v: u16, w: u16)
    requires ReleaseVersionStr(v) == ReleaseVersionStr(w)
    ensures v == w
  {
    ReleaseVersionRoundTrip(v);
    ReleaseVersionRoundTrip(w);
  }

  /** bcdDevice 0x0102 reads "1.2". */
  lemma ReleaseVersionExample()
    ensures ReleaseVersionStr(0x0102) == "1.2"
  {
    assert Decimal(1) == "1" && Decimal(2) == "2";
  }

  /**
   * Device::usb_version_str: the text of the three USBVersion values, "unknown" for
   * any other bcdUSB.
   */
  function UsbVersionStr(bcd: u16): (s: string)
    ensures s == "unknown" <==> bcd !in KnownVersions
  {
    if bcd == V_1_1 then "1.1"
    else if bcd == V_2_0 then "2.0"
    else if bcd == V_3_0 then "3.0"
    else "unknown"
  }

  /**
   * The version bcdUSB encodes: 0xJJMN is release JJ.M.N, JJ in binary-coded decimal
   * (section 9.6.1 of the USB 2.0 specification).
   */
  function BcdMajor(bcd: u16): nat
  {
    (bcd as int / 0x1000) * 10 + (bcd as int / 0x100) % 0x10
  }

  function BcdMinor(bcd: u16): nat
  {
    (bcd as int / 0x10) % 0x10
  }

  /** For each value it names, usb_version_str agrees with the BCD reading of bcdUSB. */
  lemma UsbVersionStrMatchesBcd(bcd: u16)
    requires bcd in KnownVersions
    ensures UsbVersionStr(bcd) == Decimal(BcdMajor(bcd)) + "." + Decimal(BcdMinor(bcd))
    ensures bcd as int % 0x10 == 0
  {
    if bcd == V_1_1 {
      assert BcdMajor(bcd) == 1 && BcdMinor(bcd) == 1;
    } else if bcd == V_2_0 {
      assert BcdMajor(bcd) == 2 && BcdMinor(bcd) == 0;
    } else {
      assert BcdMajor(bcd) == 3 && BcdMinor(bcd) == 0;
    }
  }

  /**
   * std::string(const char*): the bytes before the first NUL. The result is a prefix
   * of the buffer without a NUL, and it stops at a NUL unless it takes the whole buffer.
   */
  function CString(buf: seq<u8>): (r: seq<u8>)
    ensures |r| <= |buf| && r == buf[..|r|]
    ensures forall i :: 0 <= i < |r| ==> r[i] != 0
    ensures |r| < |buf| ==> buf[|r|] == 0
  {
    if buf == [] || buf[0] == 0 then [] else [buf[0]] + CString(buf[1..])
  }

  /** A NUL written at index k cuts the C string at k or before, whatever the buffer holds after it. */
  lemma {:induction false} CStringStopsAtNul(buf: seq<u8>, k: nat)
    requires k < |buf| && buf[k] == 0
    ensures CString(buf) == CString(buf[..k])
    ensures |CString(buf)| <= k
  {
    if buf[0] != 0 {
      assert k > 0;
      CStringStopsAtNul(buf[1..], k - 1);
      assert buf[1..][..k - 1] == buf[..k][1..];
    }
  }

  /** std::vector<uint8_t>::resize(n): cut to the first n bytes, or extend with zero bytes. */
  function Resize(buf: seq<u8>, n: nat): (r: seq<u8>)
    ensures |r| == n
    ensures forall i :: 0 <= i < n && i < |buf| ==> r[i] == buf[i]
    ensures forall i :: |buf| <= i < n ==> r[i] == 0
  {
    if n <= |buf| then buf[..n] else buf + seq(n - |buf|, _ => 0)
  }
}
