/**
  The messages of the two transfer programs: text commands written with
  snprintf and read with sscanf, and data packets with an eight-byte header in
  the byte order of the machine (little endian).
 */
module Wire {
  import opened Octets
  import opened StopAndWait

  // ------------------------------------------------------------------
  // printf %zu and scanf %zu
  // ------------------------------------------------------------------

  predicate IsSpace(c: char) {
    c == ' ' || 9 <= c as int <= 13
  }

  predicate IsDigit(c: char) {
    '0' <= c <= '9'
  }

  function DigitChar(d: nat): (c: char)
    requires d < 10
    ensures IsDigit(c)
  {
    '0' + d as char
  }

  /** %zu. */
  function Decimal(n: nat): (s: string)
    ensures |s| >= 1 && forall i :: 0 <= i < |s| ==> IsDigit(s[i])
  {
    if n < 10 then [DigitChar(n)] else Decimal(n / 10) + [DigitChar(n % 10)]
  }

  /** The number that a string of digits stands for. */
  function Number(s: string): nat
    requires forall i :: 0 <= i < |s| ==> IsDigit(s[i])
  {
    if s == [] then 0
    else
      assert IsDigit(s[|s| - 1]);
      10 * Number(s[..|s| - 1]) + (s[|s| - 1] as int - '0' as int)
  }

  lemma {:induction false} NumberOfDecimal(n: nat)
    ensures Number(Decimal(n)) == n
  {
    var s := Decimal(n);
    if n >= 10 {
      NumberOfDecimal(n / 10);
      assert s[..|s| - 1] == Decimal(n / 10);
    }
  }

  /** Digits stand in their order, the highest first. */
  lemma DecimalDigits(n: nat, d: nat)
    requires d < 10
    ensures Decimal(d) == ["0123456789"[d]]
    ensures n >= 1 ==> Decimal(10 * n + d) == Decimal(n) + ["0123456789"[d]]
  {
    assert DigitChar(d) == "0123456789"[d];
  }

  function Pow10(k: nat): nat {
    if k == 0 then 1 else 10 * Pow10(k - 1)
  }

  lemma {:induction false} DecimalLength(n: nat, k: nat)
    requires k >= 1 && n < Pow10(k)
    ensures |Decimal(n)| <= k
  {
    if n >= 10 {
      if k > 1 {
        DecimalLength(n / 10, k - 1);
      }
    }
  }

  /** No size_t needs more than twenty digits. */
  lemma WordLength(n: nat)
    requires n < WORD
    ensures |Decimal(n)| <= 20
  {
    assert Pow10(10) == 10_000_000_000 by {
      assert Pow10(5) == 100_000;
    }
    assert Pow10(15) == 1_000_000_000_000_000;
    assert Pow10(20) == 100_000_000_000_000_000_000;
    DecimalLength(n, 20);
  }

  function Skip(s: string): string {
    if s != [] && IsSpace(s[0]) then Skip(s[1..]) else s
  }

  /** Length of the longest prefix of digits. */
  function DigitRun(s: string): (n: nat)
    ensures n <= |s| && forall i :: 0 <= i < n ==> IsDigit(s[i])
    ensures n < |s| ==> !IsDigit(s[n])
  {
    if s == [] || !IsDigit(s[0]) then 0 else 1 + DigitRun(s[1..])
  }

  /** %zu of scanf: leading space, an optional sign, digits; too large a number becomes the largest. */
  function ScanNumber(s: string): Option<(nat, string)> {
    var s1 := Skip(s);
    var signed := s1 != [] && (s1[0] == '-' || s1[0] == '+');
    var s2 := if signed then s1[1..] else s1;
    var n := DigitRun(s2);
    if n == 0 then None
    else
      var v := Number(s2[..n]);
      var r := if v >= WORD then WORD - 1 else if signed && s1[0] == '-' then (WORD - v) % WORD else v;
      Some((r, s2[n..]))
  }

  /** Length of the longest prefix, at most max, without space or NUL. */
  function TokenRun(s: string, max: nat): (n: nat)
    ensures n <= |s| && n <= max
    ensures forall i :: 0 <= i < n ==> !IsSpace(s[i]) && s[i] != '\0'
    ensures n < |s| && n < max ==> IsSpace(s[n]) || s[n] == '\0'
  {
    if s == [] || max == 0 || IsSpace(s[0]) || s[0] == '\0' then 0 else 1 + TokenRun(s[1..], max - 1)
  }

  /** %<max>s of scanf. */
  function ScanToken(s: string, max: nat): Option<(string, string)> {
    var s1 := Skip(s);
    var n := TokenRun(s1, max);
    if n == 0 then None else Some((s1[..n], s1[n..]))
  }

  /** sscanf(buffer, "%9s %255s %zu %zu", ...): the fields it fills, in order. */
  datatype Fields = Fields(command: Option<string>, filename: Option<string>,
                           offset: Option<nat>, size: Option<nat>)

  function ScanRequest(s: string): Fields {
    match ScanToken(s, 9)
    case None => Fields(None, None, None, None)
    case Some((command, s1)) =>
      match ScanToken(s1, 255)
      case None => Fields(Some(command), None, None, None)
      case Some((name, s2)) =>
        match ScanNumber(s2)
        case None => Fields(Some(command), Some(name), None, None)
        case Some((offset, s3)) =>
          match ScanNumber(s3)
          case None => Fields(Some(command), Some(name), Some(offset), None)
          case Some((size, _)) => Fields(Some(command), Some(name), Some(offset), Some(size))
  }

  // ------------------------------------------------------------------
  // The messages
  // ------------------------------------------------------------------

  /** snprintf into a buffer of BUFFER_SIZE octets. */
  function Clip(s: string): string {
    if |s| < BUFFER_SIZE then s else s[..BUFFER_SIZE - 1]
  }

  function GetText(name: string, offset: nat, size: nat): string {
    Clip("GET " + name + " " + Decimal(offset) + " " + Decimal(size))
  }

  function CheckText(name: string): string {
    Clip("CHECK " + name)
  }

  function AckText(q: nat): string {
    Clip("ACK " + Decimal(q))
  }

  function OkText(n: nat): string {
    Clip("OK " + Decimal(n))
  }

  /** The server's router: strncmp(buffer, "ACK", 3). */
  predicate RoutedAsAck(s: string) {
    "ACK" <= s
  }

  /** sscanf(buffer + 4, "%zu", &seq_num). */
  function ScanAck(s: string): Option<nat> {
    if |s| < 4 then None
    else match ScanNumber(s[4..]) case None => None case Some((q, _)) => Some(q)
  }

  /** sscanf(buffer, "OK %zu", &file_size). */
  function ScanOk(s: string): Option<nat> {
    if !("OK" <= s) then None
    else match ScanNumber(s[2..]) case None => None case Some((n, _)) => Some(n)
  }

  /** A name that %255s reads back whole. */
  predicate PlainName(name: string) {
    1 <= |name| <= 255 && forall i :: 0 <= i < |name| ==> !IsSpace(name[i]) && name[i] != '\0'
  }

  /** A token is read back whole when a space or the end follows it. */
  lemma {:induction false} TokenBack(a: string, rest: string, max: nat)
    requires forall i :: 0 <= i < |a| ==> !IsSpace(a[i]) && a[i] != '\0'
    requires |a| <= max && (rest == [] || IsSpace(rest[0]))
    ensures TokenRun(a + rest, max) == |a|
  {
    if a != [] {
      assert (a + rest)[1..] == a[1..] + rest;
      TokenBack(a[1..], rest, max - 1);
    } else {
      assert a + rest == rest;
    }
  }

  lemma ScanTokenBack(a: string, rest: string, max: nat)
    requires 1 <= |a| <= max && forall i :: 0 <= i < |a| ==> !IsSpace(a[i]) && a[i] != '\0'
    requires rest == [] || IsSpace(rest[0])
    ensures ScanToken(a + rest, max) == Some((a, rest))
    ensures ScanToken(" " + a + rest, max) == Some((a, rest))
  {
    TokenBack(a, rest, max);
    assert (" " + a + rest)[1..] == a + rest;
    assert Skip(" " + a + rest) == Skip(a + rest) == a + rest;
    assert (a + rest)[..|a|] == a && (a + rest)[|a|..] == rest;
  }

  lemma {:induction false} DigitsBack(a: string, rest: string)
    requires forall i :: 0 <= i < |a| ==> IsDigit(a[i])
    requires rest == [] || !IsDigit(rest[0])
    ensures DigitRun(a + rest) == |a|
  {
    if a != [] {
      assert (a + rest)[1..] == a[1..] + rest;
      DigitsBack(a[1..], rest);
    } else {
      assert a + rest == rest;
    }
  }

  lemma ScanNumberAt(s: string, n: nat, rest: string)
    requires n < WORD && (rest == [] || !IsDigit(rest[0]))
    requires Skip(s) == Decimal(n) + rest
    ensures ScanNumber(s) == Some((n, rest))
  {
    var a := Decimal(n);
    assert IsDigit(a[0]) && Skip(s)[0] == a[0];
    DigitsBack(a, rest);
    NumberOfDecimal(n);
    assert Skip(s)[..|a|] == a && Skip(s)[|a|..] == rest;
  }

  lemma SkipToNumber(n: nat, rest: string)
    ensures Skip(Decimal(n) + rest) == Decimal(n) + rest
    ensures Skip(" " + Decimal(n) + rest) == Decimal(n) + rest
  {
    var s := Decimal(n) + rest;
    assert s[0] == Decimal(n)[0] && IsDigit(s[0]);
    assert (" " + Decimal(n) + rest)[1..] == s;
  }

  lemma ScanNumberBack(n: nat, rest: string)
    requires n < WORD && (rest == [] || !IsDigit(rest[0]))
    ensures ScanNumber(" " + Decimal(n) + rest) == Some((n, rest))
  {
    SkipToNumber(n, rest);
    ScanNumberAt(" " + Decimal(n) + rest, n, rest);
  }

  lemma AllDigits(n: nat)
    ensures DigitRun(Decimal(n)) == |Decimal(n)| && Number(Decimal(n)[..|Decimal(n)|]) == n
    ensures Decimal(n)[|Decimal(n)|..] == "" && Skip(Decimal(n)) == Decimal(n)
  {
    var a := Decimal(n);
    DigitsBack(a, "");
    assert a + "" == a;
    NumberOfDecimal(n);
    assert a[..|a|] == a && IsDigit(a[0]);
  }

  /** %zu takes a number that is too large for the largest there is. */
  lemma ScanLargeNumber(n: nat)
    requires n >= 0x1_0000_0000_0000_0000
    ensures ScanNumber(Decimal(n)) == Some((0xffff_ffff_ffff_ffff, ""))
  {
    AllDigits(n);
    assert IsDigit(Decimal(n)[0]);
  }

  /** %zu takes a minus sign and wraps. */
  lemma ScanNegativeNumber(n: nat)
    requires n < 0x1_0000_0000_0000_0000
    ensures ScanNumber("-" + Decimal(n)) == Some((if n == 0 then 0 else 0x1_0000_0000_0000_0000 - n, ""))
  {
    var s := "-" + Decimal(n);
    assert s[0] == '-' && Skip(s) == s && s[1..] == Decimal(n);
    AllDigits(n);
  }

  /** What %<max>s delivers is always a plain token of at most max octets. */
  lemma TokensArePlain(s: string, max: nat)
    requires ScanToken(s, max).Some? && max <= 255
    ensures PlainName(ScanToken(s, max).value.0)
  {
  }

  /** A GET for a plain name and 64-bit numbers is read back as it was meant. */
  lemma GetReadBack(name: string, offset: nat, size: nat)
    requires PlainName(name) && offset < WORD && size < WORD
    ensures ScanRequest(GetText(name, offset, size)) == Fields(Some("GET"), Some(name), Some(offset), Some(size))
  {
    WordLength(offset);
    WordLength(size);
    var s3 := " " + Decimal(size);
    var s2 := " " + Decimal(offset) + s3;
    var s1 := " " + name + s2;
    assert GetText(name, offset, size) == "GET" + s1;
    ScanTokenBack("GET", s1, 9);
    ScanTokenBack(name, s2, 255);
    ScanNumberBack(offset, s3);
    assert s3 == " " + Decimal(size) + [];
    ScanNumberBack(size, []);
  }

  /** The text of a GET, cut to what the buffer of 1024 octets holds. */
  lemma GetIs(name: string, offset: nat, size: nat)
    ensures var text := "GET " + name + " " + Decimal(offset) + " " + Decimal(size);
            GetText(name, offset, size) == if |text| <= 1023 then text else text[..1023]
  {
  }

  /** The router takes for an ACK exactly what begins with these three letters. */
  lemma RouterReads(s: string)
    ensures RoutedAsAck(s) <==> |s| >= 3 && s[0] == 'A' && s[1] == 'C' && s[2] == 'K'
  {
    if |s| >= 3 {
      assert s[..3] == [s[0], s[1], s[2]];
    }
  }

  /** The request comes back whole exactly for names of 1 to 255 octets without white space and NUL. */
  lemma GetRoundTrip(name: string, offset: nat, size: nat)
    requires offset < WORD && size < WORD
    ensures (1 <= |name| <= 255
             && forall i :: 0 <= i < |name| ==> name[i] !in [' ', '\t', '\n', 11 as char, 12 as char, '\r', '\0'])
            <==> ScanRequest(GetText(name, offset, size)) == Fields(Some("GET"), Some(name), Some(offset), Some(size))
    ensures !RoutedAsAck(GetText(name, offset, size))
  {
    if PlainName(name) {
      GetReadBack(name, offset, size);
    } else if ScanRequest(GetText(name, offset, size)).filename == Some(name) {
      TokensArePlain(ScanToken(GetText(name, offset, size), 9).value.1, 255);
    }
    assert GetText(name, offset, size)[0] == 'G';
    PlainIs(name);
  }

  lemma PlainIs(name: string)
    ensures PlainName(name)
            <==> 1 <= |name| <= 255
                 && forall i :: 0 <= i < |name| ==> name[i] !in [' ', '\t', '\n', 11 as char, 12 as char, '\r', '\0']
  {
    forall c: char ensures IsSpace(c) || c == '\0' <==> c in [' ', '\t', '\n', 11 as char, 12 as char, '\r', '\0'] {
      assert c as int as char == c;
    }
  }

  lemma CheckRoundTrip(name: string)
    ensures PlainName(name) <==> ScanRequest(CheckText(name)) == Fields(Some("CHECK"), Some(name), None, None)
    ensures !RoutedAsAck(CheckText(name))
  {
    if PlainName(name) {
      var s1 := " " + name + [];
      assert CheckText(name) == "CHECK" + s1;
      ScanTokenBack("CHECK", s1, 9);
      ScanTokenBack(name, [], 255);
    } else if ScanRequest(CheckText(name)).filename == Some(name) {
      TokensArePlain(ScanToken(CheckText(name), 9).value.1, 255);
    }
    assert CheckText(name)[0] == 'C';
  }

  lemma AckRoundTrip(q: nat)
    requires q < WORD
    ensures RoutedAsAck(AckText(q)) && ScanAck(AckText(q)) == Some(q)
  {
    WordLength(q);
    assert AckText(q)[4..] == Decimal(q) + [];
    SkipToNumber(q, []);
    ScanNumberAt(Decimal(q) + [], q, []);
    assert AckText(q)[..3] == "ACK";
  }

  lemma OkRoundTrip(n: nat)
    requires n < WORD
    ensures ScanOk(OkText(n)) == Some(n)
  {
    WordLength(n);
    assert OkText(n)[2..] == " " + Decimal(n) + [];
    ScanNumberBack(n, []);
    assert OkText(n)[..2] == "OK";
  }

  // ------------------------------------------------------------------
  // Data packets
  // ------------------------------------------------------------------

  function Pow256(k: nat): nat {
    if k == 0 then 1 else 256 * Pow256(k - 1)
  }

  /** The k low bytes of q, lowest first. */
  function ToBytes(q: nat, k: nat): (s: seq<Octet>)
    ensures |s| == k && forall i :: 0 <= i < k ==> s[i] as int < 256
  {
    if k == 0 then [] else [(q % 256) as char] + ToBytes(q / 256, k - 1)
  }

  function FromBytes(s: seq<Octet>): nat {
    if s == [] then 0 else s[0] as int + 256 * FromBytes(s[1..])
  }

  lemma {:induction false} BytesBack(q: nat, k: nat)
    requires q < Pow256(k)
    ensures FromBytes(ToBytes(q, k)) == q
  {
    if k > 0 {
      BytesBack(q / 256, k - 1);
    }
  }

  function Packet(q: nat, payload: seq<Octet>): seq<Octet> {
    ToBytes(q, HEADER_SIZE) + payload
  }

  function HeaderOf(b: seq<Octet>): nat
    requires |b| >= HEADER_SIZE
  {
    FromBytes(b[..HEADER_SIZE])
  }

  /** The header is a 64-bit number, lowest byte first. */
  lemma HeaderIsLittleEndian(b: seq<Octet>)
    requires |b| >= 8
    ensures HeaderOf(b) == b[0] as int + 0x100 * b[1] as int + 0x1_0000 * b[2] as int + 0x100_0000 * b[3] as int
                           + 0x1_0000_0000 * b[4] as int + 0x100_0000_0000 * b[5] as int
                           + 0x1_0000_0000_0000 * b[6] as int + 0x100_0000_0000_0000 * b[7] as int
  {
    var s := b[..8];
    TwoBytes(s);
    TwoBytes(s[2..]);
    TwoBytes(s[4..]);
    TwoBytes(s[6..]);
    assert s[2..][2..] == s[4..] && s[4..][2..] == s[6..] && s[6..][2..] == [];
    assert forall i :: 0 <= i < 8 ==> s[i] == b[i];
    assert forall i :: 0 <= i < 2 ==> s[2..][i] == b[2 + i] && s[4..][i] == b[4 + i] && s[6..][i] == b[6 + i];
  }

  lemma TwoBytes(s: seq<Octet>)
    requires |s| >= 2
    ensures FromBytes(s) == s[0] as int + 0x100 * s[1] as int + 0x1_0000 * FromBytes(s[2..])
  {
    assert s[1..][0] == s[1] && s[1..][1..] == s[2..];
  }

  lemma PacketRoundTrip(q: nat, payload: seq<Octet>)
    requires q < WORD && |payload| <= PAYLOAD_MAX
    ensures |Packet(q, payload)| <= BUFFER_SIZE
    ensures HeaderOf(Packet(q, payload)) == q
    ensures Packet(q, payload)[HEADER_SIZE..] == payload
  {
    assert Pow256(4) == 0x1_0000_0000;
    assert Pow256(8) == WORD;
    BytesBack(q, HEADER_SIZE);
    assert Packet(q, payload)[..HEADER_SIZE] == ToBytes(q, HEADER_SIZE);
  }
}
