/** The hex codec of the activity: `hexStringToByteArray`, which turns a
    command literal such as "02A307" into bytes, and `bytesToHex`, which renders
    bytes for the log as "02 A3 07". */
module HexCodec {
  import opened Frames

  predicate IsHexDigit(c: char)
  {
    '0' <= c <= '9' || 'a' <= c <= 'f' || 'A' <= c <= 'F'
  }

  /** `Character.digit(c, 16)` over ASCII: the value of a hexadecimal digit in
      either case, and -1 for every other character. */
  function Digit(c: char): (d: int)
    ensures -1 <= d < 16
    ensures d == -1 <==> !IsHexDigit(c)
  {
    if '0' <= c <= '9' then c as int - '0' as int
    else if 'a' <= c <= 'f' then c as int - 'a' as int + 10
    else if 'A' <= c <= 'F' then c as int - 'A' as int + 10
    else -1
  }

  /** The byte stored for the digit pair (hi, lo):
      `(byte) ((digit(hi) << 4) + digit(lo))`, that is the low eight bits of
      the sum, which for two hex digits is the sum itself. */
  function PairByte(hi: char, lo: char): (b: byte)
    ensures IsHexDigit(hi) && IsHexDigit(lo) ==> b == 16 * Digit(hi) + Digit(lo)
  {
    (Digit(hi) * 16 + Digit(lo)) % 256
  }

  /** The bytes an even-length string decodes to, one per pair of characters,
      most significant nibble first. */
  function Decoded(s: string): (r: seq<byte>)
    requires |s| % 2 == 0
    ensures |r| == |s| / 2
    ensures forall k :: 0 <= k < |r| ==> r[k] == PairByte(s[2 * k], s[2 * k + 1])
    decreases |s|
  {
    if s == [] then [] else [PairByte(s[0], s[1])] + Decoded(s[2..])
  }

  /** `hexStringToByteArray`: fills a fresh array of `len / 2` bytes in place,
      two characters per byte. An odd length makes the source read past the
      end of the string and write past the end of the array, so even length is
      what its callers must supply. */
  method HexStringToByteArray(s: string) returns (data: array<byte>)
    requires |s| % 2 == 0
    ensures fresh(data)
    ensures data.Length == |s| / 2
    ensures forall k :: 0 <= k < data.Length ==> data[k] == PairByte(s[2 * k], s[2 * k + 1])
    ensures data[..] == Decoded(s)
  {
    var len := |s|;
    data := new byte[len / 2];
    var i := 0;
    while i < len
      invariant 0 <= i <= len && i % 2 == 0
      invariant forall k :: 0 <= k < i / 2 ==> data[k] == PairByte(s[2 * k], s[2 * k + 1])
    {
      data[i / 2] := PairByte(s[i], s[i + 1]);
      i := i + 2;
    }
  }

  predicate IsUpperHexDigit(c: char)
  {
    '0' <= c <= '9' || 'A' <= c <= 'F'
  }

  /** The character `%X` prints for a nibble. */
  function HexChar(n: int): (c: char)
    requires 0 <= n < 16
    ensures IsUpperHexDigit(c) && Digit(c) == n
  {
    if n < 10 then ('0' as int + n) as char else ('A' as int + n - 10) as char
  }

  /** `String.format("%02X", b)`: two upper-case hex digits. A negative Java
      byte is printed as its unsigned value, which is what `byte` holds here. */
  function Hex2(b: byte): (s: string)
    ensures |s| == 2 && IsUpperHexDigit(s[0]) && IsUpperHexDigit(s[1])
    ensures PairByte(s[0], s[1]) == b
  {
    [HexChar(b / 16), HexChar(b % 16)]
  }

  /** The display text of a byte sequence: each byte as two upper-case hex
      digits, neighbours separated by one space, nothing before or after. */
  function Rendered(b: seq<byte>): (s: string)
    ensures |s| == if b == [] then 0 else 3 * |b| - 1
    decreases |b|
  {
    if |b| == 0 then ""
    else if |b| == 1 then Hex2(b[0])
    else Hex2(b[0]) + (" " + Rendered(b[1..]))
  }

  /** The builder's contents after the loop of `bytesToHex` has appended
      `"%02X "` for every byte of `b`. */
  function Padded(b: seq<byte>): string
    decreases |b|
  {
    if b == [] then "" else Padded(b[..|b| - 1]) + Hex2(b[|b| - 1]) + " "
  }

  /** `String.trim`: strips every leading and trailing character at or below
      U+0020. */
  function Trim(s: string): (r: string)
    ensures |r| <= |s|
    ensures r == [] || (' ' < r[0] && ' ' < r[|r| - 1])
  {
    TrimStart(TrimEnd(s))
  }

  /** What `trim` leaves is a slice of its input, and only characters at or
      below U+0020 are cut from either side of it. */
  lemma TrimSlice(s: string)
    ensures var r := Trim(s); var i := |TrimEnd(s)| - |r|;
      && 0 <= i && i + |r| <= |s| && r == s[i..i + |r|]
      && (forall k :: 0 <= k < i ==> s[k] <= ' ')
      && (forall k :: i + |r| <= k < |s| ==> s[k] <= ' ')
  {
    var e := TrimEnd(s);
    var r := TrimStart(e);
    var i := |e| - |r|;
    assert e == s[..|e|] && r == e[i..];
    assert r == s[i..|e|];
    forall k | 0 <= k < i
      ensures s[k] <= ' '
    {
      assert s[k] == e[k];
    }
  }

  function TrimEnd(s: string): (r: string)
    ensures |r| <= |s| && r == s[..|r|]
    ensures r == [] || ' ' < r[|r| - 1]
    ensures forall i :: |r| <= i < |s| ==> s[i] <= ' '
    decreases |s|
  {
    if s != [] && s[|s| - 1] <= ' ' then TrimEnd(s[..|s| - 1]) else s
  }

  function TrimStart(s: string): (r: string)
    ensures |r| <= |s| && r == s[|s| - |r|..]
    ensures r == [] || ' ' < r[0]
    ensures forall i :: 0 <= i < |s| - |r| ==> s[i] <= ' '
    decreases |s|
  {
    if s != [] && s[0] <= ' ' then TrimStart(s[1..]) else s
  }

  /** `bytesToHex`: appends `"%02X "` per byte to a builder, then trims. */
  method BytesToHex(bytes: seq<byte>) returns (s: string)
    ensures s == Rendered(bytes)
  {
    var sb := "";
    for i := 0 to |bytes|
      invariant sb == Padded(bytes[..i])
    {
      assert bytes[..i + 1][..i] == bytes[..i];
      sb := sb + Hex2(bytes[i]) + " ";
    }
    assert bytes[..|bytes|] == bytes;
    TrimPadded(bytes);
    s := Trim(sb);
  }

  /** Where each byte lands in the display text: byte k's two digits sit at
      positions 3k and 3k+1, and a space follows them unless it is the last. */
  lemma {:induction false} RenderedAt(b: seq<byte>, k: nat)
    requires k < |b|
    ensures Rendered(b)[3 * k] == Hex2(b[k])[0] && Rendered(b)[3 * k + 1] == Hex2(b[k])[1]
    ensures k + 1 < |b| ==> Rendered(b)[3 * k + 2] == ' '
    decreases |b|
  {
    if k == 0 {
      RenderedHead(b);
    } else {
      RenderedAt(b[1..], k - 1);
      RenderedTail(b);
      var j := 3 * (k - 1);
      assert 3 * k == j + 3;
    }
  }

  lemma RenderedHead(b: seq<byte>)
    requires b != []
    ensures Rendered(b)[0] == Hex2(b[0])[0] && Rendered(b)[1] == Hex2(b[0])[1]
    ensures |b| > 1 ==> Rendered(b)[2] == ' '
  {
  }

  lemma RenderedTail(b: seq<byte>)
    requires |b| > 1
    ensures forall i :: 3 <= i < |Rendered(b)| ==> Rendered(b)[i] == Rendered(b[1..])[i - 3]
  {
  }

  /** The display text is made of upper-case hex digits at positions 3k and
      3k+1 and single spaces at positions 3k+2, with no leading or trailing
      blank. */
  lemma RenderedShape(b: seq<byte>)
    ensures forall i :: 0 <= i < |Rendered(b)| ==>
      if i % 3 == 2 then Rendered(b)[i] == ' ' else IsUpperHexDigit(Rendered(b)[i])
  {
    var s := Rendered(b);
    forall i | 0 <= i < |s|
      ensures if i % 3 == 2 then s[i] == ' ' else IsUpperHexDigit(s[i])
    {
      var k := i / 3;
      RenderedAt(b, k);
      assert i == 3 * k + i % 3;
    }
  }

  /** Appending one byte to the input extends the display text by a space
      and that byte's two digits. */
  lemma {:induction false} RenderedSnoc(b: seq<byte>, x: byte)
    requires b != []
    ensures Rendered(b + [x]) == Rendered(b) + " " + Hex2(x)
    decreases |b|
  {
    if |b| > 1 {
      assert (b + [x])[1..] == b[1..] + [x];
      RenderedSnoc(b[1..], x);
    } else {
      assert (b + [x])[1..] == [x];
    }
  }

  lemma {:induction false} PaddedIsRendered(b: seq<byte>)
    requires b != []
    ensures Padded(b) == Rendered(b) + " "
    decreases |b|
  {
    var init := b[..|b| - 1];
    if init != [] {
      PaddedIsRendered(init);
      RenderedSnoc(init, b[|b| - 1]);
      assert init + [b[|b| - 1]] == b;
    }
  }

  lemma TrimPadded(b: seq<byte>)
    ensures Trim(Padded(b)) == Rendered(b)
  {
    if b != [] {
      PaddedIsRendered(b);
      RenderedEnds(b);
      var r := Rendered(b);
      TrimEndPad(r);
      assert TrimStart(r) == r;
    }
  }

  /** The display text of a non-empty input starts and ends with a digit. */
  lemma RenderedEnds(b: seq<byte>)
    requires b != []
    ensures var r := Rendered(b); |r| > 0 && IsUpperHexDigit(r[0]) && IsUpperHexDigit(r[|r| - 1])
  {
    RenderedShape(b);
    var n := |Rendered(b)| - 1;
    assert n % 3 == 1;
  }

  lemma TrimEndPad(r: string)
    requires r != [] && r[|r| - 1] > ' '
    ensures TrimEnd(r + " ") == r
  {
    assert (r + " ")[..|r|] == r;
  }

  /** The display text with its separating spaces deleted. */
  function Unspaced(s: string): string
    decreases |s|
  {
    if s == [] then "" else (if s[0] == ' ' then "" else [s[0]]) + Unspaced(s[1..])
  }

  lemma {:induction false} UnspacedAppend(a: string, c: string)
    ensures Unspaced(a + c) == Unspaced(a) + Unspaced(c)
    decreases |a|
  {
    if a != [] {
      assert (a + c)[1..] == a[1..] + c;
      UnspacedAppend(a[1..], c);
    } else {
      assert a + c == c;
    }
  }

  /** The digit pairs of `b` with nothing between them. */
  function Pairs(b: seq<byte>): string
    decreases |b|
  {
    if b == [] then "" else Hex2(b[0]) + Pairs(b[1..])
  }

  /** A digit pair has no space to delete. */
  lemma UnspacedHex2(x: byte)
    ensures Unspaced(Hex2(x)) == Hex2(x)
  {
    var h := Hex2(x);
    assert h[1..][1..] == [];
    assert Unspaced(h[1..]) == [h[1]];
  }

  /** Deleting the spaces from a display text of two or more bytes keeps
      the first pair and moves on past the separator. */
  lemma UnspacedRenderedStep(b: seq<byte>)
    requires |b| > 1
    ensures Unspaced(Rendered(b)) == Hex2(b[0]) + Unspaced(Rendered(b[1..]))
  {
    var h := Hex2(b[0]);
    var rest := " " + Rendered(b[1..]);
    UnspacedAppend(h, rest);
    UnspacedHex2(b[0]);
    SpaceDropped(Rendered(b[1..]));
  }

  lemma SpaceDropped(s: string)
    ensures Unspaced(" " + s) == Unspaced(s)
  {
    assert (" " + s)[1..] == s;
  }

  lemma {:induction false} UnspacedRendered(b: seq<byte>)
    ensures Unspaced(Rendered(b)) == Pairs(b)
    decreases |b|
  {
    if |b| == 1 {
      UnspacedHex2(b[0]);
      assert Pairs(b) == Hex2(b[0]) + Pairs([]);
    } else if |b| > 1 {
      UnspacedRenderedStep(b);
      UnspacedRendered(b[1..]);
    }
  }

  lemma {:induction false} DecodedPairs(b: seq<byte>)
    ensures |Pairs(b)| == 2 * |b|
    ensures Decoded(Pairs(b)) == b
    decreases |b|
  {
    if b != [] {
      DecodedPairs(b[1..]);
      var p := Pairs(b);
      assert p[2..] == Pairs(b[1..]);
    }
  }

  /** Round trip: deleting the spaces from the display text of `b` and
      decoding the result gives back `b`. */
  lemma RoundTrip(b: seq<byte>)
    ensures |Unspaced(Rendered(b))| % 2 == 0
    ensures Decoded(Unspaced(Rendered(b))) == b
  {
    UnspacedRendered(b);
    DecodedPairs(b);
  }

  /** The upper-case form of a hexadecimal digit; other characters stay. */
  function UpperChar(c: char): char
  {
    if 'a' <= c <= 'f' then (c as int - 'a' as int + 'A' as int) as char else c
  }

  function Upper(s: string): (r: string)
    ensures |r| == |s| && forall i :: 0 <= i < |s| ==> r[i] == UpperChar(s[i])
    decreases |s|
  {
    if s == [] then "" else [UpperChar(s[0])] + Upper(s[1..])
  }

  /** `%X` prints the value of a hex digit as that digit in upper case. */
  lemma DigitPrinted(c: char)
    requires IsHexDigit(c)
    ensures HexChar(Digit(c)) == UpperChar(c)
  {
  }

  /** Decoding hex digits and printing the bytes back as digit pairs gives
      the digits in upper case. */
  lemma {:induction false} PairsDecoded(s: string)
    requires |s| % 2 == 0 && forall i :: 0 <= i < |s| ==> IsHexDigit(s[i])
    ensures Pairs(Decoded(s)) == Upper(s)
    decreases |s|
  {
    if s != [] {
      var d := Decoded(s);
      PairPrinted(s[0], s[1]);
      assert d == [PairByte(s[0], s[1])] + Decoded(s[2..]);
      PairsDecoded(s[2..]);
      UpperSplits(s);
    }
  }

  /** One pair of hex digits, decoded and printed back. */
  lemma PairPrinted(hi: char, lo: char)
    requires IsHexDigit(hi) && IsHexDigit(lo)
    ensures Hex2(PairByte(hi, lo)) == [UpperChar(hi), UpperChar(lo)]
  {
    var b := PairByte(hi, lo);
    assert b / 16 == Digit(hi) && b % 16 == Digit(lo);
    DigitPrinted(hi);
    DigitPrinted(lo);
  }

  /** `Upper` of a string of two or more characters, its first pair split off. */
  lemma UpperSplits(s: string)
    requires |s| >= 2
    ensures Upper(s) == [UpperChar(s[0]), UpperChar(s[1])] + Upper(s[2..])
  {
    assert s[1..][1..] == s[2..];
  }

  /** The other round trip: an even-length string of hex digits decoded and
      rendered, with the spaces deleted, is the string in upper case. */
  lemma TextRoundTrip(s: string)
    requires |s| % 2 == 0 && forall i :: 0 <= i < |s| ==> IsHexDigit(s[i])
    ensures Unspaced(Rendered(Decoded(s))) == Upper(s)
  {
    UnspacedRendered(Decoded(s));
    PairsDecoded(s);
  }

  /** The hex literal the activity writes for each command. */
  function CommandLiteral(c: Cmd): string
  {
    match c
    case ConfigRead => "02A307"
    case PowerOn => "02A107"
    case Measure => "02A207"
    case PowerOff => "02A407"
  }

  /** The four command literals of the activity decode to their frames. */
  lemma CommandLiterals()
    ensures forall c :: |CommandLiteral(c)| % 2 == 0 && Decoded(CommandLiteral(c)) == Frame(c)
  {
    forall c: Cmd
      ensures |CommandLiteral(c)| % 2 == 0 && Decoded(CommandLiteral(c)) == Frame(c)
    {
      LiteralDecodes(c);
    }
  }

  lemma LiteralDecodes(c: Cmd)
    ensures |CommandLiteral(c)| == 6 && Decoded(CommandLiteral(c)) == Frame(c)
  {
    var l := CommandLiteral(c);
    assert Decoded(l) == [PairByte(l[0], l[1]), PairByte(l[2], l[3]), PairByte(l[4], l[5])];
    assert PairByte(l[0], l[1]) == 0x02 && PairByte(l[4], l[5]) == 0x07;
  }
}
