/** URL-safe base64 without padding (RFC 4648, section 5), and the lenient decoder that undoes it. */
module Base64 {
  import opened Options

  type Byte = b: int | 0 <= b < 256
  type Sextet = v: int | 0 <= v < 64

  function Symbol(v: Sextet): char {
    if v < 26 then 'A' + v as char
    else if v < 52 then 'a' + (v - 26) as char
    else if v < 62 then '0' + (v - 52) as char
    else if v == 62 then '-' else '_'
  }

  /** The decoder also takes the two symbols of the standard alphabet. */
  function Value(c: char): Option<Sextet> {
    if 'A' <= c <= 'Z' then Some(c as int - 'A' as int)
    else if 'a' <= c <= 'z' then Some(c as int - 'a' as int + 26)
    else if '0' <= c <= '9' then Some(c as int - '0' as int + 52)
    else if c == '-' || c == '+' then Some(62)
    else if c == '_' || c == '/' then Some(63)
    else None
  }

  lemma ValueOfSymbol(v: Sextet)
    ensures Value(Symbol(v)) == Some(v) && Symbol(v) != '=' && Symbol(v) != '.'
  {
  }

  function Pads(n: nat): string {
    seq(n, i => '=')
  }

  function Single(b0: Byte): string {
    [Symbol(b0 / 4), Symbol(b0 % 4 * 16)]
  }

  function Double(b0: Byte, b1: Byte): string {
    [Symbol(b0 / 4), Symbol(b0 % 4 * 16 + b1 / 16), Symbol(b1 % 16 * 4)]
  }

  function Group(b0: Byte, b1: Byte, b2: Byte): string {
    [Symbol(b0 / 4), Symbol(b0 % 4 * 16 + b1 / 16), Symbol(b1 % 16 * 4 + b2 / 64), Symbol(b2 % 64)]
  }

  /** Three bytes make four symbols; the last group is padded. */
  function EncodePadded(bytes: seq<Byte>): string {
    if bytes == [] then ""
    else if |bytes| == 1 then Single(bytes[0]) + "=="
    else if |bytes| == 2 then Double(bytes[0], bytes[1]) + "="
    else Group(bytes[0], bytes[1], bytes[2]) + EncodePadded(bytes[3..])
  }

  function StripPads(s: string): string {
    if s != "" && s[|s| - 1] == '=' then StripPads(s[..|s| - 1]) else s
  }

  function B64(bytes: seq<Byte>): string {
    StripPads(EncodePadded(bytes))
  }

  /** Decodes symbol by symbol: `quad` symbols of the current group are read, `left` holds the
      bits not yet written. Foreign characters are skipped, and padding that completes a group
      ends the data. */
  function Scan(s: string, quad: nat, left: int, pads: nat): Option<seq<int>>
    requires quad < 4
  {
    if s == "" then (if quad == 0 then Some([]) else None)
    else if s[0] == '=' then
      if quad >= 2 && quad + pads + 1 >= 4 then Some([])
      else Scan(s[1..], quad, left, if quad >= 2 then pads + 1 else pads)
    else
      match Value(s[0])
      case None => Scan(s[1..], quad, left, pads)
      case Some(v) =>
        if quad == 0 then Scan(s[1..], 1, v, 0)
        else if quad == 1 then Prepend(left * 4 + v / 16, Scan(s[1..], 2, v % 16, 0))
        else if quad == 2 then Prepend(left * 16 + v / 4, Scan(s[1..], 3, v % 4, 0))
        else Prepend(left * 64 + v, Scan(s[1..], 0, 0, 0))
  }

  function Prepend(b: int, rest: Option<seq<int>>): Option<seq<int>> {
    if rest.Some? then Some([b] + rest.value) else None
  }

  /** `-len % 4`. */
  function Missing(n: nat): nat { (4 - n % 4) % 4 }

  function Unb64(s: string): Option<seq<int>> {
    Scan(s + Pads(Missing(|s|)), 0, 0, 0)
  }

  // ---- the encoding without padding -----------------------------------------------------------

  function Encode(bytes: seq<Byte>): string {
    if bytes == [] then ""
    else if |bytes| == 1 then Single(bytes[0])
    else if |bytes| == 2 then Double(bytes[0], bytes[1])
    else Group(bytes[0], bytes[1], bytes[2]) + Encode(bytes[3..])
  }

  function PadsOf(n: nat): nat { if n % 3 == 0 then 0 else 3 - n % 3 }

  predicate InAlphabet(s: string) {
    forall i :: 0 <= i < |s| ==> Value(s[i]).Some? && s[i] != '=' && s[i] != '.'
  }

  lemma {:induction false} EncodeShape(bytes: seq<Byte>)
    ensures EncodePadded(bytes) == Encode(bytes) + Pads(PadsOf(|bytes|))
    ensures Missing(|Encode(bytes)|) == PadsOf(|bytes|)
    decreases |bytes|
  {
    if bytes == [] {
      assert Pads(0) == "";
    } else if |bytes| == 1 {
      assert Pads(2) == "==";
    } else if |bytes| == 2 {
      assert Pads(1) == "=";
    } else {
      EncodeShape(bytes[3..]);
      PadsOfGroup(|bytes|);
      Associate(Group(bytes[0], bytes[1], bytes[2]), Encode(bytes[3..]), Pads(PadsOf(|bytes|)));
    }
  }

  lemma Associate(a: string, b: string, c: string)
    ensures a + (b + c) == (a + b) + c
  {
  }

  lemma PadsOfGroup(n: nat)
    requires n >= 3
    ensures PadsOf(n) == PadsOf(n - 3)
    ensures forall m: nat :: Missing(4 + m) == Missing(m)
  {
  }

  lemma {:induction false} EncodeInAlphabet(bytes: seq<Byte>)
    ensures InAlphabet(Encode(bytes))
    decreases |bytes|
  {
    if |bytes| >= 3 {
      EncodeInAlphabet(bytes[3..]);
      assert Encode(bytes) == Group(bytes[0], bytes[1], bytes[2]) + Encode(bytes[3..]);
    }
  }

  lemma {:induction false} StripRemovesPads(s: string, n: nat)
    requires s != "" ==> s[|s| - 1] != '='
    ensures StripPads(s + Pads(n)) == s
    decreases n
  {
    if n > 0 {
      assert (s + Pads(n))[..|s| + n - 1] == s + Pads(n - 1);
      StripRemovesPads(s, n - 1);
    } else {
      assert s + Pads(0) == s;
    }
  }

  /** What is sent is the encoding without its padding, in an alphabet without dots. */
  lemma B64IsUnpadded(bytes: seq<Byte>)
    ensures B64(bytes) == Encode(bytes) && InAlphabet(B64(bytes))
  {
    EncodeShape(bytes);
    EncodeInAlphabet(bytes);
    StripRemovesPads(Encode(bytes), PadsOf(|bytes|));
  }

  // ---- decoding -------------------------------------------------------------------------------

  lemma {:induction false} ScanPads(n: nat)
    ensures Scan(Pads(n), 0, 0, 0) == Some([])
    decreases n
  {
    if n > 0 {
      assert Pads(n)[1..] == Pads(n - 1);
      ScanPads(n - 1);
    }
  }

  /** One symbol of the alphabet is read. */
  lemma ScanSymbol(c: char, rest: string, quad: nat, left: int)
    requires quad < 4 && Value(c).Some? && c != '='
    ensures var v := Value(c).value;
      Scan([c] + rest, quad, left, 0) ==
        if quad == 0 then Scan(rest, 1, v, 0)
        else if quad == 1 then Prepend(left * 4 + v / 16, Scan(rest, 2, v % 16, 0))
        else if quad == 2 then Prepend(left * 16 + v / 4, Scan(rest, 3, v % 4, 0))
        else Prepend(left * 64 + v, Scan(rest, 0, 0, 0))
  {
    assert ([c] + rest)[1..] == rest;
  }

  lemma ScanTwo(a: Sextet, b: Sextet, rest: string)
    ensures Scan([Symbol(a), Symbol(b)] + rest, 0, 0, 0) == Prepend(a * 4 + b / 16, Scan(rest, 2, b % 16, 0))
  {
    ValueOfSymbol(a);
    ValueOfSymbol(b);
    assert [Symbol(a), Symbol(b)] + rest == [Symbol(a)] + ([Symbol(b)] + rest);
    ScanSymbol(Symbol(a), [Symbol(b)] + rest, 0, 0);
    ScanSymbol(Symbol(b), rest, 1, a);
  }

  lemma ScanThree(a: Sextet, b: Sextet, c: Sextet, rest: string)
    ensures Scan([Symbol(a), Symbol(b), Symbol(c)] + rest, 0, 0, 0)
         == Prepend(a * 4 + b / 16, Prepend(b % 16 * 16 + c / 4, Scan(rest, 3, c % 4, 0)))
  {
    ValueOfSymbol(c);
    assert [Symbol(a), Symbol(b), Symbol(c)] + rest == [Symbol(a), Symbol(b)] + ([Symbol(c)] + rest);
    ScanTwo(a, b, [Symbol(c)] + rest);
    ScanSymbol(Symbol(c), rest, 2, b % 16);
  }

  lemma ScanFour(a: Sextet, b: Sextet, c: Sextet, d: Sextet, rest: string)
    ensures Scan([Symbol(a), Symbol(b), Symbol(c), Symbol(d)] + rest, 0, 0, 0)
         == Prepend(a * 4 + b / 16, Prepend(b % 16 * 16 + c / 4, Prepend(c % 4 * 64 + d, Scan(rest, 0, 0, 0))))
  {
    ValueOfSymbol(d);
    assert [Symbol(a), Symbol(b), Symbol(c), Symbol(d)] + rest
        == [Symbol(a), Symbol(b), Symbol(c)] + ([Symbol(d)] + rest);
    ScanThree(a, b, c, [Symbol(d)] + rest);
    ScanSymbol(Symbol(d), rest, 3, c % 4);
  }

  /** Padding that completes a group ends the data. */
  lemma ScanEnd(pads: nat, quad: nat, left: int)
    requires 2 <= quad < 4 && pads >= 4 - quad
    ensures Scan(Pads(pads), quad, left, 0) == Some([])
  {
    assert Pads(pads)[1..] == Pads(pads - 1);
  }

  /** The bits of three bytes, cut into sextets and put together again. */
  lemma Regroup(b0: Byte, b1: Byte, b2: Byte)
    ensures b0 / 4 * 4 + (b0 % 4 * 16 + b1 / 16) / 16 == b0
    ensures (b0 % 4 * 16 + b1 / 16) % 16 * 16 + (b1 % 16 * 4 + b2 / 64) / 4 == b1
    ensures (b1 % 16 * 4 + b2 / 64) % 4 * 64 + b2 % 64 == b2
  {
  }

  lemma ReadSingle(b0: Byte, pads: nat)
    requires pads >= 2
    ensures Scan(Single(b0) + Pads(pads), 0, 0, 0) == Some([b0])
  {
    ScanTwo(b0 / 4, b0 % 4 * 16, Pads(pads));
    ScanEnd(pads, 2, b0 % 4 * 16 % 16);
    Regroup(b0, 0, 0);
    assert [b0] + [] == [b0];
  }

  lemma ReadDouble(b0: Byte, b1: Byte, pads: nat)
    requires pads >= 1
    ensures Scan(Double(b0, b1) + Pads(pads), 0, 0, 0) == Some([b0, b1])
  {
    ScanThree(b0 / 4, b0 % 4 * 16 + b1 / 16, b1 % 16 * 4, Pads(pads));
    ScanEnd(pads, 3, b1 % 16 * 4 % 4);
    Regroup(b0, b1, 0);
    assert [b0] + ([b1] + []) == [b0, b1];
  }

  lemma ReadGroup(b0: Byte, b1: Byte, b2: Byte, rest: string)
    ensures Scan(Group(b0, b1, b2) + rest, 0, 0, 0) == Prepend(b0, Prepend(b1, Prepend(b2, Scan(rest, 0, 0, 0))))
  {
    var c, d, e := b0 % 4 * 16 + b1 / 16, b1 % 16 * 4 + b2 / 64, b2 % 64;
    Regroup(b0, b1, b2);
    ScanFour(b0 / 4, c, d, e, rest);
    assert b0 / 4 * 4 + c / 16 == b0 && c % 16 * 16 + d / 4 == b1 && d % 4 * 64 + e == b2;
  }

  /** Enough padding, exact or not, restores the bytes for every length. */
  lemma {:induction false} DecodeRestores(bytes: seq<Byte>, pads: nat)
    requires pads >= PadsOf(|bytes|)
    ensures Scan(Encode(bytes) + Pads(pads), 0, 0, 0) == Some(bytes)
    decreases |bytes|
  {
    if bytes == [] {
      assert Encode(bytes) + Pads(pads) == Pads(pads);
      ScanPads(pads);
    } else if |bytes| == 1 {
      ReadSingle(bytes[0], pads);
      assert bytes == [bytes[0]];
    } else if |bytes| == 2 {
      ReadDouble(bytes[0], bytes[1], pads);
      assert bytes == [bytes[0], bytes[1]];
    } else {
      PadsOfGroup(|bytes|);
      DecodeRestores(bytes[3..], pads);
      ReadGroup(bytes[0], bytes[1], bytes[2], Encode(bytes[3..]) + Pads(pads));
      Associate(Group(bytes[0], bytes[1], bytes[2]), Encode(bytes[3..]), Pads(pads));
      assert bytes == [bytes[0]] + ([bytes[1]] + ([bytes[2]] + bytes[3..]));
    }
  }

  /** The round trip, for every byte string. */
  lemma Unb64OfB64(bytes: seq<Byte>)
    ensures Unb64(B64(bytes)) == Some(bytes)
  {
    B64IsUnpadded(bytes);
    EncodeShape(bytes);
    DecodeRestores(bytes, PadsOf(|bytes|));
  }

  /** Two padding characters, as the logout endpoint appends, are enough for every length. */
  lemma TwoPadsAlwaysSuffice(bytes: seq<Byte>)
    ensures Scan(B64(bytes) + "==", 0, 0, 0) == Some(bytes)
  {
    B64IsUnpadded(bytes);
    DecodeRestores(bytes, 2);
    assert Pads(2) == "==";
  }

  // ---- the alphabet and the bits --------------------------------------------------------------

  /** The alphabet of table 2 in section 5 of RFC 4648: capitals, small letters, digits, minus and
      underline, each row in its own order. */
  lemma AlphabetIs(v: Sextet)
    ensures Symbol(0) == 'A' && Symbol(25) == 'Z' && Symbol(26) == 'a' && Symbol(51) == 'z'
    ensures Symbol(52) == '0' && Symbol(61) == '9' && Symbol(62) == '-' && Symbol(63) == '_'
    ensures v !in {25, 51, 61, 62, 63} ==> Symbol(v + 1) as int == Symbol(v) as int + 1
  {
  }

  /** Byte `i`, or zero behind the end. */
  function ByteAt(bytes: seq<Byte>, i: nat): (b: nat)
    ensures b < 256
  {
    if i < |bytes| then bytes[i] else 0
  }

  /** Six bits from bit `6 * k` of the bytes on. */
  function SixBits(bytes: seq<Byte>, k: nat): (v: nat)
    ensures v < 64
  {
    var q := 6 * k / 8;
    var two := ByteAt(bytes, q) * 256 + ByteAt(bytes, q + 1);
    if k % 4 == 0 then two / 1024 % 64
    else if k % 4 == 1 then two / 16 % 64
    else if k % 4 == 2 then two / 64 % 64
    else two / 256 % 64
  }

  lemma SixBitsLater(bytes: seq<Byte>, k: nat)
    requires |bytes| >= 3 && k >= 4
    ensures SixBits(bytes, k) == SixBits(bytes[3..], k - 4)
  {
    var q := 6 * k / 8;
    assert 6 * (k - 4) / 8 == q - 3 && (k - 4) % 4 == k % 4;
    assert ByteAt(bytes, q) == ByteAt(bytes[3..], q - 3) && ByteAt(bytes, q + 1) == ByteAt(bytes[3..], q - 2);
  }

  lemma Symbol0(bytes: seq<Byte>)
    ensures SixBits(bytes, 0) == ByteAt(bytes, 0) / 4
  {
  }

  lemma Symbol1(bytes: seq<Byte>)
    ensures SixBits(bytes, 1) == ByteAt(bytes, 0) % 4 * 16 + ByteAt(bytes, 1) / 16
  {
    Lowest(ByteAt(bytes, 0) / 4, ByteAt(bytes, 0) % 4 * 16 + ByteAt(bytes, 1) / 16);
  }

  lemma Symbol2(bytes: seq<Byte>)
    ensures SixBits(bytes, 2) == ByteAt(bytes, 1) % 16 * 4 + ByteAt(bytes, 2) / 64
  {
    Lowest(ByteAt(bytes, 1) / 16, ByteAt(bytes, 1) % 16 * 4 + ByteAt(bytes, 2) / 64);
  }

  lemma Symbol3(bytes: seq<Byte>)
    ensures SixBits(bytes, 3) == ByteAt(bytes, 2) % 64
  {
  }

  lemma Lowest(high: nat, low: nat)
    requires low < 64
    ensures (64 * high + low) % 64 == low
  {
  }

  /** What is sent is the bytes' own bits, six at a time: one symbol for each six bits or part of
      them, zeros behind the end. */
  lemma {:induction false} B64IsTheBits(bytes: seq<Byte>)
    ensures |B64(bytes)| == (8 * |bytes| + 5) / 6
    ensures forall k :: 0 <= k < |B64(bytes)| ==> B64(bytes)[k] == Symbol(SixBits(bytes, k))
    decreases |bytes|
  {
    B64IsUnpadded(bytes);
    var text := Encode(bytes);
    if |bytes| >= 3 {
      B64IsTheBits(bytes[3..]);
      B64IsUnpadded(bytes[3..]);
    }
    Symbol0(bytes);
    Symbol1(bytes);
    Symbol2(bytes);
    Symbol3(bytes);
    hide SixBits, Symbol;
    forall k | 0 <= k < |text| ensures text[k] == Symbol(SixBits(bytes, k)) {
      if k >= 4 {
        SixBitsLater(bytes, k);
        assert text[k] == Encode(bytes[3..])[k - 4];
      }
    }
  }
}
