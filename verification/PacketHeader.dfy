/** The 8-byte UDP packet header and the 16-bit serial-number arithmetic on frame indices. */
module PacketHeader {
  import opened Common

  const HEADER_SIZE: nat := 8
  const MTU_LEN: nat := 1400
  const MAX_PAYLOAD: nat := MTU_LEN - HEADER_SIZE

  datatype Header = Header(frameIdx: u16, secIdx: u16, frameLen: u32)

  // ---------------------------------------------------------------------------------------
  // Frame indices

  /** The signed 16-bit difference: the C++ cast of the int difference to i16. */
  function Diff(a: u16, b: u16): (d: int)
    ensures -0x8000 <= d < 0x8000
    ensures (b + d) % 0x1_0000 == a
  {
    var m := (a - b) % 0x1_0000;
    if m < 0x8000 then m else m - 0x1_0000
  }

  predicate IsAfter(a: u16, b: u16) { Diff(a, b) > 0 }

  predicate IsBefore(a: u16, b: u16) { Diff(a, b) < 0 }

  function Pred(a: u16): u16 { (a - 1) % 0x1_0000 }

  // "Greater" of section 3.2 of RFC 1982 for SERIAL_BITS = 16.
  predicate SerialGreater(a: u16, b: u16) {
    || (a < b && b - a > 0x8000)
    || (a > b && a - b < 0x8000)
  }

  // isAfter is the RFC's order. isBefore is its converse except for indices exactly half the
  // space apart, which the RFC leaves unordered and the code calls "before" both ways round.
  lemma SerialOrder(a: u16, b: u16)
    ensures IsAfter(a, b) <==> SerialGreater(a, b)
    ensures IsBefore(a, b) <==> SerialGreater(b, a) || (a - b) % 0x1_0000 == 0x8000
    ensures IsAfter(a, b) ==> !IsAfter(b, a)
    ensures IsBefore(a, b) && IsBefore(b, a) <==> (a - b) % 0x1_0000 == 0x8000
  {
    if a < b {
      assert (a - b) % 0x1_0000 == a - b + 0x1_0000;
      assert (b - a) % 0x1_0000 == b - a;
    }
  }

  // ---------------------------------------------------------------------------------------
  // Parsing

  function Word(lo: u8, hi: u8): (w: u16)
    ensures w % 0x100 == lo && w / 0x100 == hi
  {
    var l: int, h: int := lo, hi;
    l + 0x100 * h
  }

  function DoubleWord(lo: u16, hi: u16): (w: u32)
    ensures w % 0x100 == lo % 0x100 && w / 0x100 % 0x100 == lo / 0x100
    ensures w / 0x1_0000 % 0x100 == hi % 0x100 && w / 0x100_0000 == hi / 0x100
  {
    var l: int, h: int := lo, hi;
    Bytes(l % 0x100, l / 0x100, h % 0x100, h / 0x100);
    l + 0x1_0000 * h
  }

  lemma Split8(x: int, q: int, r: int)
    requires 0 <= r < 0x100 && x == 0x100 * q + r
    ensures x / 0x100 == q && x % 0x100 == r
  {
  }

  lemma Split16(x: int, q: int, r: int)
    requires 0 <= r < 0x1_0000 && x == 0x1_0000 * q + r
    ensures x / 0x1_0000 == q
  {
  }

  lemma Split24(x: int, q: int, r: int)
    requires 0 <= r < 0x100_0000 && x == 0x100_0000 * q + r
    ensures x / 0x100_0000 == q
  {
  }

  // The bytes of a number, least significant first.
  lemma Bytes(b0: int, b1: int, b2: int, b3: int)
    requires 0 <= b0 < 0x100 && 0 <= b1 < 0x100 && 0 <= b2 < 0x100 && 0 <= b3 < 0x100
    ensures var w := b0 + 0x100 * b1 + 0x1_0000 * (b2 + 0x100 * b3);
      w % 0x100 == b0 && w / 0x100 % 0x100 == b1 && w / 0x1_0000 % 0x100 == b2 && w / 0x100_0000 == b3
  {
    var w := b0 + 0x100 * b1 + 0x1_0000 * (b2 + 0x100 * b3);
    Split8(w, b1 + 0x100 * (b2 + 0x100 * b3), b0);
    Split8(w / 0x100, b2 + 0x100 * b3, b1);
    Split16(w, b2 + 0x100 * b3, b0 + 0x100 * b1);
    Split8(b2 + 0x100 * b3, b3, b2);
    Split24(w, b3, b0 + 0x100 * b1 + 0x1_0000 * b2);
  }

  function ParseLi(s: seq<u8>): (h: Header)
    requires |s| >= HEADER_SIZE
  {
    Header(Word(s[0], s[1]), Word(s[2], s[3]), DoubleWord(Word(s[4], s[5]), Word(s[6], s[7])))
  }

  function ParseBi(s: seq<u8>): (h: Header)
    requires |s| >= HEADER_SIZE
  {
    Header(Word(s[1], s[0]), Word(s[3], s[2]), DoubleWord(Word(s[7], s[6]), Word(s[5], s[4])))
  }

  function Parse(fromBi: bool, s: seq<u8>): Header
    requires |s| >= HEADER_SIZE
  {
    if fromBi then ParseBi(s) else ParseLi(s)
  }

  /** The sender's side: the wire form of a header in either byte order. */
  function Encode(toBi: bool, h: Header): (s: seq<u8>)
    ensures |s| == HEADER_SIZE
  {
    var i0, i1 := h.frameIdx % 0x100, h.frameIdx / 0x100;
    var s0, s1 := h.secIdx % 0x100, h.secIdx / 0x100;
    var l0, l1 := h.frameLen % 0x100, h.frameLen / 0x100 % 0x100;
    var l2, l3 := h.frameLen / 0x1_0000 % 0x100, h.frameLen / 0x100_0000;
    if toBi then [i1, i0, s1, s0, l3, l2, l1, l0] else [i0, i1, s0, s1, l0, l1, l2, l3]
  }

  /** The header on the wire: three fields of 2, 2 and 4 bytes, most or least significant byte first. */
  lemma HeaderBytes(s: seq<u8>)
    requires |s| >= 8
    ensures var b: seq<int> := s; var h := Parse(true, s);
      && h.frameIdx == 256 * b[0] + b[1] && h.secIdx == 256 * b[2] + b[3]
      && h.frameLen == 16_777_216 * b[4] + 65_536 * b[5] + 256 * b[6] + b[7]
    ensures var b: seq<int> := s; var h := Parse(false, s);
      && h.frameIdx == b[0] + 256 * b[1] && h.secIdx == b[2] + 256 * b[3]
      && h.frameLen == b[4] + 256 * b[5] + 65_536 * b[6] + 16_777_216 * b[7]
  {
  }

  // A packet built by the sender parses back to the header it was built from, whatever
  // payload or padding follows.
  lemma HeaderRoundTrip(bi: bool, h: Header, rest: seq<u8>)
    ensures Parse(bi, Encode(bi, h) + rest) == h
  {
    var e := Encode(bi, h);
    assert Parse(bi, e + rest) == Parse(bi, e) by {
      assert forall i | 0 <= i < HEADER_SIZE :: (e + rest)[i] == e[i];
    }
    WordSplit(h.frameIdx);
    WordSplit(h.secIdx);
    WordSplit(h.frameLen % 0x1_0000);
    WordSplit(h.frameLen / 0x1_0000);
    DoubleWordSplit(h.frameLen);
  }

  lemma WordSplit(w: u16)
    ensures Word(w % 0x100, w / 0x100) == w
  {
  }

  lemma DoubleWordSplit(w: u32)
    ensures DoubleWord(w % 0x1_0000, w / 0x1_0000) == w
    ensures w % 0x1_0000 % 0x100 == w % 0x100 && w % 0x1_0000 / 0x100 == w / 0x100 % 0x100
    ensures w / 0x1_0000 / 0x100 == w / 0x100_0000
  {
  }

  // Nothing is lost by parsing either: the header bytes are recovered from the parsed header.
  lemma HeaderRoundTripBack(bi: bool, s: seq<u8>)
    requires |s| >= HEADER_SIZE
    ensures Encode(bi, Parse(bi, s)) == s[..HEADER_SIZE]
  {
  }

  /** Reinterprets the first 8 bytes on the little-endian host. */
  method FromLiInplace(data: array<u8>, n: nat) returns (h: Option<Header>)
    requires n <= data.Length
    ensures h == if n < HEADER_SIZE then None else Some(ParseLi(data[..n]))
  {
    if n < HEADER_SIZE { return None; }
    h := Some(Header(Word(data[0], data[1]), Word(data[2], data[3]),
                     DoubleWord(Word(data[4], data[5]), Word(data[6], data[7]))));
  }

  /** Converts the header fields from network to host order in the receive buffer itself. */
  method FromBiInplace(data: array<u8>, n: nat) returns (h: Option<Header>)
    requires n <= data.Length
    modifies data
    ensures n < HEADER_SIZE ==> h == None && data[..] == old(data[..])
    ensures n >= HEADER_SIZE ==> h == Some(ParseBi(old(data[..n]))) && ParseLi(data[..n]) == h.value
    ensures n >= HEADER_SIZE ==> data[HEADER_SIZE..] == old(data[HEADER_SIZE..])
  {
    if n < HEADER_SIZE { return None; }
    data[0], data[1] := data[1], data[0];
    data[2], data[3] := data[3], data[2];
    data[4], data[5], data[6], data[7] := data[7], data[6], data[5], data[4];
    h := FromLiInplace(data, n);
  }
}
