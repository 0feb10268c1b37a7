/** The base64 encoder and the little-endian decoder.  The text format is the one of section 4 of
    RFC 4648; the specification below follows that section, and the methods follow the code with
    its tables and its words of four bytes. */
module Base64 {
  import opened Common

  type Bytes = seq<bv8>

  // ---------- the format ----------

  const PAD: bv8 := 61

  /** The characters A-Z, a-z, 0-9, + and / in this order. */
  function Char(v: bv8): bv8 {
    if v < 26 then 65 + v
    else if v < 52 then 97 + (v - 26)
    else if v < 62 then 48 + (v - 52)
    else if v == 62 then 43 else 47
  }

  predicate InAlphabet(c: bv8) {
    65 <= c <= 90 || 97 <= c <= 122 || 48 <= c <= 57 || c == 43 || c == 47
  }

  function Value(c: bv8): bv8 {
    if 65 <= c <= 90 then c - 65
    else if 97 <= c <= 122 then c - 97 + 26
    else if 48 <= c <= 57 then c - 48 + 52
    else if c == 43 then 62 else 63
  }

  lemma Alphabet(v: bv8, c: bv8)
    ensures v < 64 ==> InAlphabet(Char(v)) && Value(Char(v)) == v && Char(v) != PAD
    ensures InAlphabet(c) ==> Value(c) < 64 && Char(Value(c)) == c
  {
  }

  /** Table 1 of RFC 4648, written out. */
  lemma CharTable()
    ensures Char(0) as char == 'A' && Char(1) as char == 'B' && Char(2) as char == 'C' && Char(3) as char == 'D'
      && Char(4) as char == 'E' && Char(5) as char == 'F' && Char(6) as char == 'G' && Char(7) as char == 'H'
      && Char(8) as char == 'I' && Char(9) as char == 'J' && Char(10) as char == 'K' && Char(11) as char == 'L'
      && Char(12) as char == 'M' && Char(13) as char == 'N' && Char(14) as char == 'O' && Char(15) as char == 'P'
      && Char(16) as char == 'Q' && Char(17) as char == 'R' && Char(18) as char == 'S' && Char(19) as char == 'T'
      && Char(20) as char == 'U' && Char(21) as char == 'V' && Char(22) as char == 'W' && Char(23) as char == 'X'
      && Char(24) as char == 'Y' && Char(25) as char == 'Z' && Char(26) as char == 'a' && Char(27) as char == 'b'
      && Char(28) as char == 'c' && Char(29) as char == 'd' && Char(30) as char == 'e' && Char(31) as char == 'f'
      && Char(32) as char == 'g' && Char(33) as char == 'h' && Char(34) as char == 'i' && Char(35) as char == 'j'
      && Char(36) as char == 'k' && Char(37) as char == 'l' && Char(38) as char == 'm' && Char(39) as char == 'n'
      && Char(40) as char == 'o' && Char(41) as char == 'p' && Char(42) as char == 'q' && Char(43) as char == 'r'
      && Char(44) as char == 's' && Char(45) as char == 't' && Char(46) as char == 'u' && Char(47) as char == 'v'
      && Char(48) as char == 'w' && Char(49) as char == 'x' && Char(50) as char == 'y' && Char(51) as char == 'z'
      && Char(52) as char == '0' && Char(53) as char == '1' && Char(54) as char == '2' && Char(55) as char == '3'
      && Char(56) as char == '4' && Char(57) as char == '5' && Char(58) as char == '6' && Char(59) as char == '7'
      && Char(60) as char == '8' && Char(61) as char == '9' && Char(62) as char == '+' && Char(63) as char == '/'
      && PAD as char == '='
  {
  }

  /** Three bytes side by side, the first one highest. */
  function Group(a: bv8, b: bv8, c: bv8): bv32 {
    ((a as bv32) << 16) | ((b as bv32) << 8) | (c as bv32)
  }

  /** Six bits of a group: number 0 is the highest. */
  function Sextet(g: bv32, k: nat): bv8
    requires k < 4
  {
    match k
    case 0 => ((g >> 18) & 63) as bv8
    case 1 => ((g >> 12) & 63) as bv8
    case 2 => ((g >> 6) & 63) as bv8
    case 3 => (g & 63) as bv8
  }

  /** The four characters of a group. */
  function Chars(g: bv32): (r: Bytes)
    ensures |r| == 4
  {
    [Char(Sextet(g, 0)), Char(Sextet(g, 1)), Char(Sextet(g, 2)), Char(Sextet(g, 3))]
  }

  /** Group by group; what is missing from the last one counts as zero bits, and the characters
      that would stand for nothing else are replaced by padding. */
  function Encoded(s: Bytes): Bytes {
    if |s| == 0 then []
    else if |s| == 1 then Chars(Group(s[0], 0, 0))[..2] + [PAD, PAD]
    else if |s| == 2 then Chars(Group(s[0], s[1], 0))[..3] + [PAD]
    else Chars(Group(s[0], s[1], s[2])) + Encoded(s[3..])
  }

  /** Four sextets side by side. */
  function Join(p: bv8, q: bv8, r: bv8, s: bv8): bv32 {
    ((p as bv32) << 18) | ((q as bv32) << 12) | ((r as bv32) << 6) | (s as bv32)
  }

  function Joined(t: Bytes): bv32
    requires |t| >= 4
  {
    Join(Value(t[0]), Value(t[1]), Value(t[2]), Value(t[3]))
  }

  /** The three bytes of a group. */
  function Octets(g: bv32): (r: Bytes)
    ensures |r| == 3
  {
    [((g >> 16) & 255) as bv8, ((g >> 8) & 255) as bv8, (g & 255) as bv8]
  }

  predicate AllIn(t: Bytes)
    requires |t| >= 4
  {
    InAlphabet(t[0]) && InAlphabet(t[1]) && InAlphabet(t[2]) && InAlphabet(t[3])
  }

  /** The bytes of an unpadded text. */
  function Decoded(t: Bytes): Option<Bytes> {
    if t == [] then Some([])
    else if |t| < 4 || !AllIn(t) then None
    else
      var rest := Decoded(t[4..]);
      if rest.None? then None else Some(Octets(Joined(t)) + rest.value)
  }

  // ---------- laws of the format ----------

  lemma {:induction false} EncodedLength(s: Bytes)
    ensures |Encoded(s)| == (|s| + 2) / 3 * 4
  {
    hide Chars;
    if |s| >= 3 { EncodedLength(s[3..]); }
  }

  lemma EncodedFirst(s: Bytes)
    ensures |s| >= 3 ==> Encoded(s) == Chars(Group(s[0], s[1], s[2])) + Encoded(s[3..])
    ensures s == [] ==> Encoded(s) == []
  {
    hide Chars; hide Group;
  }

  lemma {:induction false} EncodedJoin(a: Bytes, b: Bytes)
    requires |a| % 3 == 0
    ensures Encoded(a + b) == Encoded(a) + Encoded(b)
  {
    hide Chars; hide Group; hide Encoded;
    EncodedFirst(a);
    if a == [] {
      assert a + b == b;
    } else {
      EncodedJoin(a[3..], b);
      EncodedFirst(a + b);
      assert (a + b)[3..] == a[3..] + b;
      var q := Chars(Group(a[0], a[1], a[2]));
      assert q + (Encoded(a[3..]) + Encoded(b)) == q + Encoded(a[3..]) + Encoded(b);
    }
  }

  /** Two equals signs end the text of 3n + 1 bytes, one that of 3n + 2, none that of 3n. */
  ghost predicate Padded(e: Bytes, len: nat) {
    var n := |e|;
    && n >= 4
    && (len % 3 == 0 ==> e[n - 1] != 61)
    && (len % 3 == 1 ==> e[n - 3] != 61 && e[n - 2] == 61 && e[n - 1] == 61)
    && (len % 3 == 2 ==> e[n - 2] != 61 && e[n - 1] == 61)
  }

  lemma PaddingShort(s: Bytes)
    requires 0 < |s| <= 3
    ensures Padded(Encoded(s), |s|)
  {
    hide Chars; hide Group;
    CharsNotPadding(Group(s[0], if |s| > 1 then s[1] else 0, if |s| > 2 then s[2] else 0));
    assert |s| == 3 ==> s[3..] == [];
  }

  lemma CharsNotPadding(g: bv32)
    ensures Chars(g)[1] != 61 && Chars(g)[2] != 61 && Chars(g)[3] != 61
  {
    hide Char; hide Sextet;
    SextetsSmall(g);
    Alphabet(Sextet(g, 1), PAD);
    Alphabet(Sextet(g, 2), PAD);
    Alphabet(Sextet(g, 3), PAD);
  }

  lemma {:induction false} Padding(s: Bytes)
    requires s != []
    ensures Padded(Encoded(s), |s|)
  {
    hide Chars; hide Group; hide Encoded;
    if |s| <= 3 {
      PaddingShort(s);
    } else {
      EncodedFirst(s);
      Padding(s[3..]);
    }
  }

  lemma SextetsSmall(g: bv32)
    ensures Sextet(g, 0) < 64 && Sextet(g, 1) < 64 && Sextet(g, 2) < 64 && Sextet(g, 3) < 64
  {
  }

  /** The test vectors of section 10 of RFC 4648: f, fo, foo, foob, fooba and foobar. */
  lemma TestVectors()
    ensures Encoded([]) == []
    ensures Encoded([102]) == [90, 103, 61, 61]
    ensures Encoded([102, 111]) == [90, 109, 56, 61]
    ensures Encoded([102, 111, 111]) == [90, 109, 57, 118]
    ensures Encoded([102, 111, 111, 98]) == [90, 109, 57, 118, 89, 103, 61, 61]
    ensures Encoded([102, 111, 111, 98, 97]) == [90, 109, 57, 118, 89, 109, 69, 61]
    ensures Encoded([102, 111, 111, 98, 97, 114]) == [90, 109, 57, 118, 89, 109, 70, 121]
  {
    assert Encoded([102, 111, 111]) == [90, 109, 57, 118];
    EncodedJoin([102, 111, 111], [98]);
    EncodedJoin([102, 111, 111], [98, 97]);
    EncodedJoin([102, 111, 111], [98, 97, 114]);
  }

  ghost function Both(x: Option<Bytes>, y: Option<Bytes>): Option<Bytes> {
    if x.Some? && y.Some? then Some(x.value + y.value) else None
  }

  lemma FirstFour(t: Bytes)
    requires |t| >= 4
    ensures AllIn(t) == AllIn(t[..4]) && Joined(t) == Joined(t[..4])
  {
  }

  lemma {:induction false} DecodedJoin(a: Bytes, b: Bytes)
    requires |a| % 4 == 0
    ensures Decoded(a + b) == Both(Decoded(a), Decoded(b))
  {
    hide Octets; hide InAlphabet; hide Value;
    if a == [] {
      assert a + b == b;
      assert Decoded(b).Some? ==> [] + Decoded(b).value == Decoded(b).value;
    } else {
      DecodedJoin(a[4..], b);
      assert (a + b)[4..] == a[4..] + b;
      assert (a + b)[..4] == a[..4];
      FirstFour(a + b);
      FirstFour(a);
      var o, x, y := Octets(Joined(a)), Decoded(a[4..]), Decoded(b);
      assert x.Some? && y.Some? ==> o + (x.value + y.value) == o + x.value + y.value;
    }
  }

  lemma {:induction false} DecodedLength(t: Bytes)
    ensures Decoded(t).Some? ==> |t| % 4 == 0 && |Decoded(t).value| == |t| / 4 * 3
  {
    if |t| >= 4 { DecodedLength(t[4..]); }
  }

  lemma GroupBack(a: bv8, b: bv8, c: bv8)
    ensures var t := Chars(Group(a, b, c)); AllIn(t) && Octets(Joined(t)) == [a, b, c]
  {
    var g := Group(a, b, c);
    Alphabet(Sextet(g, 0), PAD);
    Alphabet(Sextet(g, 1), PAD);
    Alphabet(Sextet(g, 2), PAD);
    Alphabet(Sextet(g, 3), PAD);
    SextetsBack(a, b, c);
  }

  lemma SextetsBack(a: bv8, b: bv8, c: bv8)
    ensures var g := Group(a, b, c);
      && Sextet(g, 0) < 64 && Sextet(g, 1) < 64 && Sextet(g, 2) < 64 && Sextet(g, 3) < 64
      && Join(Sextet(g, 0), Sextet(g, 1), Sextet(g, 2), Sextet(g, 3)) == g
      && Octets(g) == [a, b, c]
  {
  }

  lemma OctetsBack(t: Bytes)
    requires |t| >= 4 && AllIn(t)
    ensures var o := Octets(Joined(t)); Chars(Group(o[0], o[1], o[2])) == t[..4]
  {
    Alphabet(0, t[0]);
    Alphabet(0, t[1]);
    Alphabet(0, t[2]);
    Alphabet(0, t[3]);
    JoinedBack(Value(t[0]), Value(t[1]), Value(t[2]), Value(t[3]));
  }

  lemma JoinedBack(p: bv8, q: bv8, r: bv8, s: bv8)
    requires p < 64 && q < 64 && r < 64 && s < 64
    ensures var o := Octets(Join(p, q, r, s));
      var h := Group(o[0], o[1], o[2]);
      Sextet(h, 0) == p && Sextet(h, 1) == q && Sextet(h, 2) == r && Sextet(h, 3) == s
  {
    hide Octets; hide Join; hide Group; hide Sextet;
    JoinSextets(p, q, r, s);
    OctetsGroup(Join(p, q, r, s));
  }

  lemma OctetsGroup(g: bv32)
    requires g < 0x0100_0000
    ensures var o := Octets(g); Group(o[0], o[1], o[2]) == g
  {
  }

  lemma JoinSextets(p: bv8, q: bv8, r: bv8, s: bv8)
    requires p < 64 && q < 64 && r < 64 && s < 64
    ensures var g := Join(p, q, r, s);
      g < 0x0100_0000 && Sextet(g, 0) == p && Sextet(g, 1) == q && Sextet(g, 2) == r && Sextet(g, 3) == s
  {
  }

  /** Decoding what was encoded gives the bytes back exactly if there was no need for padding;
      padded text is rejected. */
  lemma {:induction false} DecodeEncode(s: Bytes)
    ensures Decoded(Encoded(s)) == if |s| % 3 == 0 then Some(s) else None
  {
    hide Chars; hide Group; hide Octets; hide Joined; hide Char;
    var e := Encoded(s);
    if |s| >= 3 {
      var q := Chars(Group(s[0], s[1], s[2]));
      GroupBack(s[0], s[1], s[2]);
      DecodeEncode(s[3..]);
      assert e[..4] == q && e[4..] == Encoded(s[3..]);
      FirstFour(e);
      FirstFour(q);
      assert q[..4] == q;
      assert [s[0], s[1], s[2]] + s[3..] == s;
    } else if |s| > 0 {
      assert e[3] == PAD && !InAlphabet(PAD);
    }
  }

  /** The text of a single byte is the shortest that is rejected. */
  lemma OneByteRejected(b: bv8)
    ensures |Encoded([b])| == 4 && Decoded(Encoded([b])) == None
  {
    DecodeEncode([b]);
    EncodedLength([b]);
  }

  /** Every accepted text is the encoding of what it decodes to. */
  lemma {:induction false} EncodeDecode(t: Bytes)
    requires Decoded(t).Some?
    ensures Encoded(Decoded(t).value) == t
  {
    hide Chars; hide Group; hide Octets; hide Joined; hide InAlphabet;
    if t != [] {
      var d := Decoded(t).value;
      OctetsBack(t);
      EncodeDecode(t[4..]);
      assert d[3..] == Decoded(t[4..]).value;
      assert Octets(Joined(t)) == d[..3];
      assert t == t[..4] + t[4..];
    }
  }

  /** What is accepted: whole groups of characters of the alphabet, and nothing else. */
  lemma {:induction false} Accepted(t: Bytes)
    ensures Decoded(t).Some? <==> |t| % 4 == 0 && forall k | 0 <= k < |t| :: InAlphabet(t[k])
  {
    if |t| >= 4 {
      Accepted(t[4..]);
      forall k | 4 <= k < |t| ensures t[k] == t[4..][k - 4] {
      }
      if |t| % 4 == 0 && forall k | 0 <= k < |t[4..]| :: InAlphabet(t[4..][k]) {
        assert forall k | 0 <= k < |t| :: InAlphabet(t[k]) <== AllIn(t);
      }
    } else if |t| > 0 {
      assert |t| % 4 != 0;
    }
  }

  // ---------- the encoder ----------

  /** Table e0: the first character of a group, by its first byte. */
  function E0(t: bv8): bv8 {
    Char(t >> 2)
  }

  /** Tables e1 and e2: a character by the low six bits. */
  function E12(t: bv8): bv8 {
    Char(t & 63)
  }

  /** Bits of two neighbouring bytes, or of one byte and nothing. */
  function Second(t1: bv8, t2: bv8): bv8 {
    ((t1 & 3) << 4) | ((t2 >> 4) & 15)
  }

  function Third(t2: bv8, t3: bv8): bv8 {
    ((t2 & 15) << 2) | ((t3 >> 6) & 3)
  }

  function SecondAlone(t1: bv8): bv8 {
    (t1 & 3) << 4
  }

  function ThirdAlone(t2: bv8): bv8 {
    (t2 & 15) << 2
  }

  lemma FirstBits(a: bv8, b: bv8, c: bv8)
    ensures a >> 2 == Sextet(Group(a, b, c), 0)
  {
  }

  lemma SecondBits(a: bv8, b: bv8, c: bv8)
    ensures Second(a, b) & 63 == Sextet(Group(a, b, c), 1)
  {
  }

  lemma ThirdBits(a: bv8, b: bv8, c: bv8)
    ensures Third(b, c) & 63 == Sextet(Group(a, b, c), 2)
  {
  }

  lemma FourthBits(a: bv8, b: bv8, c: bv8)
    ensures c & 63 == Sextet(Group(a, b, c), 3)
  {
  }

  lemma AloneBits(t: bv8)
    ensures SecondAlone(t) == Second(t, 0) && ThirdAlone(t) == Third(t, 0)
  {
  }

  lemma TablesAgree(a: bv8, b: bv8, c: bv8)
    ensures [E0(a), E12(Second(a, b)), E12(Third(b, c)), E12(c)] == Chars(Group(a, b, c))
    ensures [E0(a), E12(SecondAlone(a))] == Chars(Group(a, 0, 0))[..2]
    ensures [E0(a), E12(Second(a, b)), E12(ThirdAlone(b))] == Chars(Group(a, b, 0))[..3]
  {
    hide Char; hide Group; hide Sextet; hide Second; hide Third; hide SecondAlone; hide ThirdAlone;
    AloneBits(a);
    AloneBits(b);
    FirstBits(a, b, c);
    FirstBits(a, 0, 0);
    FirstBits(a, b, 0);
    SecondBits(a, b, c);
    SecondBits(a, 0, 0);
    SecondBits(a, b, 0);
    ThirdBits(a, b, c);
    ThirdBits(a, b, 0);
    FourthBits(a, b, c);
  }

  /** Four characters one after the other. */
  method Put(dest: array<bv8>, p: nat, a: bv8, b: bv8, c: bv8, d: bv8)
    requires p + 4 <= dest.Length
    modifies dest
    ensures dest[..p] == old(dest[..p])
    ensures dest[p] == a && dest[p + 1] == b && dest[p + 2] == c && dest[p + 3] == d
    ensures forall k | p + 4 <= k < dest.Length :: dest[k] == old(dest[k])
  {
    dest[p], dest[p + 1], dest[p + 2], dest[p + 3] := a, b, c, d;
  }

  /** Write the text and a terminating zero; the result is the length of the text. */
  method Encode(dest: array<bv8>, str: Bytes) returns (ret: int)
    requires dest.Length >= (|str| + 2) / 3 * 4 + 1
    modifies dest
    ensures ret == |Encoded(str)| && ret < dest.Length
    ensures dest[..ret] == Encoded(str) && dest[ret] == 0
    ensures forall k | ret < k < dest.Length :: dest[k] == old(dest[k])
  {
    hide Encoded; hide E0; hide E12; hide Written; hide Char;
    hide Second; hide Third; hide SecondAlone; hide ThirdAlone;
    var len, i, p := |str|, 0, 0;
    EncodedLength(str);
    StartWritten(dest[..], str);
    while i < len - 2
      invariant 0 <= i <= len && i % 3 == 0 && p == i / 3 * 4 && Written(dest[..], p, str, i)
      invariant forall k | p <= k < dest.Length :: dest[k] == old(dest[k])
    {
      var t1, t2, t3 := str[i], str[i + 1], str[i + 2];
      ghost var d := dest[..];
      Put(dest, p, E0(t1), E12(Second(t1, t2)), E12(Third(t2, t3)), E12(t3));
      WrittenMore(d, dest[..], p, str, i);
      i, p := i + 3, p + 4;
    }
    ghost var d := dest[..];
    if len - i == 1 {
      var t1 := str[i];
      Put(dest, p, E0(t1), E12(SecondAlone(t1)), PAD, PAD);
      p := p + 4;
    } else if len - i == 2 {
      var t1, t2 := str[i], str[i + 1];
      Put(dest, p, E0(t1), E12(Second(t1, t2)), E12(ThirdAlone(t2)), PAD);
      p := p + 4;
    }
    WrittenLast(d, dest[..], p, str, i);
    dest[p] := 0;
    ret := p;
  }

  /** The text of the first i bytes is at the start of d, up to p. */
  ghost predicate Written(d: Bytes, p: nat, s: Bytes, i: nat) {
    i <= |s| && p <= |d| && d[..p] == Encoded(s[..i])
  }

  lemma StartWritten(d: Bytes, s: Bytes)
    ensures Written(d, 0, s, 0)
  {
  }

  lemma WrittenMore(d: Bytes, d': Bytes, p: nat, s: Bytes, i: nat)
    requires i + 3 <= |s| && i % 3 == 0 && Written(d, p, s, i) && p + 4 <= |d'| == |d| && d'[..p] == d[..p]
    requires d'[p] == E0(s[i]) && d'[p + 1] == E12(Second(s[i], s[i + 1]))
    requires d'[p + 2] == E12(Third(s[i + 1], s[i + 2])) && d'[p + 3] == E12(s[i + 2])
    ensures Written(d', p + 4, s, i + 3)
  {
    hide Encoded; hide Group; hide Chars; hide E0; hide E12;
    hide Second; hide Third; hide SecondAlone; hide ThirdAlone;
    TablesAgree(s[i], s[i + 1], s[i + 2]);
    EncodedMore(s, i);
    assert d'[..p + 4] == d'[..p] + [d'[p], d'[p + 1], d'[p + 2], d'[p + 3]];
  }

  /** The last group. */
  lemma WrittenLast(d: Bytes, d': Bytes, p: nat, s: Bytes, i: nat)
    requires |s| - 2 <= i <= |s| && i % 3 == 0 && |d'| == |d|
    requires if i == |s| then Written(d, p, s, i) && d' == d
             else 4 <= p <= |d| && Written(d, p - 4, s, i) && d'[..p - 4] == d[..p - 4]
    requires i < |s| ==> d'[p - 1] == PAD && d'[p - 4] == E0(s[i])
    requires i == |s| - 1 ==> d'[p - 3] == E12(SecondAlone(s[i])) && d'[p - 2] == PAD
    requires i == |s| - 2 ==>
      d'[p - 3] == E12(Second(s[i], s[i + 1])) && d'[p - 2] == E12(ThirdAlone(s[i + 1]))
    ensures p <= |d'| && d'[..p] == Encoded(s)
  {
    hide Encoded; hide Group; hide Chars; hide E0; hide E12;
    hide Second; hide Third; hide SecondAlone; hide ThirdAlone;
    EncodedRest(s, i);
    if i < |s| {
      TablesAgree(s[i], if i == |s| - 1 then 0 else s[i + 1], 0);
      assert d'[..p] == d'[..p - 4] + [d'[p - 4], d'[p - 3], d'[p - 2], d'[p - 1]];
    }
  }

  /** One more group. */
  lemma EncodedMore(s: Bytes, i: nat)
    requires i + 3 <= |s| && i % 3 == 0
    ensures Encoded(s[..i + 3]) == Encoded(s[..i]) + Chars(Group(s[i], s[i + 1], s[i + 2]))
  {
    hide Group; hide Chars;
    var t := s[i..i + 3];
    assert s[..i + 3] == s[..i] + t;
    EncodedJoin(s[..i], t);
    assert t[3..] == [];
    var r := Chars(Group(s[i], s[i + 1], s[i + 2]));
    assert r + [] == r;
  }

  /** The last group, if it is not a whole one. */
  lemma EncodedRest(s: Bytes, i: nat)
    requires |s| - 2 <= i <= |s| && i % 3 == 0
    ensures i == |s| ==> Encoded(s) == Encoded(s[..i])
    ensures i == |s| - 1 ==> Encoded(s) == Encoded(s[..i]) + (Chars(Group(s[i], 0, 0))[..2] + [PAD, PAD])
    ensures i == |s| - 2 ==> Encoded(s) == Encoded(s[..i]) + (Chars(Group(s[i], s[i + 1], 0))[..3] + [PAD])
  {
    hide Group; hide Chars;
    assert s == s[..i] + s[i..];
    EncodedJoin(s[..i], s[i..]);
  }

  // ---------- the decoder ----------

  const BAD_CHAR: bv32 := 0x01FF_FFFF

  /** The tables d0 to d3: where the bits of each of four characters go in a word whose lowest
      byte comes first. */
  function D0(c: bv8): bv32 {
    if InAlphabet(c) then (Value(c) as bv32) << 2 else BAD_CHAR
  }

  function D1(c: bv8): bv32 {
    if InAlphabet(c) then ((Value(c) as bv32) >> 4) | (((Value(c) as bv32) & 15) << 12) else BAD_CHAR
  }

  function D2(c: bv8): bv32 {
    if InAlphabet(c) then (((Value(c) as bv32) >> 2) << 8) | (((Value(c) as bv32) & 3) << 22) else BAD_CHAR
  }

  function D3(c: bv8): bv32 {
    if InAlphabet(c) then (Value(c) as bv32) << 16 else BAD_CHAR
  }

  /** Byte k of a word in memory. */
  function ByteOf(x: bv32, k: nat): bv8
    requires k < 4
  {
    match k
    case 0 => (x & 255) as bv8
    case 1 => ((x >> 8) & 255) as bv8
    case 2 => ((x >> 16) & 255) as bv8
    case 3 => ((x >> 24) & 255) as bv8
  }

  /** Four bytes read as a word. */
  function WordOf(p: bv8, q: bv8, r: bv8, s: bv8): bv32 {
    (p as bv32) | ((q as bv32) << 8) | ((r as bv32) << 16) | ((s as bv32) << 24)
  }

  function Word(s: Bytes, at: nat): bv32
    requires at + 4 <= |s|
  {
    WordOf(s[at], s[at + 1], s[at + 2], s[at + 3])
  }

  function Looked(y: bv32): bv32 {
    D0(ByteOf(y, 0)) | D1(ByteOf(y, 1)) | D2(ByteOf(y, 2)) | D3(ByteOf(y, 3))
  }

  /** The word that the tables make of four sextets. */
  function Packed(p: bv8, q: bv8, r: bv8, s: bv8): bv32 {
    ((p as bv32) << 2) | (((q as bv32) >> 4) | (((q as bv32) & 15) << 12))
    | ((((r as bv32) >> 2) << 8) | (((r as bv32) & 3) << 22)) | ((s as bv32) << 16)
  }

  /** The word looked up is bad exactly if one of the characters is; otherwise its first three
      bytes are those of the group. */
  lemma LookedIs(s: Bytes, at: nat)
    requires at + 4 <= |s|
    ensures var x, t := Looked(Word(s, at)), s[at..at + 4];
      && (x >= BAD_CHAR <==> !AllIn(t))
      && (AllIn(t) ==> Octets(Joined(t)) == [ByteOf(x, 0), ByteOf(x, 1), ByteOf(x, 2)])
  {
    hide Looked; hide WordOf; hide ByteOf; hide Octets; hide Join; hide InAlphabet; hide Value; hide Packed;
    var t := s[at..at + 4];
    LookedWord(t[0], t[1], t[2], t[3]);
    if AllIn(t) {
      Alphabet(0, t[0]);
      Alphabet(0, t[1]);
      Alphabet(0, t[2]);
      Alphabet(0, t[3]);
      PackedBytes(Value(t[0]), Value(t[1]), Value(t[2]), Value(t[3]));
    }
  }

  lemma LookedWord(p: bv8, q: bv8, r: bv8, s: bv8)
    ensures var x := Looked(WordOf(p, q, r, s));
      if InAlphabet(p) && InAlphabet(q) && InAlphabet(r) && InAlphabet(s)
      then x == Packed(Value(p), Value(q), Value(r), Value(s))
      else x >= BAD_CHAR
  {
    hide WordOf; hide ByteOf; hide InAlphabet; hide Value;
    WordBytes(p, q, r, s);
    Bad(D0(p), D1(q), D2(r), D3(s));
  }

  lemma WordBytes(p: bv8, q: bv8, r: bv8, s: bv8)
    ensures var y := WordOf(p, q, r, s);
      ByteOf(y, 0) == p && ByteOf(y, 1) == q && ByteOf(y, 2) == r && ByteOf(y, 3) == s
  {
  }

  lemma PackedBytes(p: bv8, q: bv8, r: bv8, s: bv8)
    requires p < 64 && q < 64 && r < 64 && s < 64
    ensures var x := Packed(p, q, r, s);
      x < 0x0100_0000 && Octets(Join(p, q, r, s)) == [ByteOf(x, 0), ByteOf(x, 1), ByteOf(x, 2)]
  {
  }

  lemma Bad(p: bv32, q: bv32, r: bv32, s: bv32)
    ensures p == BAD_CHAR || q == BAD_CHAR || r == BAD_CHAR || s == BAD_CHAR ==> p | q | r | s >= BAD_CHAR
  {
  }

  /** Store a word: four bytes, the lowest first. */
  method Store(dest: array<bv8>, p: nat, x: bv32)
    requires p + 4 <= dest.Length
    modifies dest
    ensures dest[..p] == old(dest[..p])
    ensures dest[p] == ByteOf(x, 0) && dest[p + 1] == ByteOf(x, 1) && dest[p + 2] == ByteOf(x, 2)
    ensures forall k | p + 4 <= k < dest.Length :: dest[k] == old(dest[k])
  {
    dest[p], dest[p + 1], dest[p + 2], dest[p + 3] := ByteOf(x, 0), ByteOf(x, 1), ByteOf(x, 2), ByteOf(x, 3);
  }

  lemma {:induction false} DecodedBad(s: Bytes, i: nat)
    requires 4 * i + 4 <= |s| && !AllIn(s[4 * i..4 * i + 4])
    ensures Decoded(s).None?
  {
    var a, t := s[..4 * i], s[4 * i..];
    assert s == a + t;
    DecodedJoin(a, t);
    assert t[..4] == s[4 * i..4 * i + 4];
    FirstFour(t);
  }

  lemma {:induction false} DecodedMore(s: Bytes, i: nat)
    requires 4 * i + 4 <= |s| && AllIn(s[4 * i..4 * i + 4]) && Decoded(s[..4 * i]).Some?
    ensures Decoded(s[..4 * i + 4]) == Some(Decoded(s[..4 * i]).value + Octets(Joined(s[4 * i..4 * i + 4])))
  {
    var a, t := s[..4 * i], s[4 * i..4 * i + 4];
    assert s[..4 * i + 4] == a + t;
    DecodedJoin(a, t);
    var o := Octets(Joined(t));
    assert t[4..] == [] && o + [] == o;
  }

  /** The first i groups of s are decoded into d. */
  ghost predicate Done(d: Bytes, s: Bytes, i: nat) {
    4 * i <= |s| && 3 * i <= |d| && Decoded(s[..4 * i]) == Some(d[..3 * i])
  }

  lemma DoneMore(d: Bytes, d': Bytes, s: Bytes, i: nat, x: bv32)
    requires Done(d, s, i) && 4 * i + 4 <= |s| && x == Looked(Word(s, 4 * i)) && x < BAD_CHAR
    requires |d'| == |d| && 3 * i + 3 <= |d| && d'[..3 * i] == d[..3 * i]
    requires d'[3 * i] == ByteOf(x, 0) && d'[3 * i + 1] == ByteOf(x, 1) && d'[3 * i + 2] == ByteOf(x, 2)
    ensures Done(d', s, i + 1)
  {
    hide Decoded; hide Looked; hide ByteOf; hide Joined; hide Octets; hide AllIn; hide WordOf;
    LookedIs(s, 4 * i);
    DecodedMore(s, i);
    assert d'[..3 * i + 3] == d'[..3 * i] + [ByteOf(x, 0), ByteOf(x, 1), ByteOf(x, 2)];
  }

  lemma NotDone(s: Bytes, i: nat)
    requires 4 * i + 4 <= |s| && Looked(Word(s, 4 * i)) >= BAD_CHAR
    ensures Decoded(s).None?
  {
    LookedIs(s, 4 * i);
    DecodedBad(s, i);
  }

  lemma AllDone(d: Bytes, s: Bytes, i: nat)
    requires Done(d, s, i) && |s| == 4 * i
    ensures Decoded(s) == Some(d[..3 * i]) && |Decoded(s).value| == 3 * i
  {
    assert s[..4 * i] == s;
  }

  /** Decode: -1 for what is not accepted, otherwise the number of bytes.  A word is stored for
      every group but the last one, so each store runs one byte into the place of the next
      group; none reaches past the place of the last. */
  method Decode(dest: array<bv8>, src: Bytes) returns (ret: int)
    requires dest.Length >= |src| / 4 * 3
    modifies dest
    ensures ret == if Decoded(src).Some? then |Decoded(src).value| else -1
    ensures Decoded(src).Some? ==> ret <= dest.Length && dest[..ret] == Decoded(src).value
    ensures forall k | |src| / 4 * 3 <= k < dest.Length :: dest[k] == old(dest[k])
  {
    hide Decoded; hide Looked; hide ByteOf; hide Word; hide Done;
    var len := |src|;
    var leftover := len % 4;
    var chunks := if leftover == 0 then len / 4 - 1 else len / 4;
    DecodedEnds(dest[..], src);
    if len == 0 {
      return 0;
    }
    if len < 4 || len % 4 != 0 {
      return -1;
    }
    if src[len - 1] == PAD {
      len := len - 1;
      if src[len - 1] == PAD {
        len := len - 1;
      }
    }
    var i, p, y := 0, 0, Word(src, 0);
    while i < chunks
      invariant 0 <= i <= chunks && p == 3 * i && y == Word(src, 4 * i) && Done(dest[..], src, i)
      invariant forall k | |src| / 4 * 3 <= k < dest.Length :: dest[k] == old(dest[k])
    {
      var x := Looked(y);
      if x >= BAD_CHAR {
        NotDone(src, i);
        return -1;
      }
      ghost var d := dest[..];
      Store(dest, p, x);
      DoneMore(d, dest[..], src, i, x);
      i, p := i + 1, p + 3;
      y := Word(src, 4 * i);
    }
    var x := Looked(y);
    if x >= BAD_CHAR {
      NotDone(src, i);
      return -1;
    }
    ghost var d := dest[..];
    dest[p] := ByteOf(x, 0);
    dest[p + 1] := ByteOf(x, 1);
    dest[p + 2] := ByteOf(x, 2);
    DoneMore(d, dest[..], src, i, x);
    AllDone(dest[..], src, i + 1);
    ret := (chunks + 1) * 3;
  }

  lemma DecodedEnds(d: Bytes, s: Bytes)
    ensures Decoded([]) == Some([]) && Done(d, s, 0)
    ensures |s| % 4 != 0 ==> Decoded(s).None?
  {
    DecodedLength(s);
  }
}
