/**
 * Base64 (core/src/base64.cpp), as section 4 of RFC 4648 defines it: three bytes
 * are one group of 24 bits, which is written as four digits of six bits.
 */
module Base64 {
  import opened Arith
  import opened Lists

  /** An unsigned char: a byte, a digit, or the code of a character. */
  type Octet = bv8

  const PAD: Octet := 61

  /** The character of a digit: A to Z, a to z, 0 to 9, + and /. */
  function Char(d: Octet): Octet {
    if d < 26 then 65 + d
    else if d < 52 then 71 + d
    else if d < 62 then d - 4
    else if d == 62 then 43
    else 47
  }

  predicate IsBase64(c: Octet) {
    65 <= c <= 90 || 97 <= c <= 122 || 48 <= c <= 57 || c == 43 || c == 47
  }

  /** The position of a character in the alphabet, and 0xff, what is left of npos, when it is not there. */
  function Find(c: Octet): Octet {
    if 65 <= c <= 90 then c - 65
    else if 97 <= c <= 122 then c - 71
    else if 48 <= c <= 57 then c + 4
    else if c == 43 then 62
    else if c == 47 then 63
    else 0xff
  }

  lemma FindChar(d: Octet)
    requires d < 64
    ensures IsBase64(Char(d)) && Char(d) != PAD && Find(Char(d)) == d
  {}

  /*
   * The alphabet
   */

  /** base64_chars: Table 1 of RFC 4648. */
  const TABLE: string := "ABCDEFGHIJKLMNOPQRSTUVWXYZ" + "abcdefghijklmnopqrstuvwxyz" + "0123456789+/"

  lemma Upper(i: nat)
    requires i < 26
    ensures "ABCDEFGHIJKLMNOPQRSTUVWXYZ"[i] as int == 65 + i
  {}

  lemma Lower(i: nat)
    requires i < 26
    ensures "abcdefghijklmnopqrstuvwxyz"[i] as int == 97 + i
  {}

  lemma Others(i: nat)
    requires i < 12
    ensures "0123456789+/"[i] as int == if i < 10 then 48 + i else if i == 10 then 43 else 47
  {}

  /** The character of a digit is the entry of the table with that number. */
  lemma InTable(d: Octet)
    requires d < 64
    ensures |TABLE| == 64 && TABLE[d as int] as int == Char(d) as int
  {
    var i := d as int;
    if i < 26 {
      Upper(i);
    } else if i < 52 {
      Lower(i - 26);
    } else {
      Others(i - 52);
    }
  }

  /** The characters of the alphabet are those of the table, and the value of each is its position there. */
  lemma ValueInTable(c: Octet)
    ensures IsBase64(c) <==> Find(c) < 64
    ensures IsBase64(c) ==> |TABLE| == 64 && TABLE[Find(c) as int] as int == c as int
    ensures !IsBase64(c) ==> forall d: Octet :: d < 64 ==> Char(d) != c
  {
    if IsBase64(c) {
      InTable(Find(c));
    } else {
      forall d: Octet | d < 64
        ensures Char(d) != c
      {
        FindChar(d);
      }
    }
  }

  /*
   * Bits
   */

  /** The bits of a byte, the highest first. */
  function Eight(x: Octet): (r: seq<bool>)
    ensures |r| == 8
  {
    [x & 0x80 != 0, x & 0x40 != 0, x & 0x20 != 0, x & 0x10 != 0, x & 8 != 0, x & 4 != 0, x & 2 != 0, x & 1 != 0]
  }

  /** The bits of a digit. */
  function Six(d: Octet): (r: seq<bool>)
    ensures |r| == 6
  {
    [d & 0x20 != 0, d & 0x10 != 0, d & 8 != 0, d & 4 != 0, d & 2 != 0, d & 1 != 0]
  }

  function ByteBits(bytes: seq<Octet>): seq<bool> {
    Flatten(Map(Eight, bytes))
  }

  function DigitBits(digits: seq<Octet>): seq<bool> {
    Flatten(Map(Six, digits))
  }

  /** The positions of characters in the table. */
  function Values(s: seq<Octet>): (r: seq<Octet>)
    ensures |r| == |s| && forall i :: 0 <= i < |s| ==> r[i] == Find(s[i])
  {
    seq(|s|, i requires 0 <= i < |s| => Find(s[i]))
  }

  function Zeros(n: nat): (r: seq<bool>)
    ensures |r| == n
  {
    seq(n, _ => false)
  }

  /** Only characters of the alphabet. */
  ghost predicate Good(s: seq<Octet>) {
    forall j :: 0 <= j < |s| ==> s[j] != PAD && IsBase64(s[j])
  }

  /** How many characters an encoding has before the padding. */
  function Characters(n: nat): nat {
    (4 * n + 2) / 3
  }

  /**
   * Characters of the table, and padding to groups of four; the bits of the
   * positions of the characters in the table are the bits of the bytes, with
   * zeros to fill the last one.
   */
  ghost predicate IsEncoding(text: seq<Octet>, bytes: seq<Octet>) {
    var n := Characters(|bytes|);
    && n <= |text| == 4 * ((|bytes| + 2) / 3) && 0 <= 6 * n - 8 * |bytes| < 6
    && Good(text[..n]) && (forall j :: n <= j < |text| ==> text[j] == PAD)
    && DigitBits(Values(text[..n])) == ByteBits(bytes) + Zeros(6 * n - 8 * |bytes|)
  }

  /**
   * The n characters before the first that is not in the table; the bits of
   * their positions in the table, as many as make whole bytes.
   */
  ghost predicate IsDecoding(bytes: seq<Octet>, s: seq<Octet>, n: nat) {
    && n <= |s| && Good(s[..n]) && (n < |s| ==> s[n] == PAD || !IsBase64(s[n]))
    && |bytes| == 6 * n / 8 && 8 * |bytes| <= |DigitBits(Values(s[..n]))|
    && ByteBits(bytes) == DigitBits(Values(s[..n]))[..8 * |bytes|]
  }

  /*
   * What the standard says
   */

  /** The group of 24 bits that three bytes make. */
  function Group(a: Octet, b: Octet, c: Octet): bv24 {
    ((a as bv24) << 16) | ((b as bv24) << 8) | (c as bv24)
  }

  /** The four digits of a group, the first one from the highest bits. */
  function Digits(g: bv24): (r: seq<Octet>)
    ensures |r| == 4 && forall i :: 0 <= i < 4 ==> r[i] < 64
  {
    [((g >> 18) & 0x3f) as Octet, ((g >> 12) & 0x3f) as Octet, ((g >> 6) & 0x3f) as Octet, (g & 0x3f) as Octet]
  }

  function Chars(digits: seq<Octet>): (r: seq<Octet>)
    ensures |r| == |digits| && forall i :: 0 <= i < |digits| ==> r[i] == Char(digits[i])
  {
    seq(|digits|, i requires 0 <= i < |digits| => Char(digits[i]))
  }

  /** The first k whole groups of three bytes, written down. */
  function Groups(bytes: seq<Octet>, k: nat): (r: seq<Octet>)
    requires 3 * k <= |bytes|
    ensures |r| == 4 * k
  {
    if k == 0 then [] else
      Groups(bytes, k - 1) + Chars(Digits(Group(bytes[3 * k - 3], bytes[3 * k - 2], bytes[3 * k - 1])))
  }

  /** One or two bytes at the end: zero bits are added, and the missing digits are replaced by padding. */
  function Final(bytes: seq<Octet>): seq<Octet>
    requires |bytes| < 3
  {
    if |bytes| == 0 then []
    else if |bytes| == 1 then Chars(Digits(Group(bytes[0], 0, 0))[..2]) + [PAD, PAD]
    else Chars(Digits(Group(bytes[0], bytes[1], 0))[..3]) + [PAD]
  }

  function Encoded(bytes: seq<Octet>): seq<Octet> {
    var k := |bytes| / 3;
    Groups(bytes, k) + Final(bytes[3 * k..])
  }

  /** The group that four digits make. */
  function Joined(p: Octet, q: Octet, r: Octet, s: Octet): bv24 {
    ((p as bv24) << 18) | ((q as bv24) << 12) | ((r as bv24) << 6) | (s as bv24)
  }

  /** The three bytes of a group. */
  function Bytes(g: bv24): (r: seq<Octet>)
    ensures |r| == 3
  {
    [((g >> 16) & 0xff) as Octet, ((g >> 8) & 0xff) as Octet, (g & 0xff) as Octet]
  }

  /** How many characters from position i on are of the alphabet. */
  function Accepted(s: seq<Octet>, i: nat): (r: nat)
    requires i <= |s|
    ensures i + r <= |s| && forall j :: i <= j < i + r ==> s[j] != PAD && IsBase64(s[j])
    ensures i + r < |s| ==> s[i + r] == PAD || !IsBase64(s[i + r])
    decreases |s| - i
  {
    if i == |s| || s[i] == PAD || !IsBase64(s[i]) then 0 else 1 + Accepted(s, i + 1)
  }

  /** The bytes of the first k groups of four characters. */
  function Ungrouped(s: seq<Octet>, k: nat): (r: seq<Octet>)
    requires 4 * k <= |s|
    ensures |r| == 3 * k
  {
    if k == 0 then [] else
      Ungrouped(s, k - 1)
      + Bytes(Joined(Find(s[4 * k - 4]), Find(s[4 * k - 3]), Find(s[4 * k - 2]), Find(s[4 * k - 1])))
  }

  /** Up to three characters at the end give one byte less than there are characters. */
  function Rest(s: seq<Octet>): seq<Octet>
    requires |s| < 4
  {
    if |s| < 2 then []
    else Bytes(Joined(Find(s[0]), Find(s[1]), if |s| == 3 then Find(s[2]) else 0, 0))[..|s| - 1]
  }

  /** Decoding stops at the first character that is not of the alphabet. */
  function Decoded(s: seq<Octet>): seq<Octet> {
    var n := Accepted(s, 0);
    var k := n / 4;
    Ungrouped(s, k) + Rest(s[4 * k..n])
  }

  /*
   * The loops
   */

  /** The digits as the loop computes them, from single bytes. */
  function Sliced(a: Octet, b: Octet, c: Octet): seq<Octet> {
    [(a & 0xfc) >> 2, ((a & 0x03) << 4) + ((b & 0xf0) >> 4), ((b & 0x0f) << 2) + ((c & 0xc0) >> 6), c & 0x3f]
  }

  lemma SlicedIs(a: Octet, b: Octet, c: Octet)
    ensures Sliced(a, b, c) == Digits(Group(a, b, c))
  {}

  /** char_array_4 from char_array_3. */
  method ToDigits(three: array<Octet>, four: array<Octet>)
    requires three.Length == 3 && four.Length == 4
    modifies four
    ensures four[0] == (three[0] & 0xfc) >> 2
    ensures four[1] == ((three[0] & 0x03) << 4) + ((three[1] & 0xf0) >> 4)
    ensures four[2] == ((three[1] & 0x0f) << 2) + ((three[2] & 0xc0) >> 6)
    ensures four[3] == three[2] & 0x3f
  {
    four[0] := (three[0] & 0xfc) >> 2;
    four[1] := ((three[0] & 0x03) << 4) + ((three[1] & 0xf0) >> 4);
    four[2] := ((three[1] & 0x0f) << 2) + ((three[2] & 0xc0) >> 6);
    four[3] := three[2] & 0x3f;
  }

  method EncodeBytes(bytes: seq<Octet>) returns (ret: seq<Octet>)
    ensures ret == Encoded(bytes)
  {
    var three, four := new Octet[3](_ => 0), new Octet[4](_ => 0);
    var i;
    ghost var k;
    ret, i, k := EncodeGroups(bytes, three, four);
    DivModUnique(|bytes|, 3, k, i);
    if i > 0 {
      assert three[..i] == bytes[3 * k..];
      var chars := FinalGroup(three, four, i);
      ret := ret + chars;
    } else {
      assert bytes[3 * k..] == [];
    }
  }

  /** base64_encode */
  method Encode(bytes: seq<Octet>) returns (ret: seq<Octet>)
    ensures ret == Encoded(bytes) && IsEncoding(ret, bytes)
  {
    ret := EncodeBytes(bytes);
    EncodedBits(bytes);
  }

  /** The first k groups are written. */
  ghost predicate EncodedTo(ret: seq<Octet>, bytes: seq<Octet>, k: nat) {
    3 * k <= |bytes| && ret == Groups(bytes, k)
  }

  /** The loop over the bytes: i of them are left in char_array_3. */
  method EncodeGroups(bytes: seq<Octet>, three: array<Octet>, four: array<Octet>)
    returns (ret: seq<Octet>, i: nat, ghost k: nat)
    requires three.Length == 3 && four.Length == 4 && three != four
    modifies three, four
    ensures i < 3 && |bytes| == 3 * k + i && EncodedTo(ret, bytes, k) && three[..i] == bytes[3 * k..]
  {
    ret, i, k := [], 0, 0;
    ghost var from := 0;
    for at := 0 to |bytes|
      invariant i < 3 && from == 3 * k && at == from + i
      invariant three[..i] == bytes[from..at]
      invariant EncodedTo(ret, bytes, k)
    {
      three[i] := bytes[at];
      i := i + 1;
      assert three[..i] == bytes[from..at + 1];
      if i == 3 {
        ret := NextGroup(three, four, ret, bytes, k);
        k, from := k + 1, at + 1;
        i := 0;
      }
    }
  }

  /** Three bytes are there: their characters are appended. */
  method NextGroup(three: array<Octet>, four: array<Octet>, ret: seq<Octet>, ghost bytes: seq<Octet>, ghost k: nat)
    returns (more: seq<Octet>)
    requires three.Length == 3 && four.Length == 4 && three != four
    requires 3 * k + 3 <= |bytes| && three[..3] == bytes[3 * k..3 * k + 3] && EncodedTo(ret, bytes, k)
    modifies four
    ensures EncodedTo(more, bytes, k + 1)
  {
    var chars := WholeGroup(three, four);
    assert three[0] == three[..3][0] && three[1] == three[..3][1] && three[2] == three[..3][2];
    more := ret + chars;
  }

  method WholeGroup(three: array<Octet>, four: array<Octet>) returns (chars: seq<Octet>)
    requires three.Length == 3 && four.Length == 4
    modifies four
    ensures chars == Chars(Digits(Group(three[0], three[1], three[2])))
  {
    ToDigits(three, four);
    SlicedIs(three[0], three[1], three[2]);
    assert four[..] == [four[0], four[1], four[2], four[3]];
    chars := Chars(four[..]);
  }

  /** The end of the input: zero bytes are put in, and the digits that only they make are not written. */
  method FinalGroup(three: array<Octet>, four: array<Octet>, i: nat) returns (chars: seq<Octet>)
    requires three.Length == 3 && four.Length == 4 && 1 <= i < 3 && three != four
    modifies three, four
    ensures three[..i] == old(three[..i])
    ensures chars == Final(old(three[..i]))
  {
    for j := i to 3
      invariant three[..i] == old(three[..i])
      invariant forall m :: i <= m < j ==> three[m] == 0
    {
      three[j] := 0;
    }
    assert three[0] == three[..i][0] && (i == 2 ==> three[1] == three[..i][1]);
    chars := WholeGroup(three, four);
    chars := chars[..i + 1];
    for j := i to 3
      invariant chars == Chars(Digits(Group(three[0], three[1], three[2])))[..i + 1] + seq(j - i, _ => PAD)
    {
      chars := chars + [PAD];
    }
    CharsPrefix(Digits(Group(three[0], three[1], three[2])), i + 1);
    assert seq(3 - i, _ => PAD) == if i == 1 then [PAD, PAD] else [PAD];
  }

  lemma CharsPrefix(digits: seq<Octet>, n: nat)
    requires n <= |digits|
    ensures Chars(digits)[..n] == Chars(digits[..n])
  {}

  /** char_array_3 from char_array_4, which is overwritten by the positions of its first n characters. */
  method ToBytes(four: array<Octet>, three: array<Octet>, n: nat)
    requires three.Length == 3 && four.Length == 4 && n <= 4
    modifies four, three
    ensures forall j :: 0 <= j < n ==> four[j] == Find(old(four[j]))
    ensures forall j :: n <= j < 4 ==> four[j] == old(four[j])
    ensures three[0] == (four[0] << 2) + ((four[1] & 0x30) >> 4)
    ensures three[1] == ((four[1] & 0xf) << 4) + ((four[2] & 0x3c) >> 2)
    ensures three[2] == ((four[2] & 0x3) << 6) + four[3]
  {
    for j := 0 to n
      invariant forall m :: 0 <= m < j ==> four[m] == Find(old(four[m]))
      invariant forall m :: j <= m < 4 ==> four[m] == old(four[m])
    {
      four[j] := Find(four[j]);
    }
    three[0] := (four[0] << 2) + ((four[1] & 0x30) >> 4);
    three[1] := ((four[1] & 0xf) << 4) + ((four[2] & 0x3c) >> 2);
    three[2] := ((four[2] & 0x3) << 6) + four[3];
  }

  lemma BytesAre(p: Octet, q: Octet, r: Octet, s: Octet)
    requires p < 64 && q < 64 && r < 64 && s < 64
    ensures Bytes(Joined(p, q, r, s))
            == [(p << 2) + ((q & 0x30) >> 4), ((q & 0xf) << 4) + ((r & 0x3c) >> 2), ((r & 0x3) << 6) + s]
  {}

  lemma FindSmall(c: Octet)
    requires IsBase64(c)
    ensures Find(c) < 64
  {}

  lemma FirstByte(p: Octet, q: Octet, r: Octet, s: Octet)
    requires p < 64 && q < 64 && r < 64 && s < 64
    ensures Bytes(Joined(p, q, r, s))[0] == Bytes(Joined(p, q, 0, 0))[0]
  {}

  lemma SecondByte(p: Octet, q: Octet, r: Octet, s: Octet)
    requires p < 64 && q < 64 && r < 64 && s < 64
    ensures Bytes(Joined(p, q, r, s))[1] == Bytes(Joined(p, q, r, 0))[1]
  {}

  lemma FirstBytes(p: Octet, q: Octet, r: Octet, s: Octet)
    requires p < 64 && q < 64 && r < 64 && s < 64
    ensures Bytes(Joined(p, q, r, s))[..1] == Bytes(Joined(p, q, 0, 0))[..1]
    ensures Bytes(Joined(p, q, r, s))[..2] == Bytes(Joined(p, q, r, 0))[..2]
  {
    FirstByte(p, q, r, s);
    FirstByte(p, q, r, 0);
    SecondByte(p, q, r, s);
  }

  method DecodeString(s: seq<Octet>) returns (ret: seq<Octet>)
    ensures ret == Decoded(s)
  {
    var three, four := new Octet[3](_ => 0), new Octet[4](_ => 0);
    var i;
    ghost var k;
    ret, i, k := DecodeGroups(s, four, three);
    AcceptedIs(s, 0, 4 * k + i);
    QuarterIs(4 * k + i, k, i);
    ghost var tail := s[4 * k..Accepted(s, 0)];
    if i > 0 {
      AllAccepted(s, 4 * k, Accepted(s, 0));
      var bytes := RestBytes(four, three, i, tail);
      ret := ret + bytes;
    } else {
      assert tail == [];
    }
  }

  /** base64_decode */
  method Decode(s: seq<Octet>) returns (ret: seq<Octet>)
    ensures ret == Decoded(s) && IsDecoding(ret, s, Accepted(s, 0))
  {
    ret := DecodeString(s);
    DecodedBits(s);
  }

  /** The first k groups are decoded. */
  ghost predicate DecodedTo(ret: seq<Octet>, s: seq<Octet>, k: nat) {
    4 * k <= |s| && ret == Ungrouped(s, k)
  }

  /** Before character `at`: the first k groups are decoded, and the characters after them are kept. */
  ghost predicate Reading(s: seq<Octet>, kept: seq<Octet>, ret: seq<Octet>, k: nat, at: nat) {
    && at == 4 * k + |kept| <= |s| && |kept| < 4 && Good(s[..at])
    && kept == s[4 * k..at] && DecodedTo(ret, s, k)
  }

  /** The loop over the characters: i of them are left in char_array_4. */
  method DecodeGroups(s: seq<Octet>, four: array<Octet>, three: array<Octet>)
    returns (ret: seq<Octet>, i: nat, ghost k: nat)
    requires three.Length == 3 && four.Length == 4 && three != four
    modifies four, three
    ensures i < 4 && 4 * k + i <= |s| && Good(s[..4 * k + i])
    ensures 4 * k + i == |s| || s[4 * k + i] == PAD || !IsBase64(s[4 * k + i])
    ensures DecodedTo(ret, s, k) && four[..i] == s[4 * k..4 * k + i]
  {
    ret, i, k := [], 0, 0;
    var at := 0;
    while at < |s| && s[at] != PAD && IsBase64(s[at])
      invariant i < 4 && Reading(s, four[..i], ret, k, at)
    {
      ret, i, k := NextChar(s, four, three, ret, i, at, k);
      at := at + 1;
    }
  }

  /** One round of the loop. */
  method NextChar(
    s: seq<Octet>, four: array<Octet>, three: array<Octet>, ret: seq<Octet>, i: nat, at: nat, ghost k: nat)
    returns (more: seq<Octet>, j: nat, ghost groups: nat)
    requires three.Length == 3 && four.Length == 4 && three != four
    requires i < 4 && Reading(s, four[..i], ret, k, at) && at < |s| && s[at] != PAD && IsBase64(s[at])
    modifies four, three
    ensures j < 4 && Reading(s, four[..j], more, groups, at + 1)
  {
    KeepChar(s, four[..i], ret, k, at);
    four[i] := s[at];
    assert four[..i + 1] == s[4 * k..at + 1];
    more, j, groups := ret, i + 1, k;
    if j == 4 {
      more := NextBytes(four, three, ret, s, k, 4 * k, at + 1);
      j, groups := 0, k + 1;
      assert four[..j] == [];
      GroupDone(s, more, k, at + 1);
    }
  }

  lemma KeepChar(s: seq<Octet>, kept: seq<Octet>, ret: seq<Octet>, k: nat, at: nat)
    requires Reading(s, kept, ret, k, at) && at < |s| && s[at] != PAD && IsBase64(s[at])
    ensures Good(s[..at + 1]) && s[4 * k..at + 1] == kept + [s[at]]
    ensures |kept| < 3 ==> Reading(s, s[4 * k..at + 1], ret, k, at + 1)
  {
    GoodMore(s, at);
  }

  lemma GroupDone(s: seq<Octet>, ret: seq<Octet>, k: nat, at: nat)
    requires at == 4 * (k + 1) && at <= |s| && Good(s[..at]) && DecodedTo(ret, s, k + 1)
    ensures Reading(s, [], ret, k + 1, at)
  {}

  lemma GoodMore(s: seq<Octet>, at: nat)
    requires at < |s| && s[at] != PAD && IsBase64(s[at]) && Good(s[..at])
    ensures Good(s[..at + 1])
  {
    assert s[..at + 1] == s[..at] + [s[at]];
  }

  /** Four characters are there: their bytes are appended. */
  method NextBytes(
    four: array<Octet>, three: array<Octet>, ret: seq<Octet>, ghost s: seq<Octet>, ghost k: nat, ghost from: nat,
    ghost at: nat)
    returns (more: seq<Octet>)
    requires three.Length == 3 && four.Length == 4 && three != four && DecodedTo(ret, s, k)
    requires from == 4 * k && at == from + 4 <= |s| && Good(s[..at]) && four[..4] == s[from..at]
    modifies four, three
    ensures DecodedTo(more, s, k + 1)
  {
    AllAccepted(s, from, at);
    var bytes := WholeBytes(four, three, s[from..at]);
    more := ret + bytes;
  }

  /** The values of characters of the alphabet are digits. */
  ghost predicate AreDigits(t: seq<Octet>) {
    forall j :: 0 <= j < |t| ==> Find(t[j]) < 64
  }

  lemma AllAccepted(s: seq<Octet>, from: nat, to: nat)
    requires from <= to <= |s| && Good(s[..to])
    ensures AreDigits(s[from..to])
  {
    forall j | from <= j < to
      ensures Find(s[j]) < 64
    {
      assert s[j] == s[..to][j];
      FindSmall(s[j]);
    }
  }

  method WholeBytes(four: array<Octet>, three: array<Octet>, ghost t: seq<Octet>) returns (bytes: seq<Octet>)
    requires three.Length == 3 && four.Length == 4 && three != four
    requires |t| == 4 && four[..4] == t && AreDigits(t)
    modifies four, three
    ensures bytes == Bytes(Joined(Find(t[0]), Find(t[1]), Find(t[2]), Find(t[3])))
  {
    assert forall j :: 0 <= j < 4 ==> four[j] == four[..4][j];
    ToBytes(four, three, 4);
    bytes := three[..];
    WholeAre(t, four[..], bytes);
  }

  lemma WholeAre(t: seq<Octet>, four: seq<Octet>, three: seq<Octet>)
    requires |t| == |four| == 4 && |three| == 3
    requires forall j :: 0 <= j < 4 ==> four[j] == Find(t[j]) < 64
    requires three[0] == (four[0] << 2) + ((four[1] & 0x30) >> 4)
    requires three[1] == ((four[1] & 0xf) << 4) + ((four[2] & 0x3c) >> 2)
    requires three[2] == ((four[2] & 0x3) << 6) + four[3]
    ensures three == Bytes(Joined(Find(t[0]), Find(t[1]), Find(t[2]), Find(t[3])))
  {
    BytesAre(four[0], four[1], four[2], four[3]);
  }

  /** The end of the input: the digits that are left give one byte less. */
  method RestBytes(four: array<Octet>, three: array<Octet>, i: nat, ghost t: seq<Octet>) returns (bytes: seq<Octet>)
    requires three.Length == 3 && four.Length == 4 && 1 <= i < 4 && three != four
    requires four[..i] == t && AreDigits(t)
    modifies four, three
    ensures bytes == Rest(t)
  {
    assert forall j :: 0 <= j < i ==> four[j] == four[..i][j];
    ToBytes(four, three, i);
    bytes := three[..i - 1];
    RestAre(t, four[..], three[..]);
  }

  lemma RestTwo(t: seq<Octet>, p: Octet, q: Octet, first: Octet)
    requires |t| == 2 && p == Find(t[0]) && q == Find(t[1]) && p < 64 && q < 64
    requires first == (p << 2) + ((q & 0x30) >> 4)
    ensures Rest(t) == [first]
  {
    BytesAre(p, q, 0, 0);
  }

  lemma RestThree(t: seq<Octet>, p: Octet, q: Octet, r: Octet, first: Octet, second: Octet)
    requires |t| == 3 && p == Find(t[0]) && q == Find(t[1]) && r == Find(t[2]) && p < 64 && q < 64 && r < 64
    requires first == (p << 2) + ((q & 0x30) >> 4) && second == ((q & 0xf) << 4) + ((r & 0x3c) >> 2)
    ensures Rest(t) == [first, second]
  {
    BytesAre(p, q, r, 0);
  }

  /** What the digits after the last one are makes no difference. */
  lemma RestAre(t: seq<Octet>, four: seq<Octet>, three: seq<Octet>)
    requires 1 <= |t| < 4 && |four| == 4 && |three| == 3
    requires forall j :: 0 <= j < |t| ==> four[j] == Find(t[j]) < 64
    requires three[0] == (four[0] << 2) + ((four[1] & 0x30) >> 4)
    requires three[1] == ((four[1] & 0xf) << 4) + ((four[2] & 0x3c) >> 2)
    ensures three[..|t| - 1] == Rest(t)
  {
    if |t| == 2 {
      RestTwo(t, four[0], four[1], three[0]);
    } else if |t| == 3 {
      RestThree(t, four[0], four[1], four[2], three[0], three[1]);
    }
  }

  /*
   * The round trip
   */

  lemma JoinDigits(g: bv24)
    ensures var d := Digits(g); Joined(d[0], d[1], d[2], d[3]) == g
  {}

  lemma GroupBytes(a: Octet, b: Octet, c: Octet)
    ensures Bytes(Group(a, b, c)) == [a, b, c]
  {}

  /** Every character but the padding is of the alphabet. */
  lemma {:induction false} GroupsAccepted(bytes: seq<Octet>, k: nat)
    requires 3 * k <= |bytes|
    ensures Good(Groups(bytes, k))
  {
    if k > 0 {
      GroupsAccepted(bytes, k - 1);
      CharsAccepted(Digits(Group(bytes[3 * k - 3], bytes[3 * k - 2], bytes[3 * k - 1])));
    }
  }

  lemma CharsAccepted(digits: seq<Octet>)
    requires forall j :: 0 <= j < |digits| ==> digits[j] < 64
    ensures Good(Chars(digits)) && forall j :: 0 <= j < |digits| ==> Find(Chars(digits)[j]) == digits[j]
  {
    forall j | 0 <= j < |digits|
      ensures IsBase64(Chars(digits)[j]) && Chars(digits)[j] != PAD && Find(Chars(digits)[j]) == digits[j]
    {
      FindChar(digits[j]);
    }
  }

  lemma {:induction false} AcceptedIs(s: seq<Octet>, i: nat, n: nat)
    requires i <= n <= |s| && Good(s[..n])
    requires n == |s| || s[n] == PAD || !IsBase64(s[n])
    ensures i + Accepted(s, i) == n
    decreases n - i
  {
    if i < n {
      assert s[i] == s[..n][i];
      AcceptedIs(s, i + 1, n);
    }
  }

  lemma AcceptedPart(good: seq<Octet>, pads: seq<Octet>)
    requires Good(good) && forall j :: 0 <= j < |pads| ==> pads[j] == PAD
    ensures Accepted(good + pads, 0) == |good|
  {
    assert (good + pads)[..|good|] == good;
    AcceptedIs(good + pads, 0, |good|);
  }

  /** Decoding a written group gives its bytes. */
  lemma GroupDecodes(a: Octet, b: Octet, c: Octet)
    ensures var t := Chars(Digits(Group(a, b, c)));
            Bytes(Joined(Find(t[0]), Find(t[1]), Find(t[2]), Find(t[3]))) == [a, b, c]
  {
    CharsAccepted(Digits(Group(a, b, c)));
    JoinDigits(Group(a, b, c));
    GroupBytes(a, b, c);
  }

  lemma {:induction false} GroupsDecode(bytes: seq<Octet>, k: nat, s: seq<Octet>)
    requires 3 * k <= |bytes| && 4 * k <= |s| && s[..4 * k] == Groups(bytes, k)
    ensures Ungrouped(s, k) == bytes[..3 * k]
  {
    if k > 0 {
      GroupsBefore(bytes, k, s);
      GroupsDecode(bytes, k - 1, s);
      LastGroup(bytes, k, s);
      GroupDecodes(bytes[3 * k - 3], bytes[3 * k - 2], bytes[3 * k - 1]);
      ThreeMore(bytes, 3 * (k - 1));
    }
  }

  lemma GroupsBefore(bytes: seq<Octet>, k: nat, s: seq<Octet>)
    requires k > 0 && 3 * k <= |bytes| && 4 * k <= |s| && s[..4 * k] == Groups(bytes, k)
    ensures s[..4 * (k - 1)] == Groups(bytes, k - 1)
  {
    assert s[..4 * (k - 1)] == s[..4 * k][..4 * (k - 1)];
  }

  lemma ThreeMore(bytes: seq<Octet>, n: nat)
    requires n + 3 <= |bytes|
    ensures bytes[..n + 3] == bytes[..n] + [bytes[n], bytes[n + 1], bytes[n + 2]]
  {}

  lemma LastGroup(bytes: seq<Octet>, k: nat, s: seq<Octet>)
    requires k > 0 && 3 * k <= |bytes| && 4 * k <= |s| && s[..4 * k] == Groups(bytes, k)
    ensures var t := Chars(Digits(Group(bytes[3 * k - 3], bytes[3 * k - 2], bytes[3 * k - 1])));
            s[4 * k - 4] == t[0] && s[4 * k - 3] == t[1] && s[4 * k - 2] == t[2] && s[4 * k - 1] == t[3]
  {
    var g := s[..4 * k];
    assert s[4 * k - 4] == g[4 * k - 4] && s[4 * k - 3] == g[4 * k - 3];
    assert s[4 * k - 2] == g[4 * k - 2] && s[4 * k - 1] == g[4 * k - 1];
  }

  /** The characters of the alphabet at the end of an encoding. */
  function FinalChars(bytes: seq<Octet>): seq<Octet>
    requires |bytes| < 3
  {
    if |bytes| == 0 then [] else Chars(Digits(Group(bytes[0], if |bytes| == 2 then bytes[1] else 0, 0))[..|bytes| + 1])
  }

  function Pads(bytes: seq<Octet>): (r: seq<Octet>)
    requires |bytes| < 3
    ensures |r| == (3 - |bytes|) % 3 && forall j :: 0 <= j < |r| ==> r[j] == PAD
  {
    if |bytes| == 0 then [] else if |bytes| == 1 then [PAD, PAD] else [PAD]
  }

  lemma FinalIs(bytes: seq<Octet>)
    requires |bytes| < 3
    ensures Final(bytes) == FinalChars(bytes) + Pads(bytes)
    ensures Good(FinalChars(bytes)) && |FinalChars(bytes)| == if |bytes| == 0 then 0 else |bytes| + 1
  {
    if |bytes| > 0 {
      CharsAccepted(Digits(Group(bytes[0], if |bytes| == 2 then bytes[1] else 0, 0))[..|bytes| + 1]);
    }
  }

  lemma FinalDecodes(bytes: seq<Octet>)
    requires |bytes| < 3
    ensures Rest(FinalChars(bytes)) == bytes
  {
    if |bytes| > 0 {
      var b := if |bytes| == 2 then bytes[1] else 0;
      var d := Digits(Group(bytes[0], b, 0));
      CharsAccepted(d[..|bytes| + 1]);
      JoinDigits(Group(bytes[0], b, 0));
      GroupBytes(bytes[0], b, 0);
      FirstBytes(d[0], d[1], d[2], d[3]);
    }
  }

  /** How much of an encoding is not padding. */
  lemma EncodedAccepted(bytes: seq<Octet>, k: nat, tail: seq<Octet>)
    requires |bytes| == 3 * k + |tail| && |tail| < 3 && tail == bytes[3 * k..]
    ensures Encoded(bytes) == (Groups(bytes, k) + FinalChars(tail)) + Pads(tail)
    ensures Accepted(Encoded(bytes), 0) == 4 * k + |FinalChars(tail)|
  {
    DivModUnique(|bytes|, 3, k, |tail|);
    GroupsAccepted(bytes, k);
    FinalIs(tail);
    AcceptedPart(Groups(bytes, k) + FinalChars(tail), Pads(tail));
  }

  /** An encoding is as long as the standard says, and has padding at its end only. */
  lemma EncodedShape(bytes: seq<Octet>)
    ensures |Encoded(bytes)| == 4 * ((|bytes| + 2) / 3)
    ensures var pads := (3 - |bytes| % 3) % 3;
            && pads <= |Encoded(bytes)| && Accepted(Encoded(bytes), 0) == |Encoded(bytes)| - pads
            && forall j :: |Encoded(bytes)| - pads <= j < |Encoded(bytes)| ==> Encoded(bytes)[j] == PAD
  {
    var k := |bytes| / 3;
    var tail := bytes[3 * k..];
    EncodedAccepted(bytes, k, tail);
    FinalIs(tail);
    ThirdUp(|bytes|, k, |tail|);
  }

  lemma ThirdUp(n: nat, k: nat, t: nat)
    requires n == 3 * k + t && t < 3
    ensures (n + 2) / 3 == k + (if t == 0 then 0 else 1) && n % 3 == t
  {}

  lemma PartsDecode(bytes: seq<Octet>, k: nat, s: seq<Octet>, n: nat)
    requires 3 * k <= |bytes| < 3 * k + 3 && n == 4 * k + |FinalChars(bytes[3 * k..])| <= |s|
    requires s[..4 * k] == Groups(bytes, k) && s[4 * k..n] == FinalChars(bytes[3 * k..])
    ensures Ungrouped(s, k) + Rest(s[4 * k..n]) == bytes
  {
    GroupsDecode(bytes, k, s);
    FinalDecodes(bytes[3 * k..]);
    assert bytes == bytes[..3 * k] + bytes[3 * k..];
  }

  lemma QuarterIs(n: nat, k: nat, i: nat)
    requires n == 4 * k + i && i < 4
    ensures n / 4 == k
  {}

  /** Decoding an encoding gives the bytes back, for every number of bytes. */
  lemma RoundTrip(bytes: seq<Octet>)
    ensures Decoded(Encoded(bytes)) == bytes
  {
    var k := |bytes| / 3;
    var n := 4 * k + |FinalChars(bytes[3 * k..])|;
    EncodedAccepted(bytes, k, bytes[3 * k..]);
    FinalIs(bytes[3 * k..]);
    QuarterIs(n, k, |FinalChars(bytes[3 * k..])|);
    PartsDecode(bytes, k, Encoded(bytes), n);
  }

  /*
   * Where the bits go
   */

  lemma FirstDigit(a: Octet)
    ensures Six((a & 0xfc) >> 2) == Eight(a)[..6]
  {}

  lemma SecondDigit(a: Octet, b: Octet)
    ensures Six(((a & 0x03) << 4) + ((b & 0xf0) >> 4)) == Eight(a)[6..] + Eight(b)[..4]
  {}

  lemma ThirdDigit(b: Octet, c: Octet)
    ensures Six(((b & 0x0f) << 2) + ((c & 0xc0) >> 6)) == Eight(b)[4..] + Eight(c)[..2]
  {}

  lemma FourthDigit(c: Octet)
    ensures Six(c & 0x3f) == Eight(c)[2..]
  {}

  lemma Halves(x: seq<bool>, i: nat)
    requires i <= |x|
    ensures x[..i] + x[i..] == x
  {}

  /** Up to four pieces, put together. */
  lemma {:induction false} Pieces(f: Octet -> seq<bool>, d: seq<Octet>)
    requires |d| <= 4
    ensures |d| == 0 ==> Flatten(Map(f, d)) == []
    ensures |d| == 1 ==> Flatten(Map(f, d)) == f(d[0])
    ensures |d| == 2 ==> Flatten(Map(f, d)) == f(d[0]) + f(d[1])
    ensures |d| == 3 ==> Flatten(Map(f, d)) == f(d[0]) + f(d[1]) + f(d[2])
    ensures |d| == 4 ==> Flatten(Map(f, d)) == f(d[0]) + f(d[1]) + f(d[2]) + f(d[3])
    decreases |d|
  {
    if |d| > 0 {
      var n := |d| - 1;
      Pieces(f, d[..n]);
      FlattenMapSnoc(f, d[..n], d[n]);
      assert d == d[..n] + [d[n]];
    }
  }

  /** Four pieces of six are three of eight. */
  lemma Regroup(p: seq<bool>, q: seq<bool>, r: seq<bool>, s: seq<bool>, a: seq<bool>, b: seq<bool>, c: seq<bool>)
    requires |a| == |b| == |c| == 8
    requires p == a[..6] && q == a[6..] + b[..4] && r == b[4..] + c[..2] && s == c[2..]
    ensures p + q + r + s == a + b + c && p + q == a + b[..4] && p + q + r == a + b + c[..2]
  {
    Halves(a, 6);
    Halves(b, 4);
    Halves(c, 2);
    assert p + q == (a[..6] + a[6..]) + b[..4];
    assert p + q + r == a + (b[..4] + b[4..]) + c[..2];
    assert p + q + r + s == a + b + (c[..2] + c[2..]);
  }

  /** The bits of the four digits of a group are those of its three bytes. */
  lemma GroupBits(a: Octet, b: Octet, c: Octet, d: seq<Octet>)
    requires d == Sliced(a, b, c)
    ensures DigitBits(d) == Eight(a) + Eight(b) + Eight(c)
    ensures DigitBits(d[..2]) == Eight(a) + Eight(b)[..4]
    ensures DigitBits(d[..3]) == Eight(a) + Eight(b) + Eight(c)[..2]
  {
    FirstDigit(a);
    SecondDigit(a, b);
    ThirdDigit(b, c);
    FourthDigit(c);
    Pieces(Six, d);
    Pieces(Six, d[..2]);
    Pieces(Six, d[..3]);
    Regroup(Six(d[0]), Six(d[1]), Six(d[2]), Six(d[3]), Eight(a), Eight(b), Eight(c));
  }

  lemma DigitsBits(a: Octet, b: Octet, c: Octet)
    ensures var d := Digits(Group(a, b, c));
            && DigitBits(d) == Eight(a) + Eight(b) + Eight(c)
            && DigitBits(d[..2]) == Eight(a) + Eight(b)[..4]
            && DigitBits(d[..3]) == Eight(a) + Eight(b) + Eight(c)[..2]
  {
    SlicedIs(a, b, c);
    GroupBits(a, b, c, Digits(Group(a, b, c)));
  }

  lemma ValuesConcat(a: seq<Octet>, b: seq<Octet>)
    ensures Values(a + b) == Values(a) + Values(b)
  {}

  lemma ValuesOfChars(digits: seq<Octet>)
    requires forall j :: 0 <= j < |digits| ==> digits[j] < 64
    ensures Values(Chars(digits)) == digits
  {
    CharsAccepted(digits);
  }

  lemma {:induction false} GroupsBits(bytes: seq<Octet>, k: nat)
    requires 3 * k <= |bytes|
    ensures DigitBits(Values(Groups(bytes, k))) == ByteBits(bytes[..3 * k])
  {
    if k == 0 {
      assert bytes[..0] == [];
    } else {
      GroupsBits(bytes, k - 1);
      OneMoreGroup(bytes, k, Groups(bytes, k - 1));
    }
  }

  lemma OneMoreGroup(bytes: seq<Octet>, k: nat, before: seq<Octet>)
    requires k > 0 && 3 * k <= |bytes| && DigitBits(Values(before)) == ByteBits(bytes[..3 * (k - 1)])
    ensures DigitBits(Values(before + Chars(Digits(Group(bytes[3 * k - 3], bytes[3 * k - 2], bytes[3 * k - 1])))))
            == ByteBits(bytes[..3 * k])
  {
    var a, b, c := bytes[3 * k - 3], bytes[3 * k - 2], bytes[3 * k - 1];
    var d := Digits(Group(a, b, c));
    ValuesConcat(before, Chars(d));
    ValuesOfChars(d);
    FlattenMapConcat(Six, Values(before), d);
    DigitsBits(a, b, c);
    Pieces(Eight, [a, b, c]);
    ThreeMore(bytes, 3 * (k - 1));
    FlattenMapConcat(Eight, bytes[..3 * (k - 1)], [a, b, c]);
  }

  lemma NoBits()
    ensures Eight(0)[..4] == Zeros(4) && Eight(0)[..2] == Zeros(2)
  {}

  lemma FinalBits(tail: seq<Octet>)
    requires |tail| < 3
    ensures |tail| > 0 ==> |FinalChars(tail)| == |tail| + 1
    ensures DigitBits(Values(FinalChars(tail)))
            == ByteBits(tail) + Zeros(if |tail| == 0 then 0 else if |tail| == 1 then 4 else 2)
  {
    NoBits();
    Pieces(Eight, tail);
    if |tail| == 1 {
      DigitsBits(tail[0], 0, 0);
      ValuesOfChars(Digits(Group(tail[0], 0, 0))[..2]);
    } else if |tail| == 2 {
      DigitsBits(tail[0], tail[1], 0);
      ValuesOfChars(Digits(Group(tail[0], tail[1], 0))[..3]);
    }
  }

  lemma AllBits(
    front: seq<Octet>, tail: seq<Octet>, groups: seq<Octet>, last: seq<Octet>, zeros: seq<bool>)
    requires DigitBits(Values(groups)) == ByteBits(front) && DigitBits(Values(last)) == ByteBits(tail) + zeros
    ensures DigitBits(Values(groups + last)) == ByteBits(front + tail) + zeros
  {
    ValuesConcat(groups, last);
    FlattenMapConcat(Six, Values(groups), Values(last));
    FlattenMapConcat(Eight, front, tail);
  }

  /** The characters of an encoding before the padding. */
  lemma EncodedText(bytes: seq<Octet>, k: nat, tail: seq<Octet>)
    requires |bytes| == 3 * k + |tail| && |tail| < 3 && tail == bytes[3 * k..]
    ensures var n := Characters(|bytes|);
            && n == 4 * k + |FinalChars(tail)| <= |Encoded(bytes)|
            && Encoded(bytes)[..n] == Groups(bytes, k) + FinalChars(tail)
            && Good(Groups(bytes, k) + FinalChars(tail))
            && 6 * n - 8 * |bytes| == if |tail| == 0 then 0 else if |tail| == 1 then 4 else 2
  {
    EncodedAccepted(bytes, k, tail);
    FinalIs(tail);
    GroupsAccepted(bytes, k);
  }

  lemma TextBits(bytes: seq<Octet>, k: nat, tail: seq<Octet>, zeros: nat)
    requires |bytes| == 3 * k + |tail| && |tail| < 3 && tail == bytes[3 * k..]
    requires zeros == if |tail| == 0 then 0 else if |tail| == 1 then 4 else 2
    ensures DigitBits(Values(Groups(bytes, k) + FinalChars(tail))) == ByteBits(bytes) + Zeros(zeros)
  {
    GroupsBits(bytes, k);
    FinalBits(tail);
    assert bytes[..3 * k] + tail == bytes;
    AllBits(bytes[..3 * k], tail, Groups(bytes, k), FinalChars(tail), Zeros(zeros));
  }

  lemma EncodedBits(bytes: seq<Octet>)
    ensures IsEncoding(Encoded(bytes), bytes)
  {
    var k := |bytes| / 3;
    EncodedText(bytes, k, bytes[3 * k..]);
    TextBits(bytes, k, bytes[3 * k..], 6 * Characters(|bytes|) - 8 * |bytes|);
    EncodedShape(bytes);
    PaddingLeft(|bytes|, |Encoded(bytes)|);
  }

  lemma PaddingLeft(n: nat, length: nat)
    requires length == 4 * ((n + 2) / 3)
    ensures length - (3 - n % 3) % 3 == Characters(n)
  {
    var k, t := n / 3, n % 3;
    ThirdUp(n, k, t);
    DivModUnique(4 * n + 2, 3, 4 * k + (if t == 0 then 0 else t + 1), if t == 0 then 2 else if t == 1 then 0 else 1);
  }

  lemma FirstByteBits(p: Octet, q: Octet, r: Octet, s: Octet)
    requires p < 64 && q < 64 && r < 64 && s < 64
    ensures Eight(((Joined(p, q, r, s) >> 16) & 0xff) as Octet) == Six(p) + Six(q)[..2]
  {}

  lemma SecondByteHigh(p: Octet, q: Octet, r: Octet, s: Octet)
    requires p < 64 && q < 64 && r < 64 && s < 64
    ensures Eight(((Joined(p, q, r, s) >> 8) & 0xff) as Octet)[..4] == Six(q)[2..]
  {}

  lemma SecondByteLow(p: Octet, q: Octet, r: Octet, s: Octet)
    requires p < 64 && q < 64 && r < 64 && s < 64
    ensures Eight(((Joined(p, q, r, s) >> 8) & 0xff) as Octet)[4..] == Six(r)[..4]
  {}

  lemma SecondByteBits(p: Octet, q: Octet, r: Octet, s: Octet)
    requires p < 64 && q < 64 && r < 64 && s < 64
    ensures Eight(((Joined(p, q, r, s) >> 8) & 0xff) as Octet) == Six(q)[2..] + Six(r)[..4]
  {
    SecondByteHigh(p, q, r, s);
    SecondByteLow(p, q, r, s);
    Halves(Eight(((Joined(p, q, r, s) >> 8) & 0xff) as Octet), 4);
  }

  lemma ThirdByteHigh(p: Octet, q: Octet, r: Octet, s: Octet)
    requires p < 64 && q < 64 && r < 64 && s < 64
    ensures Eight((Joined(p, q, r, s) & 0xff) as Octet)[..2] == Six(r)[4..]
  {}

  lemma ThirdByteLow(p: Octet, q: Octet, r: Octet, s: Octet)
    requires p < 64 && q < 64 && r < 64 && s < 64
    ensures Eight((Joined(p, q, r, s) & 0xff) as Octet)[2..] == Six(s)
  {}

  lemma ThirdByteBits(p: Octet, q: Octet, r: Octet, s: Octet)
    requires p < 64 && q < 64 && r < 64 && s < 64
    ensures Eight((Joined(p, q, r, s) & 0xff) as Octet) == Six(r)[4..] + Six(s)
  {
    ThirdByteHigh(p, q, r, s);
    ThirdByteLow(p, q, r, s);
    Halves(Eight((Joined(p, q, r, s) & 0xff) as Octet), 2);
  }

  /** The bits of the three bytes that four digits make. */
  lemma BytesBits(p: Octet, q: Octet, r: Octet, s: Octet)
    requires p < 64 && q < 64 && r < 64 && s < 64
    ensures var x := Bytes(Joined(p, q, r, s));
            && Eight(x[0]) == Six(p) + Six(q)[..2] && Eight(x[1]) == Six(q)[2..] + Six(r)[..4]
            && Eight(x[2]) == Six(r)[4..] + Six(s)
  {
    FirstByteBits(p, q, r, s);
    SecondByteBits(p, q, r, s);
    ThirdByteBits(p, q, r, s);
  }

  /** Three pieces of eight are four of six. */
  lemma Degroup(x: seq<bool>, y: seq<bool>, z: seq<bool>, p: seq<bool>, q: seq<bool>, r: seq<bool>, s: seq<bool>)
    requires |p| == |q| == |r| == |s| == 6
    requires x == p + q[..2] && y == q[2..] + r[..4] && z == r[4..] + s
    ensures x + y + z == p + q + r + s && x == (p + q)[..8] && x + y == (p + q + r)[..16]
  {
    Halves(q, 2);
    Halves(r, 4);
    assert x + y == p + (q[..2] + q[2..]) + r[..4];
    assert x + y + z == p + q + (r[..4] + r[4..]) + s;
  }

  lemma WholeGroupBits(p: Octet, q: Octet, r: Octet, s: Octet, x: seq<Octet>)
    requires p < 64 && q < 64 && r < 64 && s < 64 && x == Bytes(Joined(p, q, r, s))
    ensures ByteBits(x) == Six(p) + Six(q) + Six(r) + Six(s)
    ensures ByteBits(x[..1]) == (Six(p) + Six(q))[..8] && ByteBits(x[..2]) == (Six(p) + Six(q) + Six(r))[..16]
  {
    BytesBits(p, q, r, s);
    Pieces(Eight, x);
    Pieces(Eight, x[..1]);
    Pieces(Eight, x[..2]);
    Degroup(Eight(x[0]), Eight(x[1]), Eight(x[2]), Six(p), Six(q), Six(r), Six(s));
  }

  lemma {:induction false} UngroupedBits(s: seq<Octet>, k: nat)
    requires 4 * k <= |s| && AreDigits(s[..4 * k])
    ensures ByteBits(Ungrouped(s, k)) == DigitBits(Values(s[..4 * k]))
  {
    if k == 0 {
      assert Values(s[..0]) == [];
    } else {
      assert s[..4 * k] == s[..4 * (k - 1)] + s[4 * (k - 1)..4 * k];
      UngroupedBits(s, k - 1);
      OneMoreUngrouped(s, k, Ungrouped(s, k - 1));
    }
  }

  lemma OneMoreUngrouped(s: seq<Octet>, k: nat, before: seq<Octet>)
    requires k > 0 && 4 * k <= |s| && AreDigits(s[..4 * k])
    requires ByteBits(before) == DigitBits(Values(s[..4 * (k - 1)]))
    ensures ByteBits(before
              + Bytes(Joined(Find(s[4 * k - 4]), Find(s[4 * k - 3]), Find(s[4 * k - 2]), Find(s[4 * k - 1]))))
            == DigitBits(Values(s[..4 * k]))
  {
    var t := s[..4 * k];
    var p, q, r, u := Find(s[4 * k - 4]), Find(s[4 * k - 3]), Find(s[4 * k - 2]), Find(s[4 * k - 1]);
    assert t[4 * k - 4] == s[4 * k - 4] && t[4 * k - 3] == s[4 * k - 3];
    assert t[4 * k - 2] == s[4 * k - 2] && t[4 * k - 1] == s[4 * k - 1];
    WholeGroupBits(p, q, r, u, Bytes(Joined(p, q, r, u)));
    Pieces(Six, [p, q, r, u]);
    FlattenMapConcat(Eight, before, Bytes(Joined(p, q, r, u)));
    assert Values(t) == Values(s[..4 * (k - 1)]) + [p, q, r, u];
    FlattenMapConcat(Six, Values(s[..4 * (k - 1)]), [p, q, r, u]);
  }

  lemma RestBits(t: seq<Octet>)
    requires |t| < 4 && AreDigits(t)
    ensures |Rest(t)| == 6 * |t| / 8 && 8 * |Rest(t)| <= |DigitBits(Values(t))|
    ensures ByteBits(Rest(t)) == DigitBits(Values(t))[..8 * |Rest(t)|]
  {
    Pieces(Six, Values(t));
    if |t| == 2 {
      WholeGroupBits(Find(t[0]), Find(t[1]), 0, 0, Bytes(Joined(Find(t[0]), Find(t[1]), 0, 0)));
    } else if |t| == 3 {
      WholeGroupBits(Find(t[0]), Find(t[1]), Find(t[2]), 0, Bytes(Joined(Find(t[0]), Find(t[1]), Find(t[2]), 0)));
    }
  }

  /** Whole groups, and what follows them. */
  lemma PartsBits(u: seq<Octet>, r: seq<Octet>, v: seq<Octet>, w: seq<Octet>)
    requires ByteBits(u) == DigitBits(v) && |DigitBits(v)| == 8 * |u|
    requires 8 * |r| <= |DigitBits(w)| && ByteBits(r) == DigitBits(w)[..8 * |r|]
    ensures 8 * |u + r| <= |DigitBits(v + w)| && ByteBits(u + r) == DigitBits(v + w)[..8 * |u + r|]
  {
    FlattenMapConcat(Eight, u, r);
    FlattenMapConcat(Six, v, w);
  }

  lemma DecodedBits(s: seq<Octet>)
    ensures IsDecoding(Decoded(s), s, Accepted(s, 0))
  {
    var n := Accepted(s, 0);
    var k := n / 4;
    AllAccepted(s, 0, n);
    assert s[0..n] == s[..n] == s[..4 * k] + s[4 * k..n];
    AllAccepted(s, 0, 4 * k);
    assert s[0..4 * k] == s[..4 * k];
    UngroupedBits(s, k);
    FlattenEven(Six, Values(s[..4 * k]), 6);
    AllAccepted(s, 4 * k, n);
    RestBits(s[4 * k..n]);
    ValuesConcat(s[..4 * k], s[4 * k..n]);
    PartsBits(Ungrouped(s, k), Rest(s[4 * k..n]), Values(s[..4 * k]), Values(s[4 * k..n]));
  }
}
