/**
 * The array tags around the parts of a response (MessagePack specification,
 * "array format family"), parsed by hand in core/src/decoder.cpp because the
 * array they open is not complete yet.
 */
module ArrayTag {
  import opened Geometry

  type Byte = x: int | 0 <= x < 256

  datatype Parsed = Insufficient | BadTag | Tag(len: int, nread: nat)

  function Net16(net: seq<Byte>): (r: nat)
    requires |net| >= 2
    ensures r < 0x1_0000
  {
    var a: int, b: int := net[0], net[1];
    a * 0x100 + b
  }

  function Net32(net: seq<Byte>): (r: nat)
    requires |net| >= 4
    ensures r < INT_RANGE
  {
    var a: int, b: int, c: int, d: int := net[0], net[1], net[2], net[3];
    d + c * 0x100 + b * 0x1_0000 + a * 0x100_0000
  }

  /** The first four bits of a fixarray tag are 1001; the length is an int in every case. */
  function ParseArrayLen(input: seq<Byte>): (r: Parsed)
    ensures r.Tag? ==> 0 < r.nread <= |input|
  {
    if |input| < 1 then Insufficient
    else if input[0] / 16 == 9 then Tag(input[0] % 16, 1)
    else if input[0] == 0xDC then
      if |input| < 3 then Insufficient else Tag(Net16(input[1..]), 3)
    else if input[0] == 0xDD then
      if |input| < 5 then Insufficient else Tag(ToInt(Net32(input[1..])), 5)
    else BadTag
  }

  /** The packer's side: the shortest tag that holds the length. */
  function PackArray(n: nat): (r: seq<Byte>)
    requires n < INT_RANGE
    ensures |r| > 0
  {
    if n < 16 then [0x90 + n]
    else if n < 0x1_0000 then [0xDC, n / 0x100, n % 0x100]
    else [0xDD, n / 0x100_0000, n / 0x1_0000 % 0x100, n / 0x100 % 0x100, n % 0x100]
  }

  /** The three tags of an array, byte by byte; a length with its highest bit set is negative. */
  lemma TagBytes(input: seq<Byte>)
    requires |input| > 0
    ensures 0x90 <= input[0] <= 0x9F ==> ParseArrayLen(input) == Tag(input[0] - 0x90, 1)
    ensures input[0] == 0xDC && |input| >= 3 ==>
              var a: int, b: int := input[1], input[2]; ParseArrayLen(input) == Tag(a * 0x100 + b, 3)
    ensures input[0] == 0xDD && |input| >= 5 ==>
              var a: int, b: int, c: int, d: int := input[1], input[2], input[3], input[4];
              var n := a * 0x100_0000 + b * 0x1_0000 + c * 0x100 + d;
              ParseArrayLen(input) == Tag(if n < 0x8000_0000 then n else n - 0x1_0000_0000, 5)
    ensures ParseArrayLen(input) == Insufficient <==>
              (input[0] == 0xDC && |input| < 3) || (input[0] == 0xDD && |input| < 5)
    ensures ParseArrayLen(input) == BadTag <==>
              !(0x90 <= input[0] <= 0x9F) && input[0] != 0xDC && input[0] != 0xDD
  {}

  /** More input never changes what was parsed. */
  lemma ParseStable(a: seq<Byte>, b: seq<Byte>)
    requires !ParseArrayLen(a).Insufficient?
    ensures ParseArrayLen(a + b) == ParseArrayLen(a)
  {
    if |a| >= 3 {
      assert (a + b)[1..][0] == a[1..][0] && (a + b)[1..][1] == a[1..][1];
    }
    if |a| >= 5 {
      assert (a + b)[1..][2] == a[1..][2] && (a + b)[1..][3] == a[1..][3];
    }
  }

  /** The base-256 digits of a 32-bit length put it together again. */
  lemma DigitsOf(n: nat)
    ensures n == n / 0x100_0000 * 0x100_0000 + n / 0x1_0000 % 0x100 * 0x1_0000 + n / 0x100 % 0x100 * 0x100 + n % 0x100
  {
    assert n / 0x1_0000 == n / 0x100_0000 * 0x100 + n / 0x1_0000 % 0x100;
    assert n / 0x100 == n / 0x1_0000 * 0x100 + n / 0x100 % 0x100;
  }

  /** A packed tag reads back, and leaves what follows it untouched. */
  lemma ParsePacked(n: nat, rest: seq<Byte>)
    requires n <= INT_MAX
    ensures ParseArrayLen(PackArray(n) + rest) == Tag(n, |PackArray(n)|)
  {
    var t := PackArray(n);
    assert ParseArrayLen(t) == Tag(n, |t|) by {
      if 16 <= n < 0x1_0000 {
        assert t[1..] == [n / 0x100, n % 0x100];
      } else if 0x1_0000 <= n {
        DigitsOf(n);
        assert t[1..] == [n / 0x100_0000, n / 0x1_0000 % 0x100, n / 0x100 % 0x100, n % 0x100];
      }
    }
    ParseStable(t, rest);
  }

  /** A tag that is cut short consumes nothing. */
  lemma ParseCut(n: nat, k: nat)
    requires n <= INT_MAX && k < |PackArray(n)|
    ensures ParseArrayLen(PackArray(n)[..k]) == Insufficient
  {}
}
