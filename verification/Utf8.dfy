/** Text as Unicode scalar values with UTF-8 byte offsets (section 3 of RFC 3629).

    `ByteLen` is the length Rust reports for a string, and an offset is a char boundary when it
    falls between two scalar values or at either end. */
module Utf8 {

  function Width(c: char): (n: nat)
    ensures 1 <= n <= 4
  {
    if c as int < 0x80 then 1 else if c as int < 0x800 then 2 else if c as int < 0x1_0000 then 3 else 4
  }

  /** How many bytes a sequence has that starts with this one, by the table of section 3 of RFC 3629; 0 if none does. */
  function LeadLength(b: nat): nat {
    if b < 0x80 then 1
    else if 0xC0 <= b < 0xE0 then 2
    else if 0xE0 <= b < 0xF0 then 3
    else if 0xF0 <= b < 0xF8 then 4
    else 0
  }

  predicate IsSequence(bytes: seq<nat>) {
    bytes != [] && |bytes| == LeadLength(bytes[0]) && forall i | 1 <= i < |bytes| :: 0x80 <= bytes[i] < 0xC0
  }

  /** The scalar value that a sequence stands for. */
  function Scalar(bytes: seq<nat>): int
    requires IsSequence(bytes)
  {
    match |bytes|
    case 1 => bytes[0]
    case 2 => (bytes[0] - 0xC0) * 64 + (bytes[1] - 0x80)
    case 3 => ((bytes[0] - 0xE0) * 64 + (bytes[1] - 0x80)) * 64 + (bytes[2] - 0x80)
    case _ => (((bytes[0] - 0xF0) * 64 + (bytes[1] - 0x80)) * 64 + (bytes[2] - 0x80)) * 64 + (bytes[3] - 0x80)
  }

  function Encode(c: char): seq<nat> {
    var n := c as int;
    if n < 0x80 then [n]
    else if n < 0x800 then [0xC0 + n / 64, 0x80 + n % 64]
    else if n < 0x1_0000 then [0xE0 + n / 4096, 0x80 + n / 64 % 64, 0x80 + n % 64]
    else [0xF0 + n / 262144, 0x80 + n / 4096 % 64, 0x80 + n / 64 % 64, 0x80 + n % 64]
  }

  /** The width of a character is the length of the sequence that encodes it, and no shorter one does. */
  lemma WidthIsShortest(c: char, bytes: seq<nat>)
    ensures IsSequence(Encode(c)) && Scalar(Encode(c)) == c as int && |Encode(c)| == Width(c)
    ensures IsSequence(bytes) && Scalar(bytes) == c as int ==> |bytes| >= Width(c)
  {
    Encodes(c);
    if IsSequence(bytes) {
      Reach(bytes);
    }
    hide Encode, Scalar, IsSequence;
  }

  lemma Encodes(c: char)
    ensures IsSequence(Encode(c)) && Scalar(Encode(c)) == c as int && |Encode(c)| == Width(c)
  {
    var n := c as int;
    Digits64(n);
    if n >= 0x1_0000 {
      assert n / 262144 < 8;
    }
  }

  lemma Digits64(n: nat)
    ensures n == n / 64 * 64 + n % 64
    ensures n / 64 == n / 4096 * 64 + n / 64 % 64
    ensures n / 4096 == n / 262144 * 64 + n / 4096 % 64
  {
    assert n / 64 / 64 == n / 4096;
    assert n / 4096 / 64 == n / 262144;
  }

  /** How far the shorter sequences reach. */
  lemma Reach(bytes: seq<nat>)
    requires IsSequence(bytes)
    ensures 1 <= |bytes| <= 4
    ensures Scalar(bytes) < if |bytes| == 1 then 0x80 else if |bytes| == 2 then 0x800 else if |bytes| == 3 then 0x1_0000
                            else 0x20_0000
  {
  }

  function ByteLen(s: string): nat {
    if s == [] then 0 else Width(s[0]) + ByteLen(s[1..])
  }

  /** `str::is_char_boundary`. */
  predicate IsBoundary(s: string, offset: nat) {
    if offset == 0 then true
    else if s == [] then false
    else offset >= Width(s[0]) && IsBoundary(s[1..], offset - Width(s[0]))
  }

  /** How many scalar values `&s[..offset]` holds. */
  function IndexAt(s: string, offset: nat): (k: nat)
    requires IsBoundary(s, offset)
    ensures k <= |s| && ByteLen(s[..k]) == offset
  {
    if offset == 0 then 0
    else
      var k := 1 + IndexAt(s[1..], offset - Width(s[0]));
      assert s[..k][1..] == s[1..][..k - 1];
      k
  }

  lemma {:induction false} ByteLenAppend(a: string, b: string)
    ensures ByteLen(a + b) == ByteLen(a) + ByteLen(b)
  {
    if a == [] {
      assert a + b == b;
    } else {
      assert (a + b)[1..] == a[1..] + b;
      ByteLenAppend(a[1..], b);
    }
  }

  lemma ByteLenSplit(s: string, k: nat)
    requires k <= |s|
    ensures ByteLen(s) == ByteLen(s[..k]) + ByteLen(s[k..])
  {
    assert s == s[..k] + s[k..];
    ByteLenAppend(s[..k], s[k..]);
  }

  /** Longer prefixes take strictly more bytes. */
  lemma ByteLenMonotone(s: string, j: nat, k: nat)
    requires j <= k <= |s|
    ensures ByteLen(s[..j]) + (k - j) <= ByteLen(s[..k]) <= ByteLen(s[..j]) + 4 * (k - j)
  {
    assert s[..k] == s[..j] + s[j..k];
    ByteLenAppend(s[..j], s[j..k]);
    ByteLenBounds(s[j..k]);
  }

  lemma {:induction false} ByteLenBounds(s: string)
    ensures |s| <= ByteLen(s) <= 4 * |s|
  {
    if s != [] {
      ByteLenBounds(s[1..]);
    }
  }

  /** The boundaries are exactly the byte lengths of prefixes. */
  lemma {:induction false} BoundaryOfPrefix(s: string, k: nat)
    requires k <= |s|
    ensures IsBoundary(s, ByteLen(s[..k]))
    ensures IndexAt(s, ByteLen(s[..k])) == k
  {
    if k > 0 {
      assert s[..k][1..] == s[1..][..k - 1];
      BoundaryOfPrefix(s[1..], k - 1);
    }
  }

  /** Between an offset inside the text and the next boundary on either side lie at most three bytes. */
  lemma {:induction false} BoundaryNear(s: string, offset: nat)
    requires offset <= ByteLen(s)
    ensures exists b: nat :: b <= offset <= b + 3 && IsBoundary(s, b)
    ensures exists b: nat :: offset <= b <= offset + 3 && b <= ByteLen(s) && IsBoundary(s, b)
  {
    if offset == 0 {
      assert IsBoundary(s, 0);
    } else if offset < Width(s[0]) {
      assert IsBoundary(s, 0);
      BoundaryOfPrefix(s, 1);
      assert ByteLen(s[..1]) == Width(s[0]) by { assert s[..1][1..] == []; }
      ByteLenSplit(s, 1);
      assert IsBoundary(s, Width(s[0]));
    } else {
      var w := Width(s[0]);
      BoundaryNear(s[1..], offset - w);
      var b: nat :| b <= offset - w <= b + 3 && IsBoundary(s[1..], b);
      assert IsBoundary(s, b + w);
      var c: nat :| offset - w <= c <= offset - w + 3 && c <= ByteLen(s[1..]) && IsBoundary(s[1..], c);
      assert IsBoundary(s, c + w);
    }
  }

  // ----- the longest pieces within a byte limit -----

  /** The longest prefix within a limit, read off the text from the front. */
  function LongestPrefix(s: string, limit: nat): string {
    if s == [] || Width(s[0]) > limit then [] else [s[0]] + LongestPrefix(s[1..], limit - Width(s[0]))
  }

  /** The longest suffix within a limit. */
  function LongestSuffix(s: string, limit: nat): string {
    if ByteLen(s) <= limit then s else if s == [] then [] else LongestSuffix(s[1..], limit)
  }

  /** It is a prefix within the limit, no longer prefix is, and at most three bytes stay unused. */
  lemma {:induction false} LongestPrefixIsLongest(s: string, limit: nat)
    ensures var p := LongestPrefix(s, limit);
            && p <= s && ByteLen(p) <= limit
            && (forall k: nat | k <= |s| && ByteLen(s[..k]) <= limit :: k <= |p|)
            && (ByteLen(s) > limit ==> limit <= ByteLen(p) + 3)
            && (ByteLen(s) <= limit ==> p == s)
  {
    var p := LongestPrefix(s, limit);
    if s != [] && Width(s[0]) <= limit {
      LongestPrefixIsLongest(s[1..], limit - Width(s[0]));
      assert p[1..] == LongestPrefix(s[1..], limit - Width(s[0])) && s == [s[0]] + s[1..];
      hide LongestPrefix;
      forall k: nat | k <= |s| && ByteLen(s[..k]) <= limit ensures k <= |p| {
        if k > 0 {
          assert s[..k][1..] == s[1..][..k - 1];
        }
      }
    } else if s != [] {
      forall k: nat | 0 < k <= |s| ensures ByteLen(s[..k]) >= Width(s[0]) {
        assert s[..k][0] == s[0];
      }
    }
  }

  lemma {:induction false} LongestSuffixIsLongest(s: string, limit: nat)
    ensures var p := LongestSuffix(s, limit);
            && |p| <= |s| && p == s[|s| - |p|..] && ByteLen(p) <= limit
            && (forall k: nat | k <= |s| && ByteLen(s[k..]) <= limit :: |s| - k <= |p|)
            && (ByteLen(s) > limit ==> limit <= ByteLen(p) + 3)
  {
    if ByteLen(s) > limit {
      LongestSuffixIsLongest(s[1..], limit);
      assert s[0..] == s;
      forall k: nat | k <= |s| && ByteLen(s[k..]) <= limit ensures |s| - k <= |LongestSuffix(s, limit)| {
        assert k > 0 && s[k..] == s[1..][k - 1..];
      }
    }
  }

  /** Stepping an offset down to a boundary arrives at the longest prefix within it. */
  lemma DownToBoundary(s: string, limit: nat, end: nat)
    requires end <= limit && IsBoundary(s, end)
    requires forall b: nat | end < b <= limit :: !IsBoundary(s, b)
    ensures s[..IndexAt(s, end)] == LongestPrefix(s, limit)
  {
    var k, p := IndexAt(s, end), LongestPrefix(s, limit);
    LongestPrefixIsLongest(s, limit);
    assert p == s[..|p|];
    BoundaryOfPrefix(s, |p|);
    ByteLenMonotone(s, k, |p|);
  }

  /** Stepping an offset up to a boundary arrives at the longest suffix that starts no earlier. */
  lemma UpToBoundary(s: string, limit: nat, start: nat)
    requires limit <= ByteLen(s) && ByteLen(s) - limit <= start && IsBoundary(s, start)
    requires forall b: nat | ByteLen(s) - limit <= b < start :: !IsBoundary(s, b)
    ensures s[IndexAt(s, start)..] == LongestSuffix(s, limit)
  {
    var k, p := IndexAt(s, start), LongestSuffix(s, limit);
    LongestSuffixIsLongest(s, limit);
    var j := |s| - |p|;
    ByteLenSplit(s, j);
    ByteLenSplit(s, k);
    BoundaryOfPrefix(s, j);
    assert |s| - k <= |p|;
    ByteLenMonotone(s, j, k);
  }
}
