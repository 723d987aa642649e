/** Big-endian byte strings, as the bytecode builder pushes them. */
module Bytes {
  import opened Words

  type Byte = b: nat | b < 256

  function Power256(n: nat): (p: nat)
    ensures p > 0
  {
    if n == 0 then 1 else 256 * Power256(n - 1)
  }

  /** The number a big-endian byte string denotes. */
  function FromBytes(s: seq<Byte>): nat {
    if s == [] then 0 else FromBytes(s[..|s| - 1]) * 256 + s[|s| - 1]
  }

  /** The big-endian string of a number in a fixed width (`to_be_bytes`). */
  function FixedBytes(v: nat, width: nat): (s: seq<Byte>)
    ensures |s| == width
  {
    if width == 0 then [] else FixedBytes(v / 256, width - 1) + [v % 256]
  }

  /** The shortest non-empty big-endian string of a number. */
  function MinBytes(v: nat): (s: seq<Byte>)
    ensures |s| > 0
    ensures v > 0 ==> s[0] != 0
  {
    if v < 256 then [v] else MinBytes(v / 256) + [v % 256]
  }

  /** What the leading-zero loop leaves of a byte string. */
  function Trimmed(s: seq<Byte>): seq<Byte> {
    if s != [] && s[0] == 0 then Trimmed(s[1..]) else s
  }

  lemma {:induction false} FromFixedBytes(v: nat, width: nat)
    requires v < Power256(width)
    ensures FromBytes(FixedBytes(v, width)) == v
  {
    if width > 0 {
      FromFixedBytes(v / 256, width - 1);
      var s := FixedBytes(v, width);
      assert s[..|s| - 1] == FixedBytes(v / 256, width - 1);
    }
  }

  lemma {:induction false} FromMinBytes(v: nat)
    ensures FromBytes(MinBytes(v)) == v
  {
    if v < 256 {
      assert MinBytes(v)[..0] == [];
    } else {
      FromMinBytes(v / 256);
      var s := MinBytes(v);
      assert s[..|s| - 1] == MinBytes(v / 256);
    }
  }

  lemma {:induction false} FromBytesBound(s: seq<Byte>)
    ensures FromBytes(s) < Power256(|s|)
  {
    if s != [] {
      FromBytesBound(s[..|s| - 1]);
    }
  }

  lemma {:induction false} MinBytesWidth(v: nat, width: nat)
    requires v < Power256(width) && width > 0
    ensures |MinBytes(v)| <= width
  {
    if v >= 256 {
      assert width > 1 by { assert Power256(1) == 256 * Power256(0); }
      MinBytesWidth(v / 256, width - 1);
    }
  }

  lemma {:induction false} Power256Sum(i: nat, j: nat)
    ensures Power256(i + j) == Power256(i) * Power256(j)
    decreases i
  {
    if i > 0 {
      Power256Sum(i - 1, j);
      assert Power256(i + j) == 256 * Power256(i - 1 + j);
    }
  }

  lemma WordPowers()
    ensures Power256(2) == 0x1_0000
    ensures Power256(8) == 0x1_0000_0000_0000_0000
    ensures Power256(32) == WORD_MODULUS
  {
    assert Power256(1) == 256 * Power256(0);
    Power256Sum(1, 1);
    Power256Sum(2, 2);
    Power256Sum(4, 4);
    Power256Sum(8, 8);
    assert Power256(16) == 0x1_0000_0000_0000_0000_0000_0000_0000_0000;
    Power256Sum(16, 16);
  }

  /** A word fits in 32 bytes. */
  lemma WordWidth(w: Word)
    ensures 1 <= |MinBytes(w)| <= 32
  {
    WordPowers();
    MinBytesWidth(w, 32);
  }

  lemma {:induction false} TrimLeadingZero(s: seq<Byte>)
    requires s != [] && s[0] == 0
    ensures FromBytes(s[1..]) == FromBytes(s)
  {
    if |s| > 1 {
      var init := s[..|s| - 1];
      TrimLeadingZero(init);
      assert s[1..][..|s[1..]| - 1] == init[1..];
    } else {
      assert s[..0] == [] && s[1..] == [];
    }
  }

  lemma {:induction false} TrimKeepsValue(s: seq<Byte>)
    ensures FromBytes(Trimmed(s)) == FromBytes(s)
  {
    if s != [] && s[0] == 0 {
      TrimLeadingZero(s);
      TrimKeepsValue(s[1..]);
    }
  }

  lemma {:induction false} LeadingNonzero(s: seq<Byte>)
    requires s != [] && s[0] != 0
    ensures FromBytes(s) > 0 && MinBytes(FromBytes(s)) == s
  {
    var init := s[..|s| - 1];
    if |s| == 1 {
      assert init == [];
      assert FromBytes(s) == s[0];
    } else {
      LeadingNonzero(init);
      assert FromBytes(s) / 256 == FromBytes(init);
      assert FromBytes(s) % 256 == s[|s| - 1];
      assert FromBytes(s) >= 256;
      assert s == init + [s[|s| - 1]];
    }
  }

  /**
   * Trimming picks the minimal width: what a push keeps of a byte string is
   * exactly the shortest string of the same value, with one zero byte for zero.
   */
  lemma TrimIsMinimal(s: seq<Byte>)
    ensures MinBytes(FromBytes(s)) == if Trimmed(s) == [] then [0] else Trimmed(s)
  {
    TrimKeepsValue(s);
    TrimHead(s);
    if Trimmed(s) == [] {
      assert FromBytes([]) == 0;
    } else {
      LeadingNonzero(Trimmed(s));
    }
  }

  lemma {:induction false} TrimHead(s: seq<Byte>)
    ensures Trimmed(s) != [] ==> Trimmed(s)[0] != 0
  {
    if s != [] && s[0] == 0 {
      TrimHead(s[1..]);
    }
  }
}
