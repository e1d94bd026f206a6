/** Big-endian integers of any width. */
module Wire {
  import opened Base

  function Pow256(k: nat): nat { if k == 0 then 1 else 256 * Pow256(k - 1) }

  /** The `k`-byte big-endian form of `n`. */
  function BE(n: nat, k: nat): (s: seq<byte>)
    requires n < Pow256(k)
    ensures |s| == k
    decreases k
  {
    if k == 0 then [] else BE(n / 256, k - 1) + [n % 256]
  }

  function FromBE(s: seq<byte>): nat {
    if s == [] then 0 else 256 * FromBE(s[..|s| - 1]) + s[|s| - 1]
  }

  lemma {:induction false} FromBEBound(s: seq<byte>)
    ensures FromBE(s) < Pow256(|s|)
  {
    if s != [] {
      FromBEBound(s[..|s| - 1]);
    }
  }

  lemma {:induction false} DecodeEncode(n: nat, k: nat)
    requires n < Pow256(k)
    ensures FromBE(BE(n, k)) == n
    decreases k
  {
    if k > 0 {
      DecodeEncode(n / 256, k - 1);
      assert BE(n, k)[..k - 1] == BE(n / 256, k - 1);
    }
  }

  lemma {:induction false} EncodeDecode(s: seq<byte>)
    ensures FromBE(s) < Pow256(|s|) && BE(FromBE(s), |s|) == s
  {
    FromBEBound(s);
    if s != [] {
      EncodeDecode(s[..|s| - 1]);
    }
  }

  lemma Widths()
    ensures Pow256(1) == 0x100 && Pow256(2) == 0x1_0000 && Pow256(4) == 0x1_0000_0000
  {
    assert Pow256(1) == 256 && Pow256(2) == 256 * 256 && Pow256(3) == 256 * 256 * 256;
  }

  /** The first byte is the most significant one. */
  lemma {:induction false} FirstIsMostSignificant(s: seq<byte>)
    requires s != []
    ensures FromBE(s) == s[0] * Pow256(|s| - 1) + FromBE(s[1..])
  {
    if |s| == 1 {
      assert s[..0] == [] && s[1..] == [] && FromBE(s[..0]) == 0;
    } else {
      var front, k := s[..|s| - 1], |s| - 2;
      FirstIsMostSignificant(front);
      assert front[1..] == s[1..][..k] && s[1..][k] == s[|s| - 1];
      assert FromBE(s[1..]) == 256 * FromBE(front[1..]) + s[|s| - 1];
      ScaleBy256(s[0], Pow256(k));
    }
  }

  lemma ScaleBy256(b: int, p: int)
    ensures 256 * (b * p) == b * (256 * p)
  {
  }

  lemma TwoBytes(n: nat)
    requires n < 0x1_0000
    ensures n < Pow256(2) && BE(n, 2) == [n / 256, n % 256]
  {
    Widths();
    assert BE(n / 256, 1) == BE(n / 256 / 256, 0) + [n / 256 % 256];
  }

  lemma FourBytes(n: nat)
    requires n < 0x1_0000_0000
    ensures n < Pow256(4) && BE(n, 4) == [n / 256 / 256 / 256, n / 256 / 256 % 256, n / 256 % 256, n % 256]
  {
    Widths();
    var m := n / 256;
    var l := m / 256;
    assert l < 0x1_0000;
    TwoBytes(l);
    assert Pow256(3) == 256 * Pow256(2);
    assert BE(m, 3) == BE(l, 2) + [m % 256];
    assert BE(n, 4) == BE(m, 3) + [n % 256];
  }
}
