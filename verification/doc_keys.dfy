/** The registry stores documents under the string `user + "-" + docId`.
    This module renders that key and shows that, for non-negative integer
    ids, it determines the pair (user, docId) uniquely, so the rest of the
    model may key documents by the pair itself. For negative ids it does not.
    Likewise the hash index is keyed by the digest's rendering as
    comma-separated decimal bytes, which determines the digest. */
module DocKeys {
  import opened RegistryState

  predicate IsDigitChar(c: char)
  {
    '0' <= c <= '9'
  }

  function Digit(d: nat): (c: char)
    requires d < 10
    ensures IsDigitChar(c)
  {
    (('0' as int) + d) as char
  }

  /** Decimal rendering of a natural number, most significant digit first. */
  function NatToString(n: nat): (s: string)
    ensures 1 <= |s|
    ensures forall i :: 0 <= i < |s| ==> IsDigitChar(s[i])
    ensures n < 10 <==> |s| == 1
    decreases n
  {
    if n < 10 then [Digit(n)] else NatToString(n / 10) + [Digit(n % 10)]
  }

  /** Decimal rendering of an integer as a template literal produces it. */
  function IntToString(i: int): string
  {
    if i < 0 then "-" + NatToString(-i) else NatToString(i)
  }

  /** The string key under which a document of `user` with id `docId` is stored. */
  function KeyString(user: string, docId: int): (k: string)
    ensures |k| == |user| + 1 + |IntToString(docId)|
    ensures k[..|user|] == user && k[|user|] == '-'
  {
    user + "-" + IntToString(docId)
  }

  lemma {:induction false} NatToStringInjective(a: nat, b: nat)
    ensures NatToString(a) == NatToString(b) ==> a == b
    decreases a
  {
    if NatToString(a) == NatToString(b) {
      if a < 10 || b < 10 {
        assert a < 10 && b < 10;
        assert NatToString(a)[0] == Digit(a);
        assert NatToString(b)[0] == Digit(b);
      } else {
        var sa, sb := NatToString(a / 10), NatToString(b / 10);
        assert NatToString(a) == sa + [Digit(a % 10)];
        assert NatToString(b) == sb + [Digit(b % 10)];
        assert |sa| == |sb|;
        assert Digit(a % 10) == NatToString(a)[|sa|] == Digit(b % 10);
        assert sa == NatToString(a)[..|sa|] == sb;
        NatToStringInjective(a / 10, b / 10);
      }
    }
  }

  /** For non-negative ids, equal keys mean the same user and the same id. */
  lemma KeyStringInjective(u1: string, i1: nat, u2: string, i2: nat)
    ensures KeyString(u1, i1) == KeyString(u2, i2) ==> u1 == u2 && i1 == i2
  {
    if KeyString(u1, i1) == KeyString(u2, i2) {
      var k := KeyString(u1, i1);
      var d1, d2 := NatToString(i1), NatToString(i2);
      assert |u1| == |u2|;
      assert u1 == k[..|u1|] == u2;
      assert k == u1 + "-" + d1 == u2 + "-" + d2;
      assert d1 == k[|u1| + 1..] == d2;
      NatToStringInjective(i1, i2);
    }
  }

  /** With a negative id the key is ambiguous: user "a" with id -1 and
      user "a-" with id 1 share the key "a--1". */
  lemma KeyStringCollidesForNegativeIds()
    ensures KeyString("a", -1) == KeyString("a-", 1)
    ensures KeyString("a", -1) == "a--1"
  {
    assert NatToString(1) == "1";
  }

  /** A digest rendered as its bytes in decimal, separated by commas, as
      `Uint8Array.prototype.toString` does. */
  function HashKey(h: seq<byte>): (k: string)
    ensures |h| == 0 <==> |k| == 0
  {
    if |h| == 0 then ""
    else if |h| == 1 then NatToString(h[0] as nat)
    else NatToString(h[0] as nat) + "," + HashKey(h[1..])
  }

  /** Different digests have different renderings, so the index may be keyed
      by the digest itself. */
  lemma {:induction false} HashKeyInjective(h1: seq<byte>, h2: seq<byte>)
    ensures HashKey(h1) == HashKey(h2) ==> h1 == h2
    decreases |h1|
  {
    if HashKey(h1) == HashKey(h2) && |h1| > 0 {
      var k := HashKey(h1);
      var d1, d2 := NatToString(h1[0] as nat), NatToString(h2[0] as nat);
      assert |h2| > 0;
      assert k[..|d1|] == d1 && k[..|d2|] == d2;
      assert |h1| == 1 ==> |k| == |d1|;
      assert |h2| == 1 ==> |k| == |d2|;
      assert |h1| > 1 ==> k[|d1|] == ',';
      assert |h2| > 1 ==> k[|d2|] == ',';
      assert d1 == k[..|d1|] == d2;
      NatToStringInjective(h1[0] as nat, h2[0] as nat);
      if |h1| > 1 && |h2| > 1 {
        assert HashKey(h1[1..]) == k[|d1| + 1..] == HashKey(h2[1..]);
        HashKeyInjective(h1[1..], h2[1..]);
        assert h1 == [h1[0]] + h1[1..] && h2 == [h2[0]] + h2[1..];
      }
    }
  }
}
