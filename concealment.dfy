/**
 * The card concealment codec (`Player.hash` / `Player.unhash`): a private hand is
 * wrapped in a fixed 7-character prefix and a fixed 8-character suffix before it is
 * broadcast, and unwrapped by slicing both off again. It is an obfuscation
 * convention, not encryption: any replica could apply `Unhash` itself.
 */
module Concealment {
  import opened Text

  const Prefix: string := "ad342sf"
  const Suffix: string := "lkdhsr34"

  /** `Player.hash(s)`: the token broadcast in place of the plain hand `s`. */
  function Hash(s: string): (h: string)
    ensures |h| == |Prefix| + |s| + |Suffix|
    ensures h[..|Prefix|] == Prefix && h[|h| - |Suffix|..] == Suffix
  {
    Prefix + s + Suffix
  }

  /** `Player.unhash(h)`, that is `h[7:-8]` with Python slice semantics: a token of
      fewer than 15 characters decodes to the empty string. */
  function Unhash(h: string): (s: string)
    ensures |s| == if |h| >= |Prefix| + |Suffix| then |h| - |Prefix| - |Suffix| else 0
    ensures |h| >= |Prefix| + |Suffix| ==> s == h[|Prefix|..|Prefix| + |s|]
  {
    if |h| >= 15 then h[7..|h| - 8] else ""
  }

  /** Decoding undoes encoding, for every string. */
  lemma UnhashHash(s: string)
    ensures Unhash(Hash(s)) == s
  {
    var h := Hash(s);
    assert h[7..|h| - 8] == s;
  }

  /** So distinct hands never share a token. */
  lemma HashInjective(a: string, b: string)
    ensures Hash(a) == Hash(b) <==> a == b
  {
    if Hash(a) == Hash(b) {
      UnhashHash(a);
      UnhashHash(b);
    }
  }

  /** Encoding undoes decoding exactly on the tokens that carry the prefix and suffix. */
  lemma HashUnhash(h: string)
    ensures Hash(Unhash(h)) == h <==>
              |h| >= |Prefix| + |Suffix| && h[..|Prefix|] == Prefix && h[|h| - |Suffix|..] == Suffix
  {
    if |h| >= 15 && h[..7] == Prefix && h[|h| - 8..] == Suffix {
      assert h == h[..7] + h[7..|h| - 8] + h[|h| - 8..];
    }
  }

  /** A hand with no whitespace gives a token with none, so it survives `str.split()`. */
  lemma HashKeepsToken(s: string)
    requires IsToken(s)
    ensures IsToken(Hash(s))
  {
    var h := Hash(s);
    forall i | 0 <= i < |h| ensures !IsSpace(h[i]) {
      if i < 7 {
        assert h[i] == Prefix[i];
      } else if i < 7 + |s| {
        assert h[i] == s[i - 7];
      } else {
        assert h[i] == Suffix[i - 7 - |s|];
      }
    }
  }
}
