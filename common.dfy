// utils/common/common.go: random identifiers over a 62-letter alphabet.
module Common {
  import opened Numeric
  import opened GoStrings

  const Chars: string := "abcdefghijklmnopqrstuvwxyzABCDEFGHIJKLMNOPQRSTUVWXYZ1234567890"

  /** An identifier of `n` letters, all from the alphabet. */
  predicate IsIdentifier(id: string, n: nat)
  {
    |id| == n && forall k :: 0 <= k < |id| ==> id[k] in Chars
  }

  /** The identifier the random bytes `random` select, one letter per byte. */
  function IdentifierOf(random: seq<byte>): (id: string)
    ensures IsIdentifier(id, |random|)
    ensures forall k :: 0 <= k < |id| ==> id[k] == Chars[random[k] as int % 62]
  {
    if |random| == 0 then []
    else IdentifierOf(random[..|random| - 1]) + [Chars[random[|random| - 1] as int % 62]]
  }

  /**
   * GenerateIdentifier with the bytes crypto/rand wrote into the buffer
   * passed in: the buffer is overwritten in place, letter by letter.
   */
  method GenerateIdentifier(length: nat, random: seq<byte>) returns (id: string)
    requires |random| == length
    ensures id == IdentifierOf(random)
  {
    var b := new char[length](k requires 0 <= k < length => random[k] as int as char);
    for i := 0 to length
      invariant forall k :: 0 <= k < i ==> b[k] == Chars[random[k] as int % 62]
      invariant forall k :: i <= k < length ==> b[k] == random[k] as int as char
    {
      b[i] := Chars[b[i] as int % 62];
    }
    id := b[..];
  }

  /** Bytes that select the letters of `id`, one each. */
  function BytesFor(id: string): (random: seq<byte>)
    requires IsIdentifier(id, |id|)
    ensures |random| == |id|
    ensures forall k :: 0 <= k < |random| ==> random[k] as int < 62 && Chars[random[k]] == id[k]
  {
    seq(|id|, k requires 0 <= k < |id| => IndexOf(Chars, id[k]) as byte)
  }

  lemma SmallRemainder(b: int)
    requires 0 <= b < 62
    ensures b % 62 == b
  {
  }

  /** Every identifier over the alphabet is the image of some random bytes. */
  lemma EveryIdentifierIsReachable(id: string)
    requires IsIdentifier(id, |id|)
    ensures IdentifierOf(BytesFor(id)) == id
  {
    var random := BytesFor(id);
    var image := IdentifierOf(random);
    forall k | 0 <= k < |id|
      ensures image[k] == id[k]
    {
      var b := random[k] as int;
      SmallRemainder(b);
      assert image[k] == Chars[b];
    }
  }
}
