/** Keys made of two texts with a colon between them, and when such a key no longer tells its parts. */
module TextKey {

  function MakeKey(first: string, second: string): string {
    first + ":" + second
  }

  lemma KeyParts(first: string, second: string)
    ensures var key := MakeKey(first, second);
            key[..|first|] == first && key[|first|] == ':' && key[|first| + 1..] == second
  {
  }

  lemma KeyAssociative(a: string, b: string, c: string)
    ensures MakeKey(a, MakeKey(b, c)) == MakeKey(MakeKey(a, b), c)
  {
  }

  lemma SplitKey(s: string, i: nat)
    requires i < |s| && s[i] == ':'
    ensures s == MakeKey(s[..i], s[i + 1..])
  {
  }

  /** Where colons are in a key: in its parts, and between them. */
  lemma KeyAt(first: string, second: string, i: nat)
    requires i < |MakeKey(first, second)|
    ensures MakeKey(first, second)[i] ==
            if i < |first| then first[i] else if i == |first| then ':' else second[i - |first| - 1]
  {
  }

  lemma {:induction false} ColonFreeFirst(first: string, second: string, other: string, otherSecond: string)
    requires MakeKey(first, second) == MakeKey(other, otherSecond)
    requires ':' !in first && ':' !in other
    ensures first == other && second == otherSecond
  {
    if |first| < |other| {
      KeyAt(other, otherSecond, |first|);
    } else if |other| < |first| {
      KeyAt(first, second, |other|);
    }
    KeyParts(first, second);
    KeyParts(other, otherSecond);
  }

  lemma ColonFreeSecond(first: string, second: string, other: string, otherSecond: string)
    requires MakeKey(first, second) == MakeKey(other, otherSecond)
    requires ':' !in second && ':' !in otherSecond
    ensures first == other && second == otherSecond
  {
    if |first| < |other| {
      KeyAt(first, second, |other|);
    } else if |other| < |first| {
      KeyAt(other, otherSecond, |first|);
    }
    KeyParts(first, second);
    KeyParts(other, otherSecond);
  }

  lemma ColonFree(first: string, second: string, other: string, otherSecond: string)
    requires MakeKey(first, second) == MakeKey(other, otherSecond)
    requires ':' !in first && ':' !in second
    ensures first == other && second == otherSecond
  {
    KeyAt(first, second, |other|);
    KeyAt(other, otherSecond, |other|);
    KeyParts(first, second);
    KeyParts(other, otherSecond);
  }

  /** A pair shares its key with some other pair exactly when one of its texts holds a colon. */
  lemma AliasExactly(first: string, second: string)
    ensures (exists f, s :: (f, s) != (first, second) && MakeKey(f, s) == MakeKey(first, second)) <==>
            ':' in first || ':' in second
  {
    if i :| 0 <= i < |first| && first[i] == ':' {
      var f, s := first[..i], first[i + 1..] + ":" + second;
      assert MakeKey(f, s) == MakeKey(first, second);
      assert |f| < |first|;
      assert (f, s) != (first, second);
    } else if i :| 0 <= i < |second| && second[i] == ':' {
      var f, s := first + ":" + second[..i], second[i + 1..];
      assert MakeKey(f, s) == MakeKey(first, second);
      assert |f| > |first|;
      assert (f, s) != (first, second);
    } else {
      forall f, s | MakeKey(f, s) == MakeKey(first, second) ensures (f, s) == (first, second) {
        ColonFree(first, second, f, s);
      }
    }
  }
}
