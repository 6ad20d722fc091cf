/**
 * `gen(n)`: a random slug of `n` characters drawn from a 62-character
 * alphabet. `Math.random()` is replaced by a supplied sequence of picks, one
 * per character, each already scaled to `Math.floor(Math.random() * 62)`.
 */
module SlugGen {
  import opened Text
  import Validation

  /** The alphabet, in the order of the source's `chars`: digits from 1 to 0, then a to z, then A to Z. */
  const Chars: string := "1234567890" + "abcdefghijklmnopqrstuvwxyz" + "ABCDEFGHIJKLMNOPQRSTUVWXYZ"

  /** One draw of `Math.floor(Math.random() * chars.length)`. */
  type Pick = i: int | 0 <= i < 62

  predicate IsAlphanumeric(c: char) { IsDigit(c) || IsLower(c) || IsUpper(c) }

  /** The slug that `picks` spell, one character per pick. */
  function Spelled(picks: seq<Pick>): (s: string)
    ensures |s| == |picks|
  {
    seq(|picks|, i requires 0 <= i < |picks| => Chars[picks[i]])
  }

  /** `gen(n)`: appends to `s` one character per pick, `n` times. */
  method Gen(n: nat, picks: seq<Pick>) returns (s: string)
    requires |picks| >= n
    ensures |s| == n
    ensures forall i :: 0 <= i < n ==> s[i] == Chars[picks[i]]
  {
    s := "";
    for i := 0 to n
      invariant |s| == i
      invariant forall j :: 0 <= j < i ==> s[j] == Chars[picks[j]]
    {
      s := s + [Chars[picks[i]]];
    }
  }

  /** What `Gen` returns is what the same picks spell. */
  lemma GenSpells(n: nat, picks: seq<Pick>, s: string)
    requires |picks| >= n && |s| == n
    requires forall i :: 0 <= i < n ==> s[i] == Chars[picks[i]]
    ensures s == Spelled(picks[..n])
  {
  }

  /** The character at each position of the alphabet, by the ranges it is made of. */
  function CharAt(k: Pick): char {
    if k < 9 then ('1' as int + k) as char
    else if k == 9 then '0'
    else if k < 36 then ('a' as int + k - 10) as char
    else ('A' as int + k - 36) as char
  }

  lemma CharsLayout(k: Pick)
    ensures Chars[k] == CharAt(k)
  {
  }

  /**
   * The alphabet is the 62 ASCII alphanumerics, each exactly once, so a uniform
   * pick gives every alphanumeric with the same chance.
   */
  lemma AlphabetIsAlphanumerics()
    ensures |Chars| == 62
    ensures forall k: Pick :: IsAlphanumeric(Chars[k])
    ensures forall j: Pick, k: Pick :: j != k ==> Chars[j] != Chars[k]
    ensures forall c :: IsAlphanumeric(c) ==> c in Chars
  {
    forall k: Pick ensures IsAlphanumeric(Chars[k]) {
      CharsLayout(k);
    }
    forall j: Pick, k: Pick | j != k ensures Chars[j] != Chars[k] {
      CharsLayout(j);
      CharsLayout(k);
    }
    forall c | IsAlphanumeric(c) ensures c in Chars {
      var k: Pick :=
        if IsDigit(c) then (if c == '0' then 9 else c as int - '1' as int)
        else if IsLower(c) then c as int - 'a' as int + 10
        else c as int - 'A' as int + 36;
      CharsLayout(k);
      assert Chars[k] == c;
    }
  }

  /** Every generated slug is alphanumeric. */
  lemma SpelledIsAlphanumeric(picks: seq<Pick>)
    ensures forall i :: 0 <= i < |picks| ==> IsAlphanumeric(Spelled(picks)[i])
  {
    AlphabetIsAlphanumerics();
  }

  /** A generated 4-character slug would itself pass the handler's slug rule. */
  lemma GeneratedSlugIsValid(picks: seq<Pick>)
    requires |picks| == 4
    ensures Validation.ValidSlug(Spelled(picks))
  {
    var s := Spelled(picks);
    SpelledIsAlphanumeric(picks);
    assert Utf16Length(s) == 4;
    assert Validation.TrailingLetters(s) < 4 ==> !IsLetter(s[3 - Validation.TrailingLetters(s)]);
  }
}
