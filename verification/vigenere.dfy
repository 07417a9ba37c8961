/**
 * The Vigenère cipher of the fifth challenge (challenges.py:10-30): the random
 * key generator and the position-indexed shift cipher over lowercase ASCII.
 */
module Vigenere {
  import opened Wrappers
  import opened Ascii

  const KeyLength: nat := 8
  const Alphabet: string := "abcdefghijklmnopqrstuvwxyz"

  /** What `generate_vigenere_key` produces: exactly eight lowercase letters. */
  predicate IsKey(k: string) {
    |k| == KeyLength && AllLower(k)
  }

  /** The indices `random.choices` draws into the alphabet, one per key letter.
      The random source is a parameter of the model. */
  predicate ValidDraws(draws: seq<nat>) {
    |draws| == KeyLength && forall i :: 0 <= i < |draws| ==> draws[i] < |Alphabet|
  }

  lemma AlphabetIsLowercase()
    ensures |Alphabet| == 26
    ensures forall i :: 0 <= i < |Alphabet| ==> Alphabet[i] as int == 'a' as int + i
  {
  }

  /** `generate_vigenere_key`, given the eight draws of the random source. */
  function GenerateKey(draws: seq<nat>): (key: string)
    requires ValidDraws(draws)
    ensures IsKey(key)
  {
    AlphabetIsLowercase();
    seq(KeyLength, i requires 0 <= i < KeyLength => Alphabet[draws[i]])
  }

  /** Every key the cipher challenge accepts is produced by some draw. */
  lemma EveryKeyIsDrawable(k: string)
    requires IsKey(k)
    ensures exists draws :: ValidDraws(draws) && GenerateKey(draws) == k
  {
    AlphabetIsLowercase();
    var draws: seq<nat> := seq(KeyLength, i requires 0 <= i < KeyLength => (k[i] as int - 'a' as int) as nat);
    assert ValidDraws(draws);
    assert GenerateKey(draws) == k;
  }

  /** `ord(key[j]) - ord("a")` after `key.lower()`; it may be negative or exceed 25
      when the key holds something other than letters. */
  function Shift(kc: char): int {
    LowerChar(kc) as int - 'a' as int
  }

  /** Moves a lowercase letter `n` places along the alphabet, wrapping modulo 26
      (Python's `%` and Dafny's agree for a positive divisor). */
  function Rotate(c: char, n: int): (r: char)
    requires IsLower(c)
    ensures IsLower(r)
    ensures (r as int - 'a' as int - (c as int - 'a' as int) - n) % 26 == 0
  {
    ((c as int - 'a' as int + n) % 26 + 'a' as int) as char
  }

  lemma RotateBack(c: char, n: int)
    requires IsLower(c)
    ensures Rotate(Rotate(c, n), -n) == c
  {
    var x := c as int - 'a' as int;
    var y := (x + n) % 26;
    assert Rotate(c, n) as int - 'a' as int == y;
    var q := (x + n) / 26;
    assert x + n == 26 * q + y;
    assert y - n == x + (-q) * 26;
    assert (y - n) % 26 == x;
  }

  /** No letter at or after position `i`. */
  predicate NoLettersFrom(text: string, i: nat) {
    forall j :: i <= j < |text| ==> !IsLetter(text[j])
  }

  /** The output character at position `j` of the whole text; `j` counts every
      character, letters or not. */
  function CipherAt(text: string, key: string, j: nat): char
    requires j < |text|
    requires |key| > 0 || !IsLetter(text[j])
  {
    var c := LowerChar(text[j]);
    if IsLetter(c) then Rotate(c, Shift(key[j % |key|])) else c
  }

  /** The loop of `vigenere_encrypt` from position `i` on. With an empty key the
      first letter raises `ZeroDivisionError` (`i % 0`), modelled as `None`. */
  function EncryptFrom(text: string, key: string, i: nat): (r: Option<string>)
    requires i <= |text|
    decreases |text| - i
    ensures r.Some? <==> |key| > 0 || NoLettersFrom(text, i)
    ensures r.Some? ==> |r.value| == |text| - i
    ensures r.Some? ==> forall j :: i <= j < |text| ==> r.value[j - i] == CipherAt(text, key, j)
  {
    if i == |text| then Some([])
    else
      var c := LowerChar(text[i]);
      if IsLetter(c) && |key| == 0 then None
      else
        match EncryptFrom(text, key, i + 1)
        case None => None
        case Some(rest) =>
          Some([if IsLetter(c) then Rotate(c, Shift(key[i % |key|])) else c] + rest)
  }

  /** `vigenere_encrypt(text, key)`. */
  function Encrypt(text: string, key: string): (r: Option<string>)
    ensures r.None? <==> |key| == 0 && exists i :: 0 <= i < |text| && IsLetter(text[i])
    ensures r.Some? ==> |r.value| == |text|
    ensures r.Some? ==> forall i :: 0 <= i < |text| && IsLetter(text[i]) ==>
      r.value[i] == Rotate(LowerChar(text[i]), Shift(key[i % |key|]))
    ensures r.Some? ==> forall i :: 0 <= i < |text| && !IsLetter(text[i]) ==> r.value[i] == text[i]
  {
    var r := EncryptFrom(text, key, 0);
    assert r.Some? ==> forall i :: 0 <= i < |text| ==> r.value[i] == CipherAt(text, key, i) by {
      if r.Some? {
        forall i | 0 <= i < |text| ensures r.value[i] == CipherAt(text, key, i) {
          assert r.value[i - 0] == CipherAt(text, key, i);
        }
      }
    }
    r
  }

  /** The inverse the players are meant to apply. */
  function Decrypt(cipher: string, key: string): (r: string)
    requires |key| > 0
    ensures |r| == |cipher|
  {
    seq(|cipher|, i requires 0 <= i < |cipher| =>
      if IsLower(cipher[i]) then Rotate(cipher[i], -Shift(key[i % |key|])) else cipher[i])
  }

  /** Decrypting with the same non-empty key recovers the lowercased plaintext. */
  lemma DecryptEncrypt(text: string, key: string)
    requires |key| > 0
    ensures Encrypt(text, key).Some?
    ensures Decrypt(Encrypt(text, key).value, key) == Lower(text)
  {
    var c := Encrypt(text, key).value;
    forall i | 0 <= i < |text|
      ensures Decrypt(c, key)[i] == Lower(text)[i]
    {
      if IsLetter(text[i]) {
        RotateBack(LowerChar(text[i]), Shift(key[i % |key|]));
      }
    }
  }

  /** Letters stay letters and nothing else becomes one. */
  lemma EncryptKeepsLetterPositions(text: string, key: string)
    requires Encrypt(text, key).Some?
    ensures forall i :: 0 <= i < |text| ==> (IsLower(Encrypt(text, key).value[i]) <==> IsLetter(text[i]))
  {
  }

  /** Encryption lowercases its input first, so case in the plaintext is irrelevant. */
  lemma EncryptIgnoresTextCase(text: string, key: string)
    ensures Encrypt(Upper(text), key) == Encrypt(text, key)
  {
    var u := Upper(text);
    assert forall i :: 0 <= i < |text| ==> LowerChar(u[i]) == LowerChar(text[i]);
    assert forall i :: 0 <= i < |text| ==> (IsLetter(u[i]) <==> IsLetter(text[i]));
    if Encrypt(text, key).Some? {
      assert Encrypt(u, key).value == Encrypt(text, key).value;
    }
  }

  /** The key is lowercased too. */
  lemma EncryptIgnoresKeyCase(text: string, key: string)
    ensures Encrypt(text, Upper(key)) == Encrypt(text, key)
  {
    var u := Upper(key);
    assert forall j :: 0 <= j < |key| ==> Shift(u[j]) == Shift(key[j]);
    if Encrypt(text, key).Some? {
      assert Encrypt(text, u).value == Encrypt(text, key).value;
    }
  }
}
