/** The key generator (`src/application/post/keygen.py`): eight characters
    drawn from `ALPHABET`.  `secrets.choice` is a nondeterministic choice. */
module Keygen {
  import opened Wrappers
  import opened PyStr
  import opened Domain

  /** `string.ascii_lowercase + string.digits` */
  const Alphabet: string := "abcdefghijklmnopqrstuvwxyz0123456789"

  const KeyLength: nat := 8

  /** What `generate_unique_key` returns: KeyLength characters of the
      alphabet. */
  predicate IsGeneratedKey(key: string) {
    |key| == KeyLength && forall i :: 0 <= i < |key| ==> key[i] in Alphabet
  }

  predicate IsKeyChar(c: char) {
    ('a' <= c <= 'z') || ('0' <= c <= '9')
  }

  /** The alphabet is exactly the lower-case ASCII letters and the digits. */
  lemma AlphabetIsKeyChars()
    ensures |Alphabet| == 36
    ensures forall c :: c in Alphabet <==> IsKeyChar(c)
  {
    assert forall i :: 0 <= i < 26 ==> Alphabet[i] == ('a' as int + i) as char;
    assert forall i :: 26 <= i < 36 ==> Alphabet[i] == ('0' as int + i - 26) as char;
    forall c | IsKeyChar(c) ensures c in Alphabet {
      if 'a' <= c <= 'z' {
        assert Alphabet[c as int - 'a' as int] == c;
      } else {
        assert Alphabet[26 + c as int - '0' as int] == c;
      }
    }
  }

  /** `generate_unique_key`: KEY_LENGTH independent choices from the
      alphabet. */
  method GenerateUniqueKey() returns (key: string)
    ensures IsGeneratedKey(key)
  {
    key := "";
    var n := 0;
    while n < KeyLength
      invariant n <= KeyLength && |key| == n
      invariant forall i :: 0 <= i < |key| ==> key[i] in Alphabet
    {
      assert Alphabet[0] in Alphabet;
      var c :| c in Alphabet;
      key := key + [c];
      n := n + 1;
    }
  }

  /** A generated key has the length `UniqueKey` demands. */
  lemma KeyIsUniqueKey(key: string)
    requires |key| == KeyLength
    ensures MakeUniqueKey(key) == Some(key)
  {
  }

  /** A generated key is unchanged by the search's `strip().lower()`, so a
      search for it finds it. */
  lemma KeyIsItsOwnQuery(key: string)
    requires forall i :: 0 <= i < |key| ==> key[i] in Alphabet
    ensures Lower(Strip(key)) == key
  {
    AlphabetIsKeyChars();
    assert forall i :: 0 <= i < |key| ==> IsKeyChar(key[i]);
    StripKeeps(key);
    assert Lower(key) == key;
  }
}
