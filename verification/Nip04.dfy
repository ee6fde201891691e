/**
  Encrypted direct messages (NIP-04): the text base64(ciphertext) "?iv=" base64(iv).
  AES under a key is a parameter, assumed to be a permutation of the blocks; the
  random initialisation vector is an argument.
 */
module Nip04 {
  import opened Wrappers
  import opened Base64
  import opened Cbc

  const SEPARATOR := "?iv="

  datatype CryptError = BadKey | BadFormat | BadIV | BadBase64 | NotWholeBlocks | DecryptionFailed

  /** Position of the first separator. */
  function FindSeparator(s: string): Option<nat> {
    if SEPARATOR <= s then Some(0)
    else if s == "" then None
    else
      var rest := FindSeparator(s[1..]);
      if rest.None? then None else Some(rest.value + 1)
  }

  function ParseContent(content: string): Result<(string, string), CryptError> {
    var at := FindSeparator(content);
    if at.None? then Err(BadFormat)
    else
      SeparatorBound(content);
      var iv := content[at.value + |SEPARATOR|..];
      if iv == "" then Err(BadIV) else Ok((content[..at.value], iv))
  }

  lemma SeparatorBound(s: string)
    ensures FindSeparator(s).Some? ==> FindSeparator(s).value + |SEPARATOR| <= |s|
  {
  }

  ghost predicate SeparatorAt(s: string, i: nat)
    requires i <= |s|
  {
    "?iv=" <= s[i..]
  }

  lemma {:induction false} FoundFirst(s: string)
    ensures FindSeparator(s).None? ==> forall i: nat :: i <= |s| ==> !SeparatorAt(s, i)
    ensures FindSeparator(s).Some? ==>
              var n := FindSeparator(s).value;
              n <= |s| && SeparatorAt(s, n) && forall i: nat :: i < n ==> !SeparatorAt(s, i)
  {
    if SEPARATOR <= s {
      assert s[0..] == s;
    } else if s == "" {
    } else {
      FoundFirst(s[1..]);
      forall i: nat | 0 < i <= |s| ensures SeparatorAt(s, i) <==> SeparatorAt(s[1..], i - 1) {
        assert s[i..] == s[1..][i - 1..];
      }
      assert s[0..] == s;
    }
  }

  /** A content is split at its first separator; without one, or with nothing after it, it is refused. */
  lemma SplitsAtFirstSeparator(content: string)
    ensures ParseContent(content) == Err(BadFormat) <==> forall i: nat :: i <= |content| ==> !SeparatorAt(content, i)
    ensures match ParseContent(content)
            case Ok((a, b)) => content == a + "?iv=" + b && b != "" && forall i: nat :: i < |a| ==> !SeparatorAt(content, i)
            case Err(_) => true
    ensures ParseContent(content).Err? && ParseContent(content) != Err(BadFormat) ==>
              |content| >= 4 && content[|content| - 4..] == "?iv="
  {
    FoundFirst(content);
    SeparatorBound(content);
    var at := FindSeparator(content);
    if at.Some? {
      assert content[at.value..][..4] == "?iv=" && content == content[..at.value] + content[at.value..];
      assert content[at.value..] == "?iv=" + content[at.value + 4..];
    }
  }

  type KeySchedule = Bytes -> BlockCipher

  ghost predicate Ciphers(aes: KeySchedule) {
    forall key: Bytes :: |key| == 32 ==> IsPermutation(aes(key))
  }

  ghost function EncryptedContent(aes: KeySchedule, key: Bytes, iv: Bytes, plaintext: Bytes): string
    requires Ciphers(aes) && |key| == 32 && |iv| == 16
  {
    Encode(Encrypted(aes(key), iv, Padded(plaintext))) + SEPARATOR + Encode(iv)
  }

  ghost function DecryptedContent(aes: KeySchedule, key: Bytes, content: string): Result<Bytes, CryptError>
    requires Ciphers(aes)
  {
    if |key| != 32 then Err(BadKey)
    else
      match ParseContent(content)
      case Err(e) => Err(e)
      case Ok((text, ivText)) =>
        var ciphertext, iv := Decode(text), Decode(ivText);
        if ciphertext.None? || iv.None? then Err(BadBase64)
        else if |iv.value| != 16 then Err(BadIV)
        else if |ciphertext.value| % 16 != 0 then Err(NotWholeBlocks)
        else
          var p := Unpadded(Decrypted(aes(key), iv.value, ciphertext.value));
          if p.None? then Err(DecryptionFailed) else Ok(p.value)
  }

  /** Copies the plaintext into a buffer of whole blocks and fills the rest with the padding length. */
  method Pad(plaintext: Bytes) returns (buffer: array<Byte>)
    ensures fresh(buffer) && buffer[..] == Padded(plaintext)
  {
    var padding := 16 - |plaintext| % 16;
    buffer := new Byte[|plaintext| + padding](_ => 0);
    forall k | 0 <= k < |plaintext| {
      buffer[k] := plaintext[k];
    }
    for i := |plaintext| to buffer.Length
      invariant buffer[..|plaintext|] == plaintext
      invariant forall k :: |plaintext| <= k < i ==> buffer[k] == padding
    {
      buffer[i] := padding;
    }
  }

  method Encrypt(aes: KeySchedule, plaintext: Bytes, key: Bytes, iv: Bytes) returns (r: Result<string, CryptError>)
    requires Ciphers(aes) && |iv| == 16
    ensures r == if |key| != 32 then Err(BadKey) else Ok(EncryptedContent(aes, key, iv, plaintext))
  {
    if |key| != 32 {
      return Err(BadKey);
    }
    var buffer := Pad(plaintext);
    EncryptBlocks(aes(key), iv, buffer);
    return Ok(Encode(buffer[..]) + SEPARATOR + Encode(iv));
  }

  method Decrypt(aes: KeySchedule, content: string, key: Bytes) returns (r: Result<Bytes, CryptError>)
    requires Ciphers(aes)
    ensures r == DecryptedContent(aes, key, content)
  {
    if |key| != 32 {
      return Err(BadKey);
    }
    var parsed := ParseContent(content);
    if parsed.Err? {
      return Err(parsed.error);
    }
    var ciphertext := Decode(parsed.value.0);
    if ciphertext.None? {
      return Err(BadBase64);
    }
    var iv := Decode(parsed.value.1);
    if iv.None? {
      return Err(BadBase64);
    }
    if |iv.value| != 16 {
      return Err(BadIV);
    }
    if |ciphertext.value| % 16 != 0 {
      return Err(NotWholeBlocks);
    }
    var plain := DecryptBlocks(aes(key), iv.value, ciphertext.value);
    var unpadded := RemovePadding(plain);
    return if unpadded.None? then Err(DecryptionFailed) else Ok(unpadded.value);
  }

  method RemovePadding(plain: array<Byte>) returns (r: Option<Bytes>)
    ensures r == Unpadded(plain[..])
  {
    if plain.Length == 0 {
      return None;
    }
    var padding := plain[plain.Length - 1];
    if padding == 0 || padding > 16 || padding > plain.Length {
      return None;
    }
    for i := plain.Length - padding to plain.Length
      invariant forall k :: plain.Length - padding <= k < i ==> plain[k] == padding
    {
      if plain[i] != padding {
        return None;
      }
    }
    return Some(plain[..plain.Length - padding]);
  }

  // ---------- round trips ----------

  lemma {:induction false} FirstSeparator(a: string, b: string)
    requires InAlphabet(a)
    ensures FindSeparator(a + SEPARATOR + b) == Some(|a|)
  {
    if a == "" {
      assert a + SEPARATOR + b == SEPARATOR + b;
    } else {
      FirstSeparator(a[1..], b);
      var s := a + SEPARATOR + b;
      assert s[1..] == a[1..] + SEPARATOR + b;
      assert s[0] != '?' && SEPARATOR[0] == '?';
    }
  }

  lemma ContentParses(data: Bytes, iv: Bytes)
    requires iv != []
    ensures ParseContent(Encode(data) + SEPARATOR + Encode(iv)) == Ok((Encode(data), Encode(iv)))
  {
    var a, b := Encode(data), Encode(iv);
    QuadsRoundTrip(data);
    FirstSeparator(a, b);
    var content := a + SEPARATOR + b;
    assert content[..|a|] == a && content[|a| + |SEPARATOR|..] == b;
  }

  /** For every plaintext, key and initialisation vector, decrypting undoes encrypting. */
  lemma RoundTrips(aes: KeySchedule, key: Bytes, iv: Bytes, plaintext: Bytes)
    requires Ciphers(aes) && |key| == 32 && |iv| == 16
    ensures DecryptedContent(aes, key, EncryptedContent(aes, key, iv, plaintext)) == Ok(plaintext)
  {
    var data := Encrypted(aes(key), iv, Padded(plaintext));
    ContentParses(data, iv);
    RoundTrip(data);
    RoundTrip(iv);
    DecryptUndoesEncrypt(aes(key), iv, Padded(plaintext));
    UnpadExactly(Padded(plaintext), plaintext);
  }

  /** A text of less than a block, under the zero vector, is one image of the cipher in base64, and the vector. */
  lemma ShortMessage(aes: KeySchedule, key: Bytes, text: Bytes)
    requires Ciphers(aes) && |key| == 32 && |text| < 16
    ensures EncryptedContent(aes, key, Repeat(0, 16), text) ==
            Encode(aes(key).enc(text + Repeat(16 - |text|, 16 - |text|))) + "?iv=" + (seq(22, _ => 'A') + "==")
  {
    var block := text + Repeat(16 - |text|, 16 - |text|);
    PaddedShort(text);
    OneBlock(aes(key), block);
    EncodedZeros();
  }

  lemma PaddedShort(text: Bytes)
    requires |text| < 16
    ensures Padded(text) == text + Repeat(16 - |text|, 16 - |text|) && |Padded(text)| == 16
  {
  }

  lemma OneBlock(c: BlockCipher, block: Bytes)
    requires IsPermutation(c) && |block| == 16
    ensures Encrypted(c, Repeat(0, 16), block) == c.enc(block)
  {
    assert block[..16] == block && block[16..] == [];
    XorBlockZero(block);
  }

  predicate ManyAs(s: string, n: nat) {
    |s| == n + 2 && (forall i :: 0 <= i < n ==> s[i] == 'A') && s[n] == '=' && s[n + 1] == '='
  }

  lemma FourMore(first: string, s: string, n: nat)
    requires first == ['A', 'A', 'A', 'A'] && ManyAs(s, n)
    ensures ManyAs(first + s, n + 4)
  {
  }

  lemma MoreZeros(rest: Bytes, n: nat)
    requires ManyAs(Encode(rest), n)
    ensures ManyAs(Encode([0, 0, 0] + rest), n + 4)
  {
    ZeroGroup(rest);
    FourMore(['A', 'A', 'A', 'A'], Encode(rest), n);
  }

  lemma ZeroGroup(rest: Bytes)
    ensures Encode([0, 0, 0] + rest) == ['A', 'A', 'A', 'A'] + Encode(rest)
  {
    var all: Bytes := [0, 0, 0] + rest;
    assert all[3..] == rest;
    ZeroQuad();
  }

  lemma OneZero()
    ensures ManyAs(Encode([0]), 2)
  {
    assert Symbol(0) == 'A';
  }

  lemma ZeroQuad()
    ensures Quad(0, 0, 0) == ['A', 'A', 'A', 'A']
  {
  }

  /** One zero, and five times three more. */
  lemma EncodedZeros()
    ensures Encode(Repeat(0, 16)) == seq(22, _ => 'A') + "=="
  {
    SevenZeros();
    MoreZeros([0, 0, 0] + ([0, 0, 0] + [0]), 10);
    MoreZeros([0, 0, 0] + ([0, 0, 0] + ([0, 0, 0] + [0])), 14);
    MoreZeros([0, 0, 0] + ([0, 0, 0] + ([0, 0, 0] + ([0, 0, 0] + [0]))), 18);
    assert Repeat(0, 16) == [0, 0, 0] + ([0, 0, 0] + ([0, 0, 0] + ([0, 0, 0] + ([0, 0, 0] + [0]))));
    ManyAsIsLiteral(Encode(Repeat(0, 16)));
  }

  lemma SevenZeros()
    ensures ManyAs(Encode([0, 0, 0] + ([0, 0, 0] + [0])), 10)
  {
    OneZero();
    MoreZeros([0], 2);
    MoreZeros([0, 0, 0] + [0], 6);
  }

  lemma ManyAsIsLiteral(s: string)
    requires ManyAs(s, 22)
    ensures s == seq(22, _ => 'A') + "=="
  {
  }

  /** Conversely a content decrypts to `p` exactly when its ciphertext is the encryption of the padding of `p`. */
  lemma AcceptsExactlyEncryptions(aes: KeySchedule, key: Bytes, content: string, p: Bytes)
    requires Ciphers(aes) && |key| == 32
    requires ParseContent(content).Ok?
    ensures var (text, ivText) := ParseContent(content).value;
            DecryptedContent(aes, key, content) == Ok(p) <==>
            && Decode(text).Some? && Decode(ivText).Some? && |Decode(ivText).value| == 16
            && Decode(text).value == Encrypted(aes(key), Decode(ivText).value, Padded(p))
  {
    var (text, ivText) := ParseContent(content).value;
    if Decode(text).Some? && Decode(ivText).Some? && |Decode(ivText).value| == 16 {
      var data, iv := Decode(text).value, Decode(ivText).value;
      if |data| % 16 == 0 {
        UnpadExactly(Decrypted(aes(key), iv, data), p);
        EncryptUndoesDecrypt(aes(key), iv, data);
        DecryptUndoesEncrypt(aes(key), iv, Padded(p));
      }
    }
  }
}
