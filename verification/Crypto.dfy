/** Stored API keys: AES-GCM (NIST SP 800-38D) as an abstract AEAD under a concrete hex codec. */
module Crypto {
  import opened Wrappers

  newtype byte = n: int | 0 <= n < 256

  type Bytes = seq<byte>

  function HexDigit(n: int): (c: char)
    requires 0 <= n < 16
  {
    if n < 10 then ('0' as int + n) as char else ('a' as int + n - 10) as char
  }

  /** Both cases are accepted. */
  function HexValue(c: char): (v: Option<int>)
    ensures v.Some? ==> 0 <= v.value < 16
  {
    if '0' <= c <= '9' then Some(c as int - '0' as int)
    else if 'a' <= c <= 'f' then Some(c as int - 'a' as int + 10)
    else if 'A' <= c <= 'F' then Some(c as int - 'A' as int + 10)
    else None
  }

  function HexEncode(b: Bytes): string {
    if b == [] then ""
    else [HexDigit(b[0] as int / 16), HexDigit(b[0] as int % 16)] + HexEncode(b[1..])
  }

  function HexDecode(s: string): Option<Bytes> {
    if s == "" then Some([])
    else if |s| == 1 then None
    else
      var high, low, rest := HexValue(s[0]), HexValue(s[1]), HexDecode(s[2..]);
      if high.None? || low.None? || rest.None? then None
      else Some([(16 * high.value + low.value) as byte] + rest.value)
  }

  function LowerChar(c: char): char {
    if 'A' <= c <= 'F' then (c as int + 32) as char else c
  }

  function Lower(s: string): (t: string)
    ensures |t| == |s|
  {
    if s == "" then "" else [LowerChar(s[0])] + Lower(s[1..])
  }

  lemma DigitValue(n: int)
    requires 0 <= n < 16
    ensures HexValue(HexDigit(n)) == Some(n)
  {
  }

  /** The sixteen digits, and their values in either case. */
  lemma SixteenDigits(n: int)
    requires 0 <= n < 16
    ensures HexDigit(n) == "0123456789abcdef"[n]
    ensures HexValue("0123456789abcdef"[n]) == Some(n) && HexValue("0123456789ABCDEF"[n]) == Some(n)
  {
  }

  lemma {:induction false} HexRoundTrip(b: Bytes)
    ensures HexDecode(HexEncode(b)) == Some(b)
    ensures |HexEncode(b)| == 2 * |b|
  {
    if b != [] {
      HexRoundTrip(b[1..]);
      var high, low := b[0] as int / 16, b[0] as int % 16;
      DigitValue(high);
      DigitValue(low);
      var s := HexEncode(b);
      assert s[0] == HexDigit(high) && s[1] == HexDigit(low) && s[2..] == HexEncode(b[1..]);
      assert (16 * high + low) as byte == b[0];
      assert b == [b[0]] + b[1..];
    }
  }

  lemma DigitIsExact(c: char, n: int)
    requires 0 <= n < 16
    ensures HexValue(c) == Some(n) <==> LowerChar(c) == HexDigit(n)
  {
  }

  lemma {:induction false} DecodedEncodesBack(s: string)
    requires HexDecode(s).Some?
    ensures HexEncode(HexDecode(s).value) == Lower(s)
  {
    if s != "" {
      var high, low, rest := HexValue(s[0]).value, HexValue(s[1]).value, HexDecode(s[2..]).value;
      DecodedEncodesBack(s[2..]);
      DigitIsExact(s[0], high);
      DigitIsExact(s[1], low);
      var b := HexDecode(s).value;
      assert b[1..] == rest && b[0] as int == 16 * high + low;
      assert s[1..][1..] == s[2..];
      assert Lower(s) == [LowerChar(s[0]), LowerChar(s[1])] + Lower(s[2..]);
    }
  }

  lemma {:induction false} DecodingIgnoresCase(s: string)
    ensures HexDecode(Lower(s)) == HexDecode(s)
    decreases |s|
  {
    if |s| >= 2 {
      DecodingIgnoresCase(s[2..]);
      assert s[1..][1..] == s[2..];
      assert Lower(s) == [LowerChar(s[0]), LowerChar(s[1])] + Lower(s[2..]);
      assert Lower(s)[2..] == Lower(s[2..]);
    }
  }

  /** Decoding accepts exactly the encodings, up to letter case. */
  lemma HexDecodeIsExact(s: string, b: Bytes)
    ensures HexDecode(s) == Some(b) <==> Lower(s) == HexEncode(b)
  {
    DecodingIgnoresCase(s);
    HexRoundTrip(b);
    if HexDecode(s) == Some(b) {
      DecodedEncodesBack(s);
    }
  }

  /** Seal and open of an AEAD with empty additional data. */
  datatype Aead = Aead(seal: (Bytes, Bytes, Bytes) -> Bytes, open: (Bytes, Bytes, Bytes) -> Option<Bytes>)

  /** Opening succeeds exactly on what sealing the result under the same key and nonce gives. */
  ghost predicate Lawful(a: Aead) {
    forall key, nonce, c, p :: a.open(key, nonce, c) == Some(p) <==> a.seal(key, nonce, p) == c
  }

  const NONCE_SIZE := 12

  type Nonce = n: Bytes | |n| == NONCE_SIZE witness seq(NONCE_SIZE, _ => 0)

  /** The key lengths aes.NewCipher accepts. */
  predicate ValidKey(key: Bytes) {
    |key| in {16, 24, 32}
  }

  function Encrypt(a: Aead, plaintext: Bytes, key: Bytes, nonce: Nonce): Option<string> {
    if !ValidKey(key) then None else Some(HexEncode(nonce + a.seal(key, nonce, plaintext)))
  }

  function Decrypt(a: Aead, ciphertext: string, key: Bytes): Option<Bytes> {
    var data := HexDecode(ciphertext);
    if data.None? || !ValidKey(key) || |data.value| < NONCE_SIZE then None
    else a.open(key, data.value[..NONCE_SIZE], data.value[NONCE_SIZE..])
  }

  /** The stored text is the hex of the 12-byte nonce followed by the sealed key; keys have 16, 24 or 32 bytes. */
  lemma EncryptedLayout(a: Aead, plaintext: Bytes, key: Bytes, nonce: Nonce)
    ensures |nonce| == 12
    ensures Encrypt(a, plaintext, key, nonce).Some? <==> |key| == 16 || |key| == 24 || |key| == 32
    ensures Encrypt(a, plaintext, key, nonce).Some? ==>
      HexDecode(Encrypt(a, plaintext, key, nonce).value) == Some(nonce + a.seal(key, nonce, plaintext))
  {
    HexRoundTrip(nonce + a.seal(key, nonce, plaintext));
  }

  /** Decrypt undoes Encrypt for every plaintext, nonce and valid key; the stored text is never empty. */
  lemma DecryptUndoesEncrypt(a: Aead, plaintext: Bytes, key: Bytes, nonce: Nonce)
    requires Lawful(a)
    ensures Encrypt(a, plaintext, key, nonce).Some? <==> ValidKey(key)
    ensures ValidKey(key) ==>
      var c := Encrypt(a, plaintext, key, nonce).value; c != "" && Decrypt(a, c, key) == Some(plaintext)
  {
    var data := nonce + a.seal(key, nonce, plaintext);
    HexRoundTrip(data);
    assert data[..NONCE_SIZE] == nonce && data[NONCE_SIZE..] == a.seal(key, nonce, plaintext);
  }

  /** Decrypt accepts nothing but what Encrypt produces, up to the case of the hex digits. */
  lemma DecryptIsExact(a: Aead, c: string, key: Bytes, p: Bytes)
    requires Lawful(a)
    ensures Decrypt(a, c, key) == Some(p) <==>
      exists nonce: Nonce :: Encrypt(a, p, key, nonce) == Some(Lower(c))
  {
    if Decrypt(a, c, key) == Some(p) {
      var data := HexDecode(c).value;
      var nonce: Nonce := data[..NONCE_SIZE];
      HexDecodeIsExact(c, data);
      assert data == nonce + a.seal(key, nonce, p);
      assert Encrypt(a, p, key, nonce) == Some(Lower(c));
    }
    if nonce: Nonce :| Encrypt(a, p, key, nonce) == Some(Lower(c)) {
      var data := nonce + a.seal(key, nonce, p);
      HexDecodeIsExact(c, data);
      assert data[..NONCE_SIZE] == nonce && data[NONCE_SIZE..] == a.seal(key, nonce, p);
    }
  }
}
