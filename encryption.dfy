/** The encryptor: AES in CFB mode with a random IV put in front of the
    ciphertext, the whole encoded in URL-safe base64. The block cipher, the
    base64 codec and the random IV are parameters; what is modelled is the
    key handling around them: the key-length normalisation, the daily key
    derivation, and the order of the error checks.

    The daily key is the date (YYYYMMDD) followed by the `%v` rendering of
    the key bytes, "[b1 b2 ... bn]". Since the normalisation keeps at most
    32 bytes of it, only the first few key bytes reach the cipher: see
    `ExpiringKeyIgnoresTail`. */
module Encryption {
  import opened Common
  import opened GoStrings

  const BlockSize := 16

  const ErrKeyTooShort := Msg("key must be at least 16 characters")
  const ErrCiphertextTooShort := Msg("ciphertext too short")

  /** `ensureKey`: keys shorter than 16 bytes are refused; otherwise the
      longest AES key length (16, 24 or 32) the key can give is kept. */
  function EnsureKey(key: seq<byte>): (r: Result<seq<byte>>)
    ensures r.Err? <==> |key| < 16
    ensures r.Err? ==> r.error == ErrKeyTooShort
    ensures r.Ok? ==> |r.value| in {16, 24, 32} && |r.value| <= |key| && r.value == key[..|r.value|]
    ensures r.Ok? ==> (24 <= |key| ==> 24 <= |r.value|) && (32 <= |key| ==> |r.value| == 32)
  {
    var keyLen := |key|;
    if keyLen < 16 then Err(ErrKeyTooShort)
    else
      var keySize :=
        if keyLen > 16 && keyLen < 24 then 16
        else if keyLen > 24 && keyLen < 32 then 24
        else if keyLen > 32 then 32
        else keyLen;
      Ok(key[..keySize])
  }

  /** A decimal number padded with zeros to `w` digits, as the reference
      layout "2006" (w = 4) and "01" (w = 2) print it. */
  function Pad(n: nat, w: nat): (r: string)
    ensures |r| == if |NatDigits(n)| >= w then |NatDigits(n)| else w
    ensures forall i | 0 <= i < |r| :: '0' <= r[i] <= '9'
  {
    var digits := NatDigits(n);
    if |digits| >= w then digits
    else seq(w - |digits|, _ => '0') + digits
  }

  /** `time.Format("20060102")`. */
  function DateString(year: nat, month: nat, day: nat): (r: string)
    ensures forall i | 0 <= i < |r| :: '0' <= r[i] <= '9'
  {
    Pad(year, 4) + Pad(month, 2) + Pad(day, 2)
  }

  /** The numbers of a byte slice, separated by single spaces. */
  function Elems(key: seq<byte>): (r: string)
    ensures forall i | 0 <= i < |r| :: r[i] == ' ' || '0' <= r[i] <= '9'
    decreases |key|
  {
    if |key| == 0 then ""
    else if |key| == 1 then NatDigits(key[0] as nat)
    else NatDigits(key[0] as nat) + " " + Elems(key[1..])
  }

  /** `fmt.Sprintf("%v", key)` of a byte slice. */
  function Rendered(key: seq<byte>): (r: string)
    ensures |r| >= 2 && r[0] == '[' && r[|r| - 1] == ']'
    ensures forall i | 0 <= i < |r| :: r[i] == '[' || r[i] == ']' || r[i] == ' ' || '0' <= r[i] <= '9'
  {
    "[" + Elems(key) + "]"
  }

  /** The bytes of a string made of ASCII characters. */
  function Ascii(s: string): (b: seq<byte>)
    requires forall i | 0 <= i < |s| :: s[i] as int < 128
    ensures |b| == |s| && forall i | 0 <= i < |s| :: b[i] as int == s[i] as int
  {
    seq(|s|, i requires 0 <= i < |s| => s[i] as int as byte)
  }

  /** The daily key of `getKey`. */
  function DailyKey(year: nat, month: nat, day: nat, key: seq<byte>): (k: seq<byte>)
    ensures |k| == |DateString(year, month, day)| + |Rendered(key)|
  {
    Ascii(DateString(year, month, day) + Rendered(key))
  }

  /** `EncryptByKey`: the key is normalised, then the IV is drawn (it may
      fail), then the output is the IV followed by the encrypted text. */
  function EncryptByKey(key: seq<byte>, plaintext: seq<byte>, iv: Result<seq<byte>>,
                        encrypt: (seq<byte>, seq<byte>, seq<byte>) -> seq<byte>,
                        encode: seq<byte> -> string): (r: Result<string>)
    ensures EnsureKey(key).Err? ==> r == Err(ErrKeyTooShort)
    ensures EnsureKey(key).Ok? && iv.Err? ==> r == Err(iv.error)
    ensures EnsureKey(key).Ok? && iv.Ok? ==>
      r == Ok(encode(iv.value + encrypt(EnsureKey(key).value, iv.value, plaintext)))
  {
    match EnsureKey(key)
    case Err(e) => Err(e)
    case Ok(b) =>
      match iv
      case Err(e) => Err(e)
      case Ok(v) => Ok(encode(v + encrypt(b, v, plaintext)))
  }

  /** `DecryptByKey`: a key error comes first; the base64 decoding never
      fails (what it decoded is used); fewer than 16 bytes is an error. */
  function DecryptByKey(key: seq<byte>, cryptoText: string,
                        decode: string -> seq<byte>,
                        decrypt: (seq<byte>, seq<byte>, seq<byte>) -> seq<byte>): (r: Result<seq<byte>>)
    ensures EnsureKey(key).Err? ==> r == Err(ErrKeyTooShort)
    ensures EnsureKey(key).Ok? && |decode(cryptoText)| < BlockSize ==> r == Err(ErrCiphertextTooShort)
    ensures EnsureKey(key).Ok? && |decode(cryptoText)| >= BlockSize ==>
      var c := decode(cryptoText);
      r == Ok(decrypt(EnsureKey(key).value, c[..BlockSize], c[BlockSize..]))
  {
    match EnsureKey(key)
    case Err(e) => Err(e)
    case Ok(b) =>
      var ciphertext := decode(cryptoText);
      if |ciphertext| < BlockSize then Err(ErrCiphertextTooShort)
      else Ok(decrypt(b, ciphertext[..BlockSize], ciphertext[BlockSize..]))
  }

  /** Decryption undoes encryption with the same key, when the stream cipher
      undoes itself and keeps lengths, and base64 decoding undoes encoding. */
  lemma RoundTrip(key: seq<byte>, plaintext: seq<byte>, iv: seq<byte>,
                  encrypt: (seq<byte>, seq<byte>, seq<byte>) -> seq<byte>,
                  decrypt: (seq<byte>, seq<byte>, seq<byte>) -> seq<byte>,
                  encode: seq<byte> -> string, decode: string -> seq<byte>)
    requires |key| >= 16 && |iv| == BlockSize
    requires forall k, v, p :: decrypt(k, v, encrypt(k, v, p)) == p
    requires forall x :: decode(encode(x)) == x
    ensures var c := EncryptByKey(key, plaintext, Ok(iv), encrypt, encode);
      c.Ok? && DecryptByKey(key, c.value, decode, decrypt) == Ok(plaintext)
  {
    var b := EnsureKey(key).value;
    var body := encrypt(b, iv, plaintext);
    var c := iv + body;
    assert decode(encode(c)) == c;
    assert c[..BlockSize] == iv && c[BlockSize..] == body;
  }

  class Encryptor {
    var key: seq<byte>
    var expireInDay: bool

    /** `New`. */
    constructor ()
      ensures key == [] && !expireInDay
    {
      key := [];
      expireInDay := false;
    }

    method SetKey(k: seq<byte>)
      modifies this`key
      ensures key == k
    {
      key := k;
    }

    method ExpiryInDay() returns (r: Encryptor)
      modifies this`expireInDay
      ensures expireInDay && r == this
    {
      expireInDay := true;
      r := this;
    }

    method NoExpiryInDay() returns (r: Encryptor)
      modifies this`expireInDay
      ensures !expireInDay && r == this
    {
      expireInDay := false;
      r := this;
    }

    /** `getKey`: the key itself, or the key of the given day. */
    function GetKey(year: nat, month: nat, day: nat): (k: seq<byte>)
      reads this
      ensures !expireInDay ==> k == key
      ensures expireInDay ==> k == DailyKey(year, month, day, key)
    {
      if expireInDay then DailyKey(year, month, day, key) else key
    }

    /** `Encrypt`: with the key of `getKey`. */
    function Encrypt(plaintext: seq<byte>, year: nat, month: nat, day: nat, iv: Result<seq<byte>>,
                     encrypt: (seq<byte>, seq<byte>, seq<byte>) -> seq<byte>,
                     encode: seq<byte> -> string): (r: Result<string>)
      reads this
      ensures |GetKey(year, month, day)| < 16 ==> r == Err(ErrKeyTooShort)
      ensures |GetKey(year, month, day)| >= 16 && iv.Err? ==> r == Err(iv.error)
      ensures |GetKey(year, month, day)| >= 16 && iv.Ok? ==>
        r == Ok(encode(iv.value + encrypt(EnsureKey(GetKey(year, month, day)).value, iv.value, plaintext)))
    {
      EncryptByKey(GetKey(year, month, day), plaintext, iv, encrypt, encode)
    }

    /** `Decrypt`: with the key of `getKey`. */
    function Decrypt(cryptoText: string, year: nat, month: nat, day: nat,
                     decode: string -> seq<byte>,
                     decrypt: (seq<byte>, seq<byte>, seq<byte>) -> seq<byte>): (r: Result<seq<byte>>)
      reads this
      ensures |GetKey(year, month, day)| < 16 ==> r == Err(ErrKeyTooShort)
      ensures |GetKey(year, month, day)| >= 16 && |decode(cryptoText)| < BlockSize ==> r == Err(ErrCiphertextTooShort)
      ensures |GetKey(year, month, day)| >= 16 && |decode(cryptoText)| >= BlockSize ==>
        var c := decode(cryptoText);
        r == Ok(decrypt(EnsureKey(GetKey(year, month, day)).value, c[..BlockSize], c[BlockSize..]))
    {
      DecryptByKey(GetKey(year, month, day), cryptoText, decode, decrypt)
    }
  }

  /** Text encrypted by an encryptor is decrypted by it on the same day,
      when its key for that day is long enough. */
  lemma EncryptorRoundTrip(e: Encryptor, plaintext: seq<byte>, year: nat, month: nat, day: nat, iv: seq<byte>,
                           encrypt: (seq<byte>, seq<byte>, seq<byte>) -> seq<byte>,
                           decrypt: (seq<byte>, seq<byte>, seq<byte>) -> seq<byte>,
                           encode: seq<byte> -> string, decode: string -> seq<byte>)
    requires |e.GetKey(year, month, day)| >= 16 && |iv| == BlockSize
    requires forall k, v, p :: decrypt(k, v, encrypt(k, v, p)) == p
    requires forall x :: decode(encode(x)) == x
    ensures var c := e.Encrypt(plaintext, year, month, day, Ok(iv), encrypt, encode);
      c.Ok? && e.Decrypt(c.value, year, month, day, decode, decrypt) == Ok(plaintext)
  {
    RoundTrip(e.GetKey(year, month, day), plaintext, iv, encrypt, decrypt, encode, decode);
  }

  /** The daily key is longer than the stored one would need to be: the
      date and the brackets alone give 10 bytes, so a stored key of four
      bytes, far below the 16 a plain key needs, is always accepted; an
      empty stored key is refused. */
  lemma DailyKeyLength(year: nat, month: nat, day: nat, key: seq<byte>)
    requires year <= 9999 && 1 <= month <= 12 && 1 <= day <= 31
    ensures |DailyKey(year, month, day, key)| >= 10
    ensures key == [] ==> EnsureKey(DailyKey(year, month, day, key)).Err?
    ensures |key| >= 4 ==> EnsureKey(DailyKey(year, month, day, key)).Ok?
  {
    DateLength(year, month, day);
    if key == [] {
      assert Rendered(key) == "[]";
    } else {
      ElemsAtLeast(key);
    }
  }

  /** Every byte renders with at least one digit. */
  lemma {:induction false} ElemsAtLeast(a: seq<byte>)
    requires |a| >= 1
    ensures |Elems(a)| >= 2 * |a| - 1
    decreases |a|
  {
    if |a| > 1 {
      ElemsAtLeast(a[1..]);
    }
  }

  /** A date of a four-digit year prints with eight digits. */
  lemma DateLength(year: nat, month: nat, day: nat)
    requires year <= 9999 && month <= 99 && day <= 99
    ensures |DateString(year, month, day)| == 8
  {
    assert Pow10(2) == 100 && Pow10(4) == 10000;
    DigitsAtMost(year, 4);
    DigitsAtMost(month, 2);
    DigitsAtMost(day, 2);
  }

  /** A number below `10^k` has at most `k` digits. */
  lemma {:induction false} DigitsAtMost(n: nat, k: nat)
    requires k >= 1 && n < Pow10(k)
    ensures |NatDigits(n)| <= k
    decreases k
  {
    if n >= 10 {
      assert k > 1;
      DigitsAtMost(n / 10, k - 1);
    }
  }

  /** The number of digits of `n`, for `10^(k-1) <= n < 10^k`. */
  lemma {:induction false} DigitsCount(n: nat, k: nat)
    requires k >= 1 && Pow10(k - 1) <= n < Pow10(k)
    ensures |NatDigits(n)| == k
    decreases k
  {
    if k > 1 {
      DigitsCount(n / 10, k - 1);
    }
  }

  function Pow10(k: nat): (p: nat)
    ensures p >= 1
  {
    if k == 0 then 1 else 10 * Pow10(k - 1)
  }

  /** The rendering of a concatenation. */
  lemma {:induction false} ElemsAppend(a: seq<byte>, b: seq<byte>)
    requires |a| >= 1 && |b| >= 1
    ensures Elems(a + b) == Elems(a) + " " + Elems(b)
    decreases |a|
  {
    if |a| == 1 {
      assert (a + b)[1..] == b;
    } else {
      assert (a + b)[1..] == a[1..] + b;
      ElemsAppend(a[1..], b);
    }
  }

  /** Bytes of three digits render with four characters each, less one. */
  lemma {:induction false} ElemsOfThreeDigits(a: seq<byte>)
    requires |a| >= 1 && forall i | 0 <= i < |a| :: a[i] >= 100
    ensures |Elems(a)| == 4 * |a| - 1
    decreases |a|
  {
    assert Pow10(2) == 100 && Pow10(3) == 1000;
    DigitsCount(a[0] as nat, 3);
    if |a| > 1 {
      ElemsOfThreeDigits(a[1..]);
    }
  }

  /** The daily key reaches the cipher only through its first 32 bytes: the
      date (8), the bracket (1) and the rendering of the first six key bytes
      when they are of three digits (23). Two keys that agree on those six
      bytes give the same cipher key on the same day. */
  lemma ExpiringKeyIgnoresTail(year: nat, month: nat, day: nat, a: seq<byte>, b: seq<byte>)
    requires year <= 9999 && 1 <= month <= 12 && 1 <= day <= 31
    requires |a| >= 7 && |b| >= 7 && a[..6] == b[..6]
    requires forall i | 0 <= i < 6 :: a[i] >= 100
    ensures EnsureKey(DailyKey(year, month, day, a)) == EnsureKey(DailyKey(year, month, day, b))
  {
    DateLength(year, month, day);
    var date := DateString(year, month, day);
    RenderedHead(a);
    RenderedHead(b);
    var prefix := date + "[" + Elems(a[..6]);
    DatedHead(date, Rendered(a), "[" + Elems(a[..6]));
    DatedHead(date, Rendered(b), "[" + Elems(a[..6]));
    AsciiPrefix(date + Rendered(a), 32);
    AsciiPrefix(date + Rendered(b), 32);
  }

  /** The first 24 characters of the rendering of a key whose first six
      bytes have three digits. */
  lemma RenderedHead(a: seq<byte>)
    requires |a| >= 7 && forall i | 0 <= i < 6 :: a[i] >= 100
    ensures |Rendered(a)| > 24 && Rendered(a)[..24] == "[" + Elems(a[..6])
  {
    var p := a[..6];
    ElemsOfThreeDigits(p);
    assert a == p + a[6..];
    ElemsAppend(p, a[6..]);
    assert Rendered(a) == "[" + Elems(p) + (" " + Elems(a[6..]) + "]");
  }

  lemma DatedHead(date: string, r: string, h: string)
    requires |date| == 8 && |h| == 24 && |r| > 24 && r[..24] == h
    ensures |date + r| > 32 && (date + r)[..32] == date + h
  {
    assert (date + r)[..32] == date + r[..24];
  }

  lemma AsciiPrefix(s: string, n: nat)
    requires n <= |s| && forall i | 0 <= i < |s| :: s[i] as int < 128
    ensures Ascii(s)[..n] == Ascii(s[..n])
  {
  }
}
