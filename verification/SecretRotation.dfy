/**
 Secret rotation for cookie sessions: hex framing, the &id= suffix, and the
 newest-first secret list. AES-256-GCM is a parameter: a pair of functions with
 the laws an authenticated cipher has.
 */
module SecretRotation {
  import opened Text

  const KEY_SIZE: nat := 32
  const NONCE_SIZE: nat := 12
  const TAG_SIZE: nat := 16
  const MAX_UINT32: nat := 0xffff_ffff

  datatype Secret = Secret(id: nat, key: string)

  datatype Cipher = Cipher(
    seal: (string, string, string) -> string,          // key, nonce, plaintext
    open: (string, string, string) -> Option<string>)  // key, nonce, ciphertext and tag

  predicate IsBytes(s: string) {
    forall i :: 0 <= i < |s| ==> s[i] as int < 256
  }

  /** Opening what was sealed gives the plaintext back; sealing appends a tag. */
  ghost predicate Lawful(c: Cipher) {
    forall key, nonce, plain ::
      && c.open(key, nonce, c.seal(key, nonce, plain)) == Some(plain)
      && IsBytes(c.seal(key, nonce, plain))
      && |c.seal(key, nonce, plain)| >= TAG_SIZE
  }

  /** No other key opens it. */
  ghost predicate Authentic(c: Cipher) {
    forall key, other, nonce, plain :: key != other ==> c.open(other, nonce, c.seal(key, nonce, plain)) == None
  }

  // --------------------------------------------------------------------- hex

  function HexEncode(s: string): string
    requires IsBytes(s)
  {
    if |s| == 0 then ""
    else [HexDigit(s[0] as int / 16), HexDigit(s[0] as int % 16)] + HexEncode(s[1..])
  }

  function HexDecode(s: string): Option<string> {
    if |s| == 0 then Some("")
    else if |s| == 1 then None
    else match (HexValue(s[0]), HexValue(s[1]), HexDecode(s[2..]))
      case (Some(hi), Some(lo), Some(rest)) => Some([(16 * hi + lo) as char] + rest)
      case _ => None
  }

  lemma {:induction false} HexRoundTrip(s: string)
    requires IsBytes(s)
    ensures HexDecode(HexEncode(s)) == Some(s)
    ensures '&' !in HexEncode(s)
  {
    if |s| > 0 {
      HexRoundTrip(s[1..]);
      assert s == [s[0]] + s[1..];
      HexPair(s[0], HexEncode(s[1..]), s[1..]);
    }
  }

  /** Two digits decode to the byte they were made from. */
  lemma HexPair(c: char, rest: string, decoded: string)
    requires c as int < 256 && HexDecode(rest) == Some(decoded) && '&' !in rest
    ensures var text := [HexDigit(c as int / 16), HexDigit(c as int % 16)] + rest;
      HexDecode(text) == Some([c] + decoded) && '&' !in text
  {
    var text := [HexDigit(c as int / 16), HexDigit(c as int % 16)] + rest;
    assert text[2..] == rest;
    HexDigitValue(c as int / 16);
    HexDigitValue(c as int % 16);
    assert 16 * (c as int / 16) + c as int % 16 == c as int;
  }

  // --------------------------------------------------------- one key, one value

  /** Encrypt: hex(nonce || ciphertext || tag). */
  function Encrypt(c: Cipher, key: string, nonce: string, plain: string): Option<string>
    requires IsBytes(nonce) && |nonce| == NONCE_SIZE && Lawful(c)
  {
    if |key| != KEY_SIZE then None else Some(HexEncode(nonce + c.seal(key, nonce, plain)))
  }

  function Decrypt(c: Cipher, key: string, encoded: string): Option<string> {
    if |key| != KEY_SIZE then None
    else match HexDecode(encoded)
      case None => None
      case Some(raw) =>
        if |raw| < NONCE_SIZE + TAG_SIZE then None
        else c.open(key, raw[..NONCE_SIZE], raw[NONCE_SIZE..])
  }

  lemma DecryptOpens(c: Cipher, key: string, other: string, nonce: string, plain: string)
    requires Lawful(c) && IsBytes(nonce) && |nonce| == NONCE_SIZE && |key| == KEY_SIZE && |other| == KEY_SIZE
    ensures Decrypt(c, other, Encrypt(c, key, nonce, plain).value) == c.open(other, nonce, c.seal(key, nonce, plain))
  {
    var sealed := c.seal(key, nonce, plain);
    HexRoundTrip(nonce + sealed);
    assert (nonce + sealed)[..NONCE_SIZE] == nonce;
    assert (nonce + sealed)[NONCE_SIZE..] == sealed;
  }

  // ------------------------------------------------------------- the id suffix

  const ID_PREFIX := "&id="

  function JoinID(encoded: string, id: nat): string {
    encoded + ID_PREFIX + Itoa(id)
  }

  predicate PrefixAt(s: string, i: nat) {
    i + 4 <= |s| && s[i..i + 4] == ID_PREFIX
  }

  /** strings.LastIndex of the prefix, searching down from position i. */
  function LastIndexFrom(s: string, i: nat): (r: int)
    requires i <= |s|
    ensures -1 <= r <= i
    ensures r >= 0 ==> PrefixAt(s, r)
    ensures forall j :: r < j <= i && 0 <= j ==> !PrefixAt(s, j)
  {
    if PrefixAt(s, i) then i
    else if i == 0 then -1
    else LastIndexFrom(s, i - 1)
  }

  datatype SplitResult = Split(encoded: string, id: nat) | BadSuffix

  function SplitID(cookie: string): SplitResult {
    var idx := LastIndexFrom(cookie, |cookie|);
    if idx < 0 then Split(cookie, 0)
    else match ParseDigits(cookie[idx + 4..])
      case None => BadSuffix
      case Some(n) => if n > MAX_UINT32 then BadSuffix else Split(cookie[..idx], n)
  }

  /** SplitID undoes JoinID, because neither hex nor decimals contain the separator. */
  lemma SplitJoinID(encoded: string, id: nat)
    requires '&' !in encoded && id <= MAX_UINT32
    ensures SplitID(JoinID(encoded, id)) == Split(encoded, id)
  {
    var s, n := JoinID(encoded, id), |encoded|;
    var idx := LastIndexFrom(s, |s|);
    assert s[n..n + 4] == ID_PREFIX;
    assert PrefixAt(s, n);
    assert s[idx] == s[idx..idx + 4][0] == '&';
    assert forall j :: n < j < |s| ==> s[j] != '&';
    assert s[..n] == encoded && s[n + 4..] == Itoa(id);
    ItoaParses(id);
  }

  // ------------------------------------------------------------ the secret list

  predicate ValidSecrets(secrets: seq<Secret>) {
    |secrets| > 0 && forall i :: 0 <= i < |secrets| ==> |secrets[i].key| == KEY_SIZE && secrets[i].id <= MAX_UINT32
  }

  /** The key of the first secret with this id. */
  function FirstKey(secrets: seq<Secret>, id: nat): Option<string> {
    if |secrets| == 0 then None
    else if secrets[0].id == id then Some(secrets[0].key)
    else FirstKey(secrets[1..], id)
  }

  /** codec.Encrypt: the head secret seals; its id is appended. */
  function EncryptCookie(c: Cipher, secrets: seq<Secret>, nonce: string, plain: string): Option<string>
    requires IsBytes(nonce) && |nonce| == NONCE_SIZE && Lawful(c)
  {
    if !ValidSecrets(secrets) then None
    else match Encrypt(c, secrets[0].key, nonce, plain)
      case None => None
      case Some(encoded) => Some(JoinID(encoded, secrets[0].id))
  }

  /** codec.Decrypt: split off the id, then let the first secret with that id decrypt. */
  function DecryptCookie(c: Cipher, secrets: seq<Secret>, cookie: string): Option<string> {
    match SplitID(cookie)
    case BadSuffix => None
    case Split(encoded, id) =>
      if !ValidSecrets(secrets) then None
      else match FirstKey(secrets, id)
        case None => None
        case Some(key) => Decrypt(c, key, encoded)
  }

  /** Secrets.Decode: the scan with early return, and whether the head did it. */
  method Decode(c: Cipher, secrets: seq<Secret>, encoded: string, id: nat)
    returns (plain: Option<string>, headWasUsed: bool)
    ensures plain == if !ValidSecrets(secrets) then None
                     else match FirstKey(secrets, id)
                       case None => None
                       case Some(key) => Decrypt(c, key, encoded)
    ensures headWasUsed <==> plain.Some? && secrets[0].id == id
  {
    if !ValidSecrets(secrets) {
      return None, false;
    }
    for i := 0 to |secrets|
      invariant FirstKey(secrets, id) == FirstKey(secrets[i..], id)
      invariant forall j :: 0 <= j < i ==> secrets[j].id != id
    {
      assert secrets[i..][1..] == secrets[i + 1..];
      if secrets[i].id == id {
        plain := Decrypt(c, secrets[i].key, encoded);
        return plain, plain.Some? && i == 0;
      }
    }
    return None, false;
  }

  lemma {:induction false} FirstKeySkips(newer: seq<Secret>, secrets: seq<Secret>, id: nat)
    ensures FirstKey(newer + secrets, id)
         == if FirstKey(newer, id).Some? then FirstKey(newer, id) else FirstKey(secrets, id)
    ensures FirstKey(newer, id) == None <==> forall i :: 0 <= i < |newer| ==> newer[i].id != id
  {
    if |newer| == 0 {
      assert newer + secrets == secrets;
    } else {
      FirstKeySkips(newer[1..], secrets, id);
      assert (newer + secrets)[1..] == newer[1..] + secrets;
      assert newer == [newer[0]] + newer[1..];
    }
  }

  /**
   A value decrypts under any valid list whose first secret with the sealing id has the
   sealing key, and, for an authentic cipher, under no other list.
   */
  lemma DecryptsExactly(c: Cipher, secrets: seq<Secret>, nonce: string, plain: string, later: seq<Secret>)
    requires Lawful(c) && IsBytes(nonce) && |nonce| == NONCE_SIZE
    requires ValidSecrets(secrets) && ValidSecrets(later)
    ensures EncryptCookie(c, secrets, nonce, plain).Some?
    ensures var wire := EncryptCookie(c, secrets, nonce, plain).value; var head := secrets[0];
      && (FirstKey(later, head.id) == Some(head.key) ==> DecryptCookie(c, later, wire) == Some(plain))
      && (Authentic(c) ==>
            (DecryptCookie(c, later, wire) == Some(plain) <==> FirstKey(later, head.id) == Some(head.key)))
  {
    var head := secrets[0];
    var encoded := Encrypt(c, head.key, nonce, plain).value;
    HexRoundTrip(nonce + c.seal(head.key, nonce, plain));
    SplitJoinID(encoded, head.id);
    var key := FirstKey(later, head.id);
    if key.Some? {
      FirstKeyValid(later, head.id);
      DecryptOpens(c, head.key, key.value, nonce, plain);
    }
  }

  lemma {:induction false} FirstKeyValid(secrets: seq<Secret>, id: nat)
    requires forall i :: 0 <= i < |secrets| ==> |secrets[i].key| == KEY_SIZE
    ensures FirstKey(secrets, id).Some? ==> |FirstKey(secrets, id).value| == KEY_SIZE
  {
    if |secrets| > 0 {
      FirstKeyValid(secrets[1..], id);
    }
  }

  /** Rotation: prepending secrets with fresh ids keeps every older cookie readable. */
  lemma RotationKeepsCookies(c: Cipher, secrets: seq<Secret>, nonce: string, plain: string, newer: seq<Secret>)
    requires Lawful(c) && IsBytes(nonce) && |nonce| == NONCE_SIZE
    requires ValidSecrets(secrets) && ValidSecrets(newer + secrets)
    requires forall i :: 0 <= i < |newer| ==> newer[i].id != secrets[0].id
    ensures EncryptCookie(c, secrets, nonce, plain).Some? && EncryptCookie(c, secrets, nonce, plain).value != ""
    ensures DecryptCookie(c, newer + secrets, EncryptCookie(c, secrets, nonce, plain).value) == Some(plain)
  {
    FirstKeySkips(newer, secrets, secrets[0].id);
    DecryptsExactly(c, secrets, nonce, plain, newer + secrets);
  }
}
