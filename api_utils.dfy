/** The helpers every API handler imports: bearer-token authentication
    against the identity provider, random hex tokens, and SHA-256 password
    hashes in hex. The provider, the random bytes and the SHA-256 digest are
    inputs of the model. */
module ApiUtils {
  import opened Common
  import opened Text

  // ---------------------------------------------------------------------
  // Authentication

  /** The provider's user record, as far as the handlers read it. */
  datatype AuthUser = AuthUser(id: Id, email: string)

  /** What the provider answers for a token: a user, or an error. */
  datatype ProviderAnswer = Authenticated(user: AuthUser) | Rejected

  /** The identity provider's `getUser`, applied to the token the header
      yields (`None` when the header has no second field). */
  type Provider = Option<string> -> ProviderAnswer

  const MissingHeaderMsg: string := "Missing Authorization header"
  const InvalidTokenMsg: string := "Invalid token"

  /** `header.split(' ')[1]`: the second space-separated field, if any. */
  function BearerToken(header: string): Option<string> {
    var parts := Split(header, ' ');
    if |parts| >= 2 then Some(parts[1]) else None
  }

  /** A well-formed header yields exactly the token it carries. */
  lemma BearerTokenOf(scheme: string, token: string)
    requires ' ' !in scheme && ' ' !in token
    ensures BearerToken(scheme + " " + token) == Some(token)
  {
    SplitJoin([scheme, token], ' ');
    assert Join([scheme, token], ' ') == scheme + " " + token;
  }

  /** A header without a space yields no token at all. */
  lemma BearerTokenNoSpace(header: string)
    requires ' ' !in header
    ensures BearerToken(header) == None
  {
    SplitJoin([header], ' ');
    assert Join([header], ' ') == header;
  }

  /** `authenticateUser(req)`: a missing or empty header fails first, a
      provider error fails second, otherwise the provider's user. */
  function Authenticate(header: Option<string>, provider: Provider): (r: Result<AuthUser>)
    ensures !Truthy(header) ==> r == Err(MissingHeaderMsg)
    ensures Truthy(header) ==>
              match provider(BearerToken(header.value))
              case Authenticated(u) => r == Ok(u)
              case Rejected => r == Err(InvalidTokenMsg)
  {
    if !Truthy(header) then Err(MissingHeaderMsg)
    else
      match provider(BearerToken(header.value))
      case Authenticated(u) => Ok(u)
      case Rejected => Err(InvalidTokenMsg)
  }

  // ---------------------------------------------------------------------
  // Hex encoding

  predicate IsLowerHex(c: char) {
    ('0' <= c <= '9') || ('a' <= c <= 'f')
  }

  /** The digit for `n` in `0123456789abcdef`. */
  function HexDigit(n: nat): (c: char)
    requires n < 16
    ensures IsLowerHex(c)
  {
    if n < 10 then ('0' as int + n) as char else ('a' as int + n - 10) as char
  }

  function HexValue(c: char): (n: nat)
    requires IsLowerHex(c)
    ensures n < 16 && HexDigit(n) == c
  {
    if '0' <= c <= '9' then (c - '0') as nat else (c - 'a') as nat + 10
  }

  lemma HexValueOfDigit(n: nat)
    requires n < 16
    ensures HexValue(HexDigit(n)) == n
  {
  }

  /** The two digits of a byte give the byte back. */
  lemma HexByte(b: byte)
    ensures HexValue(HexDigit((b / 16) as nat)) * 16 + HexValue(HexDigit((b % 16) as nat)) == b as nat
  {
    HexValueOfDigit((b / 16) as nat);
    HexValueOfDigit((b % 16) as nat);
  }

  /** `Buffer.toString('hex')`: two lower-case digits per byte, high nibble
      first. */
  function HexEncode(bytes: seq<byte>): (r: string)
    ensures |r| == 2 * |bytes|
    ensures forall i | 0 <= i < |r| :: IsLowerHex(r[i])
  {
    if |bytes| == 0 then []
    else [HexDigit((bytes[0] / 16) as nat), HexDigit((bytes[0] % 16) as nat)] + HexEncode(bytes[1..])
  }

  /** The inverse of `HexEncode`: `None` for an odd length or a character that
      is not a lower-case hex digit. */
  function HexDecode(s: string): (r: Option<seq<byte>>)
    ensures r.Some? ==> 2 * |r.value| == |s|
  {
    if |s| == 0 then Some([])
    else if |s| == 1 || !IsLowerHex(s[0]) || !IsLowerHex(s[1]) then None
    else
      match HexDecode(s[2..])
      case None => None
      case Some(rest) => Some([(HexValue(s[0]) * 16 + HexValue(s[1])) as byte] + rest)
  }

  lemma {:induction false} HexRoundTrip(bytes: seq<byte>)
    ensures HexDecode(HexEncode(bytes)) == Some(bytes)
  {
    if |bytes| > 0 {
      var b := bytes[0];
      var s := HexEncode(bytes);
      HexRoundTrip(bytes[1..]);
      assert s[2..] == HexEncode(bytes[1..]);
      HexByte(b);
      assert ((HexValue(s[0]) * 16 + HexValue(s[1])) as byte) == b;
      assert bytes == [b] + bytes[1..];
    }
  }

  /** Hex encoding loses nothing: different bytes give different strings. */
  lemma HexInjective(a: seq<byte>, b: seq<byte>)
    requires HexEncode(a) == HexEncode(b)
    ensures a == b
  {
    HexRoundTrip(a);
    HexRoundTrip(b);
  }

  // ---------------------------------------------------------------------
  // Tokens and password hashes

  /** `generateToken(length)`: the `length` random bytes the system's random
      source hands out, in hex. */
  function GenerateToken(random: seq<byte>): (token: string)
    ensures |token| == 2 * |random|
    ensures forall i | 0 <= i < |token| :: IsLowerHex(token[i])
    ensures HexDecode(token) == Some(random)
  {
    HexRoundTrip(random);
    HexEncode(random)
  }

  /** The number of random bytes `generateToken` draws when called without
      an argument. */
  const DefaultTokenBytes: nat := 32

  /** What `crypto.randomBytes(32)` hands `generateToken()`: always 32 bytes,
      so every token is 64 hex characters and never empty. */
  type TokenBytes = r: seq<byte> | |r| == DefaultTokenBytes witness seq(32, _ => 0)

  /** The token of a default draw has 64 lower-case hex characters. */
  lemma DefaultTokenLength(random: TokenBytes)
    ensures |GenerateToken(random)| == 2 * DefaultTokenBytes && GenerateToken(random) != ""
  {
  }

  /** SHA-256 of the password's UTF-8 bytes. */
  type Sha256 = string -> seq<byte>

  /** `hashPassword(password)`: the hex of the password's SHA-256 digest. */
  function HashPassword(sha: Sha256, password: string): (h: string)
    ensures |h| == 2 * |sha(password)|
    ensures HexDecode(h) == Some(sha(password))
  {
    HexRoundTrip(sha(password));
    HexEncode(sha(password))
  }

  /** `verifyPassword(password, hash)`: the password hashes to `hash`. */
  function VerifyPassword(sha: Sha256, password: string, hash: string): (ok: bool)
    ensures ok <==> hash == HashPassword(sha, password)
    ensures ok <==> HexDecode(hash) == Some(sha(password))
  {
    HexRoundTrip(sha(password));
    if HexEncode(sha(password)) == hash then true
    else
      assert HexDecode(hash) != Some(sha(password)) by {
        if HexDecode(hash) == Some(sha(password)) {
          HexDecodeEncode(hash);
        }
      }
      false
  }

  /** A string that decodes is the encoding of what it decodes to. */
  lemma {:induction false} HexDecodeEncode(s: string)
    requires HexDecode(s).Some?
    ensures HexEncode(HexDecode(s).value) == s
  {
    if |s| > 0 {
      HexDecodeEncode(s[2..]);
      var b := (HexValue(s[0]) * 16 + HexValue(s[1])) as byte;
      assert (b / 16) as nat == HexValue(s[0]) && (b % 16) as nat == HexValue(s[1]);
      assert HexDecode(s).value == [b] + HexDecode(s[2..]).value;
      assert s == [s[0], s[1]] + s[2..];
    }
  }

  /** A stored hash accepts the password it was made from, and a password
      with a different digest is refused. */
  lemma VerifyHashed(sha: Sha256, password: string, other: string)
    ensures VerifyPassword(sha, password, HashPassword(sha, password))
    ensures sha(other) != sha(password) ==> !VerifyPassword(sha, other, HashPassword(sha, password))
  {
  }
}
