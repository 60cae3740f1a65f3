/** The stored forms of the password and the static token (pcbridge/hashing.py).

    scrypt and SHA-256 are parameters, as is what `int` makes of a text. */
module Secrets {
  import opened Wrappers
  import opened Utf8
  import opened Base64
  import opened Strings

  // ---------------------------------------------- base64 without its padding

  function B64(raw: seq<Byte>): string {
    StripPad(Encode64(raw))
  }

  /** The digits of a text as the lenient decoder reads them: characters outside the alphabet
      are skipped, and enough padding ends the text. `pads` counts the padding just read. */
  function Lenient(s: string, ds: seq<Digit>, pads: nat): Option<seq<Digit>>
    decreases |s|
  {
    if s == [] then (if |ds| % 4 == 0 then Some(ds) else None)
    else if s[0] == '=' then
      if |ds| % 4 < 2 then Lenient(s[1..], ds, pads)
      else if |ds| % 4 + pads + 1 >= 4 then Some(ds)
      else Lenient(s[1..], ds, pads + 1)
    else match FromChar(s[0])
      case None => Lenient(s[1..], ds, pads)
      case Some(d) => Lenient(s[1..], ds + [d], 0)
  }

  predicate Ascii(s: string) {
    forall i :: 0 <= i < |s| ==> s[i] < 128 as char
  }

  /** None where Python raises `ValueError`. */
  function Unb64(text: string): Option<seq<Byte>> {
    if !Ascii(text) then None
    else match Lenient(text + Padding(|text|), [], 0)
      case None => None
      case Some(ds) => Bytes(ds)
  }

  lemma {:induction false} LenientChars(b: seq<Digit>, rest: string, a: seq<Digit>)
    ensures Lenient(Chars(b) + rest, a, 0) == Lenient(rest, a + b, 0)
    decreases |b|
  {
    if b == [] {
      assert Chars(b) + rest == rest && a + b == a;
    } else {
      var s := Chars(b) + rest;
      DigitChar(b[0]);
      assert s[0] == ToChar(b[0]);
      assert s[1..] == Chars(b[1..]) + rest;
      LenientChars(b[1..], rest, a + [b[0]]);
      assert a + b == (a + [b[0]]) + b[1..];
    }
  }

  lemma PaddingEnds(ds: seq<Digit>)
    requires |ds| % 4 != 1
    ensures Lenient(Padding(|ds|), ds, 0) == Some(ds)
  {
    var pad := Padding(|ds|);
    if |ds| % 4 == 2 {
      assert pad[0] == '=' && pad[1..][0] == '=';
      assert Lenient(pad[1..], ds, 1) == Some(ds);
    }
  }

  lemma B64IsDigits(raw: seq<Byte>)
    ensures B64(raw) == Chars(Digits(raw))
  {
    var text := Chars(Digits(raw));
    AllDigitsChars(Digits(raw));
    StripPadding(text, PadLength(|text|));
  }

  lemma CharsAreAscii(ds: seq<Digit>)
    ensures Ascii(Chars(ds))
    ensures forall c :: c in Chars(ds) ==> c != '$' && c != '='
  {
    forall i | 0 <= i < |ds|
      ensures Chars(ds)[i] < 128 as char && Chars(ds)[i] != '$' && Chars(ds)[i] != '='
    {
      assert Chars(ds)[i] == ToChar(ds[i]);
    }
  }

  /** `_unb64(_b64(x)) == x`, for every byte string. */
  lemma UnpaddedRoundTrip(raw: seq<Byte>)
    ensures Unb64(B64(raw)) == Some(raw)
  {
    var ds := Digits(raw);
    B64IsDigits(raw);
    CharsAreAscii(ds);
    LenientChars(ds, Padding(|ds|), []);
    assert [] + ds == ds;
    PaddingEnds(ds);
    BytesDigits(raw);
  }

  // -------------------------------------------------------------- splitting

  /** `s.split(c)`. */
  function Split(s: string, c: char): (parts: seq<string>)
    ensures parts != []
  {
    if s == [] then [[]]
    else if s[0] == c then [[]] + Split(s[1..], c)
    else
      var rest := Split(s[1..], c);
      [[s[0]] + rest[0]] + rest[1..]
  }

  lemma {:induction false} SplitFirst(a: string, c: char, b: string)
    requires c !in a
    ensures Split(a + [c] + b, c) == [a] + Split(b, c)
  {
    var s := a + [c] + b;
    if a == [] {
      assert s[1..] == b;
    } else {
      assert s[1..] == a[1..] + [c] + b;
      SplitFirst(a[1..], c, b);
      assert [s[0]] + a[1..] == a;
      assert ([a[1..]] + Split(b, c))[1..] == Split(b, c);
    }
  }

  lemma {:induction false} SplitLast(a: string, c: char)
    requires c !in a
    ensures Split(a, c) == [a]
  {
    if a != [] {
      SplitLast(a[1..], c);
      assert [a[0]] + a[1..] == a;
    }
  }

  /** `part.split("=", 1)` when there is an `=`. */
  function Pair(part: string): Option<(string, string)> {
    if part == [] then None
    else if part[0] == '=' then Some(([], part[1..]))
    else match Pair(part[1..])
      case None => None
      case Some((key, value)) => Some(([part[0]] + key, value))
  }

  lemma {:induction false} PairFirst(key: string, value: string)
    requires '=' !in key
    ensures Pair(key + "=" + value) == Some((key, value))
  {
    var s := key + "=" + value;
    if key == [] {
      assert s[1..] == value;
    } else {
      assert s[1..] == key[1..] + "=" + value;
      PairFirst(key[1..], value);
      assert [key[0]] + key[1..] == key;
    }
  }

  /** `dict(part.split("=", 1) for part in parts)`; None where a part has no `=`. */
  function Fields(parts: seq<string>, m: map<string, string>): Option<map<string, string>>
    decreases |parts|
  {
    if parts == [] then Some(m)
    else match Pair(parts[0])
      case None => None
      case Some((key, value)) => Fields(parts[1..], m[key := value])
  }

  lemma OneField(key: string, value: string, rest: seq<string>, m: map<string, string>)
    requires '=' !in key
    ensures Fields([key + "=" + value] + rest, m) == Fields(rest, m[key := value])
  {
    PairFirst(key, value);
    assert ([key + "=" + value] + rest)[1..] == rest;
  }

  // --------------------------------------------------------------- passwords

  type Kdf = (string, seq<Byte>, int, int, int) -> Option<seq<Byte>>
  type AsInt = string -> Option<int>

  const PASSWORD_PREFIX: string := "scrypt$"
  const SCHEME: string := "scrypt"

  /** The cost as it is written and as it is used. */
  datatype Cost = Cost(ln: string, r: string, p: string, logN: int, blocks: int, lanes: int)

  const COST: Cost := Cost("15", "8", "1", 15, 8, 1)

  predicate Clean(s: string) {
    '$' !in s && ',' !in s
  }

  /** `int` reads the written cost as the cost used, and it has no separator in it. */
  ghost predicate Readable(asInt: AsInt, c: Cost) {
    && asInt(c.ln) == Some(c.logN) && asInt(c.r) == Some(c.blocks) && asInt(c.p) == Some(c.lanes)
    && Clean(c.ln) && Clean(c.r) && Clean(c.p)
  }

  function Params(c: Cost): string {
    ("ln=" + c.ln) + "," + (("r=" + c.r) + "," + ("p=" + c.p))
  }

  function Printed(c: Cost, salt: seq<Byte>, digest: seq<Byte>): string {
    SCHEME + "$" + (Params(c) + "$" + (B64(salt) + "$" + B64(digest)))
  }

  /** `hash_password` with the cost and the salt given; None where the function fails. */
  function HashPassword(kdf: Kdf, c: Cost, password: string, salt: seq<Byte>): Option<string> {
    match kdf(password, salt, c.logN, c.blocks, c.lanes)
    case None => None
    case Some(digest) => Some(Printed(c, salt, digest))
  }

  predicate IsPasswordHash(value: string) {
    PASSWORD_PREFIX <= value
  }

  function Number(asInt: AsInt, fields: map<string, string>, key: string): Option<int> {
    if key in fields then asInt(fields[key]) else None
  }

  datatype Parsed = Parsed(logN: int, blocks: int, lanes: int, salt: seq<Byte>, digest: seq<Byte>)

  function ParseParams(asInt: AsInt, params: string): Option<(int, int, int)> {
    match Fields(Split(params, ','), map[])
    case None => None
    case Some(fields) =>
      var (n, r, p) := (Number(asInt, fields, "ln"), Number(asInt, fields, "r"), Number(asInt, fields, "p"));
      if n.None? || r.None? || p.None? then None else Some((n.value, r.value, p.value))
  }

  /** A stored password hash taken apart; None where something in it does not parse. */
  function ParseHash(asInt: AsInt, stored: string): Option<Parsed> {
    var parts := Split(stored, '$');
    if |parts| != 4 then None
    else
      var (cost, digest, salt) := (ParseParams(asInt, parts[1]), Unb64(parts[3]), Unb64(parts[2]));
      if cost.None? || digest.None? || salt.None? then None
      else Some(Parsed(cost.value.0, cost.value.1, cost.value.2, salt.value, digest.value))
  }

  predicate VerifyPassword(kdf: Kdf, asInt: AsInt, given: string, stored: string) {
    if stored == "" || given == "" then false
    else if !IsPasswordHash(stored) then given == stored
    else match ParseHash(asInt, stored)
      case None => false
      case Some(h) => kdf(given, h.salt, h.logN, h.blocks, h.lanes) == Some(h.digest)
  }

  lemma ParamsSplit(c: Cost)
    requires Clean(c.ln) && Clean(c.r) && Clean(c.p)
    ensures Split(Params(c), ',') == [("ln" + "=" + c.ln)] + ([("r" + "=" + c.r)] + ([("p" + "=" + c.p)] + []))
    ensures '$' !in Params(c)
  {
    var (a, b, d) := ("ln=" + c.ln, "r=" + c.r, "p=" + c.p);
    CleanPart("ln=", c.ln);
    CleanPart("r=", c.r);
    CleanPart("p=", c.p);
    SplitFirst(a, ',', b + "," + d);
    SplitFirst(b, ',', d);
    SplitLast(d, ',');
    assert Params(c) == a + [','] + (b + "," + d);
    assert b + "," + d == b + [','] + d;
    assert "ln" + "=" == "ln=" && "r" + "=" == "r=" && "p" + "=" == "p=";
  }

  lemma CleanPart(key: string, value: string)
    requires (key == "ln=" || key == "r=" || key == "p=") && Clean(value)
    ensures Clean(key + value)
  {
  }

  lemma ParamsParse(asInt: AsInt, c: Cost)
    requires Readable(asInt, c)
    ensures ParseParams(asInt, Params(c)) == Some((c.logN, c.blocks, c.lanes))
  {
    ParamsSplit(c);
    var (n, r, p) := ("ln", "r", "p");
    OneField(n, c.ln, [(r + "=" + c.r)] + ([(p + "=" + c.p)] + []), map[]);
    OneField(r, c.r, [(p + "=" + c.p)] + [], map[][n := c.ln]);
    OneField(p, c.p, [], map[][n := c.ln][r := c.r]);
    assert n != r && n != p && r != p;
  }

  lemma FourParts(a: string, b: string, c: string, d: string)
    requires '$' !in a && '$' !in b && '$' !in c && '$' !in d
    ensures Split(a + "$" + (b + "$" + (c + "$" + d)), '$') == [a, b, c, d]
  {
    SplitFirst(a, '$', b + "$" + (c + "$" + d));
    SplitFirst(b, '$', c + "$" + d);
    SplitFirst(c, '$', d);
    SplitLast(d, '$');
    assert [a] + ([b] + ([c] + [d])) == [a, b, c, d];
  }

  lemma B64IsClean(raw: seq<Byte>)
    ensures '$' !in B64(raw)
  {
    B64IsDigits(raw);
    CharsAreAscii(Digits(raw));
  }

  lemma PrintedParses(asInt: AsInt, c: Cost, salt: seq<Byte>, digest: seq<Byte>)
    requires Readable(asInt, c)
    ensures ParseHash(asInt, Printed(c, salt, digest)) == Some(Parsed(c.logN, c.blocks, c.lanes, salt, digest))
    ensures IsPasswordHash(Printed(c, salt, digest))
  {
    ParamsParse(asInt, c);
    ParamsSplit(c);
    B64IsClean(salt);
    B64IsClean(digest);
    FourParts(SCHEME, Params(c), B64(salt), B64(digest));
    UnpaddedRoundTrip(salt);
    UnpaddedRoundTrip(digest);
    StartsWithPrefix(Params(c) + "$" + (B64(salt) + "$" + B64(digest)));
  }

  lemma StartsWithPrefix(rest: string)
    ensures PASSWORD_PREFIX <= SCHEME + "$" + rest
  {
    assert PASSWORD_PREFIX == SCHEME + "$";
  }

  /** A hash that was written verifies exactly the passwords that give the same digest with its
      salt and cost, so always the one it was made from. */
  lemma WrittenHashVerifies(kdf: Kdf, asInt: AsInt, c: Cost, password: string, salt: seq<Byte>, given: string)
    requires Readable(asInt, c) && HashPassword(kdf, c, password, salt).Some? && given != ""
    ensures VerifyPassword(kdf, asInt, given, HashPassword(kdf, c, password, salt).value)
            <==> kdf(given, salt, c.logN, c.blocks, c.lanes) == kdf(password, salt, c.logN, c.blocks, c.lanes)
  {
    PrintedParses(asInt, c, salt, kdf(password, salt, c.logN, c.blocks, c.lanes).value);
  }

  /** With the program's own cost, every password verifies against the hash made of it, and a
      hash is never taken for a plaintext password. */
  lemma ProgramHashVerifies(kdf: Kdf, asInt: AsInt, password: string, salt: seq<Byte>)
    requires asInt("15") == Some(15) && asInt("8") == Some(8) && asInt("1") == Some(1)
    requires password != "" && HashPassword(kdf, COST, password, salt).Some?
    ensures var stored := HashPassword(kdf, COST, password, salt).value;
            IsPasswordHash(stored) && VerifyPassword(kdf, asInt, password, stored)
  {
    CostIsReadable(asInt);
    WrittenHashVerifies(kdf, asInt, COST, password, salt, password);
    PrintedParses(asInt, COST, salt, kdf(password, salt, COST.logN, COST.blocks, COST.lanes).value);
  }

  lemma CostIsReadable(asInt: AsInt)
    requires asInt("15") == Some(15) && asInt("8") == Some(8) && asInt("1") == Some(1)
    ensures Readable(asInt, COST)
  {
  }

  // ------------------------------------------------------------------ tokens

  type Sha = string -> string

  const TOKEN_PREFIX: string := "sha256$"

  /** 64 hex digits; the pattern's end also matches before a last newline. */
  predicate IsDigest(value: string) {
    (|value| == 64 && AllHex(value)) || (|value| == 65 && value[64] == '\n' && AllHex(value[..64]))
  }

  predicate IsTokenHash(value: string) {
    TOKEN_PREFIX <= value && IsDigest(value[|TOKEN_PREFIX|..])
  }

  predicate VerifyToken(sha: Sha, given: string, stored: string) {
    if stored == "" || given == "" then false
    else if IsTokenHash(stored) then sha(given) == stored[|TOKEN_PREFIX|..]
    else given == stored
  }

  ghost predicate PrintsDigests(sha: Sha) {
    forall s: string :: |sha(s)| == 64 && AllHex(sha(s))
  }

  lemma TokenHashVerifies(sha: Sha, token: string, given: string)
    requires PrintsDigests(sha) && given != ""
    ensures IsTokenHash(TOKEN_PREFIX + sha(token))
    ensures VerifyToken(sha, given, TOKEN_PREFIX + sha(token)) <==> sha(given) == sha(token)
  {
    assert (TOKEN_PREFIX + sha(token))[|TOKEN_PREFIX|..] == sha(token);
    assert |sha(token)| == 64 && AllHex(sha(token));
  }

  // --------------------------------------------------------------- hardening

  datatype Key = Password | StaticToken
  datatype Value = Text(text: string) | NotText

  /** A config text: the entries of `[auth]` that hold secrets, and everything else. */
  datatype Doc = Doc(auth: map<Key, Value>, rest: string)

  datatype Hashing = Hashing(kdf: Kdf, asInt: AsInt, sha: Sha, cost: Cost)

  const SECRET_KEYS: seq<Key> := [Password, StaticToken]

  predicate IsHashed(key: Key, value: string) {
    value == "" || (if key == Password then IsPasswordHash(value) else IsTokenHash(value))
  }

  predicate Matches(h: Hashing, key: Key, given: string, stored: string) {
    if key == Password then VerifyPassword(h.kdf, h.asInt, given, stored) else VerifyToken(h.sha, given, stored)
  }

  /** `hash_secret` for a plaintext value; None where the key derivation fails. */
  function HashSecret(h: Hashing, key: Key, value: string, salt: seq<Byte>): Option<string> {
    if IsHashed(key, value) then Some(value)
    else if key == Password then HashPassword(h.kdf, h.cost, value, salt)
    else Some(TOKEN_PREFIX + h.sha(value))
  }

  predicate IsPlain(d: Doc, key: Key) {
    key in d.auth && d.auth[key].Text? && !IsHashed(key, d.auth[key].text)
  }

  function AuthValue(d: Option<Doc>, key: Key): string {
    if d.Some? && key in d.value.auth && d.value.auth[key].Text? then d.value.auth[key].text else ""
  }

  /** The form a plaintext value is replaced with: the one in `reuse` if it matches. */
  function Stored(h: Hashing, key: Key, plain: string, reuse: string, salt: seq<Byte>): Option<string> {
    if reuse != "" && IsHashed(key, reuse) && Matches(h, key, plain, reuse) then Some(reuse)
    else HashSecret(h, key, plain, salt)
  }

  function HardenKey(h: Hashing, d: Doc, reuse: Option<Doc>, salt: seq<Byte>, key: Key): Option<Doc> {
    if !IsPlain(d, key) then Some(d)
    else match Stored(h, key, d.auth[key].text, AuthValue(reuse, key), salt)
      case None => None
      case Some(value) => Some(d.(auth := d.auth[key := Text(value)]))
  }

  /** `harden_text`; None where the key derivation fails. */
  function Harden(h: Hashing, d: Doc, reuse: Option<Doc>, salt: seq<Byte>): Option<Doc> {
    match HardenKey(h, d, reuse, salt, Password)
    case None => None
    case Some(next) => HardenKey(h, next, reuse, salt, StaticToken)
  }

  method HardenText(h: Hashing, d: Doc, reuse: Option<Doc>, salt: seq<Byte>) returns (r: Option<Doc>, changed: seq<Key>)
    ensures r == Harden(h, d, reuse, salt)
    ensures r.Some? ==> forall key :: key in changed <==> IsPlain(d, key)
  {
    var doc := d;
    changed := [];
    for i := 0 to |SECRET_KEYS|
      invariant i == 0 ==> doc == d
      invariant i == 1 ==> HardenKey(h, d, reuse, salt, Password) == Some(doc)
      invariant i == 2 ==> Harden(h, d, reuse, salt) == Some(doc)
      invariant forall key :: key in changed <==> IsPlain(d, key) && (if key == Password then i > 0 else i > 1)
    {
      var key := SECRET_KEYS[i];
      if IsPlain(doc, key) {
        var stored := Stored(h, key, doc.auth[key].text, AuthValue(reuse, key), salt);
        if stored.None? {
          return None, changed;
        }
        doc := doc.(auth := doc.auth[key := Text(stored.value)]);
        changed := changed + [key];
      }
    }
    return Some(doc), changed;
  }

  /** What the hash functions must do for hardening: print digests, and write a cost that can
      be read back. */
  ghost predicate Sane(h: Hashing) {
    PrintsDigests(h.sha) && Readable(h.asInt, h.cost)
  }

  lemma StoredIsHashed(h: Hashing, key: Key, plain: string, reuse: string, salt: seq<Byte>)
    requires Sane(h) && !IsHashed(key, plain) && Stored(h, key, plain, reuse, salt).Some?
    ensures var value := Stored(h, key, plain, reuse, salt).value;
            value != "" && IsHashed(key, value) && Matches(h, key, plain, value)
  {
    var value := Stored(h, key, plain, reuse, salt).value;
    if key == StaticToken {
      TokenHashVerifies(h.sha, plain, plain);
    } else if value != reuse || !Matches(h, key, plain, reuse) {
      WrittenHashVerifies(h.kdf, h.asInt, h.cost, plain, salt, plain);
      PrintedParses(h.asInt, h.cost, salt, h.kdf(plain, salt, h.cost.logN, h.cost.blocks, h.cost.lanes).value);
    }
  }

  /** What one key becomes: it stays, or it becomes the hash of what it was. */
  lemma HardenedKey(h: Hashing, d: Doc, reuse: Option<Doc>, salt: seq<Byte>, key: Key)
    requires Harden(h, d, reuse, salt).Some?
    ensures var out := Harden(h, d, reuse, salt).value;
            && out.auth.Keys == d.auth.Keys && out.rest == d.rest
            && (!IsPlain(d, key) && key in d.auth ==> out.auth[key] == d.auth[key])
            && (IsPlain(d, key) ==>
                  Stored(h, key, d.auth[key].text, AuthValue(reuse, key), salt).Some?
                  && out.auth[key] == Text(Stored(h, key, d.auth[key].text, AuthValue(reuse, key), salt).value))
  {
  }

  /** A hardened text holds no plaintext secret, so hardening it again, with whatever salt and
      whatever to reuse, changes nothing. */
  lemma HardeningAgainChangesNothing(h: Hashing, d: Doc, reuse: Option<Doc>, salt: seq<Byte>, reuse2: Option<Doc>, salt2: seq<Byte>)
    requires Sane(h) && Harden(h, d, reuse, salt).Some?
    ensures var out := Harden(h, d, reuse, salt).value;
            !IsPlain(out, Password) && !IsPlain(out, StaticToken) && Harden(h, out, reuse2, salt2) == Some(out)
  {
    var out := Harden(h, d, reuse, salt).value;
    forall key: Key
      ensures !IsPlain(out, key)
    {
      HardenedKey(h, d, reuse, salt, key);
      if IsPlain(d, key) {
        StoredIsHashed(h, key, d.auth[key].text, AuthValue(reuse, key), salt);
      }
    }
  }

  /** Hardening a text again while reusing the result of the first time gives the same text,
      although the salt is a new one. */
  lemma ReuseIsStable(h: Hashing, d: Doc, reuse: Option<Doc>, salt: seq<Byte>, salt2: seq<Byte>)
    requires Sane(h) && Harden(h, d, reuse, salt).Some?
    ensures Harden(h, d, Some(Harden(h, d, reuse, salt).value), salt2) == Harden(h, d, reuse, salt)
  {
    var out := Harden(h, d, reuse, salt).value;
    forall key: Key
      ensures IsPlain(d, key) ==>
                Stored(h, key, d.auth[key].text, AuthValue(Some(out), key), salt2) == Stored(h, key, d.auth[key].text, AuthValue(reuse, key), salt)
    {
      HardenedKey(h, d, reuse, salt, key);
      if IsPlain(d, key) {
        StoredIsHashed(h, key, d.auth[key].text, AuthValue(reuse, key), salt);
      }
    }
  }

  /** Hardening lets the same secret in as before. */
  lemma HardenedSecretsStillMatch(h: Hashing, d: Doc, reuse: Option<Doc>, salt: seq<Byte>, key: Key, given: string)
    requires Sane(h) && Harden(h, d, reuse, salt).Some? && IsPlain(d, key)
    ensures var out := Harden(h, d, reuse, salt).value;
            && out.auth[key].Text?
            && (Matches(h, key, given, d.auth[key].text) <==> given == d.auth[key].text)
            && (given == d.auth[key].text ==> Matches(h, key, given, out.auth[key].text))
  {
    HardenedKey(h, d, reuse, salt, key);
    StoredIsHashed(h, key, d.auth[key].text, AuthValue(reuse, key), salt);
  }

  /** What a written hash keeps of a secret: the password's key for the salt and cost, or the
      token's digest. */
  predicate SameDigest(h: Hashing, salt: seq<Byte>, key: Key, a: string, b: string) {
    if key == Password then
      h.kdf(a, salt, h.cost.logN, h.cost.blocks, h.cost.lanes) == h.kdf(b, salt, h.cost.logN, h.cost.blocks, h.cost.lanes)
    else h.sha(a) == h.sha(b)
  }

  /** A freshly hardened text lets in exactly the secrets with the same digest as the one it
      held. */
  lemma HardenedSecretsMatchExactly(h: Hashing, d: Doc, salt: seq<Byte>, key: Key, given: string)
    requires Sane(h) && Harden(h, d, None, salt).Some? && IsPlain(d, key)
    ensures var out := Harden(h, d, None, salt).value;
            out.auth[key].Text?
            && (Matches(h, key, given, out.auth[key].text) <==> given != "" && SameDigest(h, salt, key, given, d.auth[key].text))
  {
    HardenedKey(h, d, None, salt, key);
    var plain := d.auth[key].text;
    StoredIsHashed(h, key, plain, "", salt);
    if given != "" {
      if key == Password {
        WrittenHashVerifies(h.kdf, h.asInt, h.cost, plain, salt, given);
      } else {
        TokenHashVerifies(h.sha, plain, given);
      }
    }
  }

  /** So a secret the hash function tells apart from the one the text held is let in after
      hardening exactly if it was let in before. */
  lemma HardeningLetsInNoOther(h: Hashing, d: Doc, salt: seq<Byte>, key: Key, given: string)
    requires Sane(h) && Harden(h, d, None, salt).Some? && IsPlain(d, key)
    requires SameDigest(h, salt, key, given, d.auth[key].text) ==> given == d.auth[key].text
    ensures var out := Harden(h, d, None, salt).value;
            out.auth[key].Text? && (Matches(h, key, given, out.auth[key].text) <==> Matches(h, key, given, d.auth[key].text))
  {
    HardenedSecretsMatchExactly(h, d, salt, key, given);
    HardenedSecretsStillMatch(h, d, None, salt, key, given);
  }
}
