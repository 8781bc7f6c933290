/**
 The stored form of a password: HashPassword, parseArgon2idHash and
 verifyArgon2id of internal/account/domain/credential.go.  Argon2id itself is a
 function parameter; the scanner is fmt.Sscanf restricted to %d.
 */
module Argon2Codec {
  import opened Base64
  import opened Common
  import opened Decimal
  import Text

  datatype Params = Params(memory: nat, time: nat, threads: nat)
  datatype Parsed = Parsed(params: Params, salt: seq<Byte>, hash: seq<Byte>)

  datatype ParseError = BadFormat | NotArgon2id | BadVersion | UnsupportedVersion | BadParams | OutOfBounds
    | BadSalt | SaltLength | BadHash | HashLength

  const VERSION := 19
  const DEFAULT_PARAMS := Params(65536, 1, 4)
  const SALT_LEN := 16
  const KEY_LEN := 32

  const MAX_MEMORY_KIB := 262_144
  const MAX_TIME := 10
  const MAX_THREADS := 16

  predicate ParamsInBounds(p: Params) {
    0 < p.memory <= MAX_MEMORY_KIB && 0 < p.time <= MAX_TIME && 0 < p.threads <= MAX_THREADS
  }

  predicate LengthInBounds(n: nat) {
    16 <= n <= 64
  }

  // ----- fmt.Sscanf -----

  /** The characters fmt treats as white space. */
  predicate IsSpace(c: char) {
    var n := c as int;
    9 <= n <= 13 || n == 0x20 || n == 0x85 || n == 0xA0 || n == 0x1680 || 0x2000 <= n <= 0x200A
    || n == 0x2028 || n == 0x2029 || n == 0x202F || n == 0x205F || n == 0x3000
  }

  /** SkipSpace: a newline is an error, a carriage return right before one included. */
  function SkipSpace(s: string): Option<string> {
    if s == [] then Some(s)
    else if s[0] == '\n' then None
    else if IsSpace(s[0]) then SkipSpace(s[1..])
    else Some(s)
  }

  datatype Scanned = Scanned(value: int, rest: string)

  /** Digits up to `max`; what follows them is left. */
  function ScanDigits(s: string, max: nat): Option<Scanned> {
    var n := DigitRun(s);
    if n == 0 || Value(s[..n]) > max then None else Some(Scanned(Value(s[..n]), s[n..]))
  }

  /** %d into an unsigned variable that holds at most `max`. */
  function ScanUint(s: string, max: nat): Option<Scanned> {
    match SkipSpace(s)
    case None => None
    case Some(t) => ScanDigits(t, max)
  }

  /** %d into an int: an optional sign. */
  function ScanInt(s: string): Option<Scanned> {
    match SkipSpace(s)
    case None => None
    case Some(t) =>
      if t != [] && t[0] == '-' then
        match ScanDigits(t[1..], 0x8000_0000_0000_0000) case None => None case Some(Scanned(n, rest)) => Some(Scanned(-n, rest))
      else
        match ScanDigits(if t != [] && t[0] == '+' then t[1..] else t, 0x7FFF_FFFF_FFFF_FFFF)
        case None => None
        case Some(Scanned(n, rest)) => Some(Scanned(n, rest))
  }

  function Literal(s: string, lit: string): Option<string> {
    if |lit| <= |s| && s[..|lit|] == lit then Some(s[|lit|..]) else None
  }

  /** Sscanf(s, "v=%d", &version); anything after the number is ignored. */
  function ScanVersion(s: string): Option<int> {
    match Literal(s, "v=")
    case None => None
    case Some(t) => match ScanInt(t) case None => None case Some(Scanned(v, _)) => Some(v)
  }

  /** Sscanf(s, "m=%d,t=%d,p=%d", ...) into uint32, uint32, uint8. */
  function ScanParams(s: string): Option<Params> {
    match Field(s, "m=", 0xFFFF_FFFF)
    case None => None
    case Some(Scanned(m, t)) =>
      match Field(t, ",t=", 0xFFFF_FFFF)
      case None => None
      case Some(Scanned(n, u)) =>
        match Field(u, ",p=", 0xFF)
        case None => None
        case Some(Scanned(p, _)) => Some(Params(m, n, p))
  }

  function Field(s: string, lit: string, max: nat): Option<Scanned> {
    match Literal(s, lit)
    case None => None
    case Some(t) => ScanUint(t, max)
  }

  // ----- the codec -----

  function Format(p: Params, salt: seq<Byte>, hash: seq<Byte>): string {
    "$argon2id$v=19$m=" + Print(p.memory) + ",t=" + Print(p.time) + ",p=" + Print(p.threads)
    + "$" + Encode(salt) + "$" + Encode(hash)
  }

  /** Whatever is accepted has parameters and lengths within the bounds. */
  function Parse(s: string): (r: Result<Parsed, ParseError>)
    ensures r.Ok? ==> ParamsInBounds(r.value.params) && LengthInBounds(|r.value.salt|) && LengthInBounds(|r.value.hash|)
  {
    var parts := Text.SplitOn(s, '$');
    if |parts| != 6 then Err(BadFormat)
    else if parts[1] != "argon2id" then Err(NotArgon2id)
    else
      var version := ScanVersion(parts[2]);
      if version.None? then Err(BadVersion)
      else if version.value != VERSION && version.value != VERSION - 1 then Err(UnsupportedVersion)
      else
        var p := ScanParams(parts[3]);
        if p.None? then Err(BadParams)
        else if !ParamsInBounds(p.value) then Err(OutOfBounds)
        else
          var salt := Decode(parts[4]);
          if salt.None? then Err(BadSalt)
          else if !LengthInBounds(|salt.value|) then Err(SaltLength)
          else
            var hash := Decode(parts[5]);
            if hash.None? then Err(BadHash)
            else if !LengthInBounds(|hash.value|) then Err(HashLength)
            else Ok(Parsed(p.value, salt.value, hash.value))
  }

  type IdKey = (string, seq<Byte>, Params, nat) -> seq<Byte>

  function HashPassword(idKey: IdKey, password: string, salt: seq<Byte>): string {
    Format(DEFAULT_PARAMS, salt, idKey(password, salt, DEFAULT_PARAMS, KEY_LEN))
  }

  predicate Verify(idKey: IdKey, password: string, encoded: string) {
    match Parse(encoded)
    case Err(_) => false
    case Ok(h) => idKey(password, h.salt, h.params, |h.hash|) == h.hash
  }

  // ----- scanning what was printed -----

  lemma DigitsBack(n: nat, rest: string, max: nat)
    requires n <= max && (rest == [] || !IsDigit(rest[0]))
    ensures ScanDigits(Print(n) + rest, max) == Some(Scanned(n, rest))
  {
    DigitRunPrint(n, rest);
    ValuePrint(n);
    hide Print, DigitRun, Value;
    var s := Print(n) + rest;
    assert s[..|Print(n)|] == Print(n) && s[|Print(n)|..] == rest;
  }

  lemma NoSpaceAhead(n: nat, rest: string)
    ensures SkipSpace(Print(n) + rest) == Some(Print(n) + rest)
  {
    assert IsDigit(Print(n)[0]);
    hide Print;
  }

  lemma FieldBack(lit: string, n: nat, rest: string, max: nat)
    requires n <= max && (rest == [] || !IsDigit(rest[0]))
    ensures Field(lit + (Print(n) + rest), lit, max) == Some(Scanned(n, rest))
  {
    DigitsBack(n, rest, max);
    NoSpaceAhead(n, rest);
    hide Print, ScanDigits, SkipSpace;
    assert (lit + (Print(n) + rest))[|lit|..] == Print(n) + rest;
  }

  function PrintParams(p: Params): string {
    "m=" + (Print(p.memory) + (",t=" + (Print(p.time) + (",p=" + (Print(p.threads) + "")))))
  }

  lemma ParamsBack(p: Params)
    requires ParamsInBounds(p)
    ensures ScanParams(PrintParams(p)) == Some(p)
  {
    hide Print, Field;
    var u := ",p=" + (Print(p.threads) + "");
    var t := ",t=" + (Print(p.time) + u);
    FieldBack("m=", p.memory, t, 0xFFFF_FFFF);
    FieldBack(",t=", p.time, u, 0xFFFF_FFFF);
    FieldBack(",p=", p.threads, "", 0xFF);
  }

  lemma VersionBack()
    ensures ScanVersion("v=19") == Some(19)
  {
    assert Print(19) == "19";
    var s := "v=" + (Print(19) + "");
    assert s == "v=19" && s[2..] == Print(19) + "";
    NoSpaceAhead(19, "");
    DigitsBack(19, "", 0x7FFF_FFFF_FFFF_FFFF);
    hide ScanDigits, SkipSpace;
  }

  lemma NoDollar(p: Params, bytes: seq<Byte>)
    ensures '$' !in PrintParams(p) && '$' !in Encode(bytes)
  {
    DecodeEncode(bytes);
    assert forall n: nat, i | 0 <= i < |Print(n)| :: IsDigit(Print(n)[i]);
    hide Print, Encode, Decode;
  }

  lemma JoinSix(a: string, b: string, c: string, d: string, e: string, f: string)
    ensures Text.Join([a, b, c, d, e, f], '$') == a + "$" + (b + "$" + (c + "$" + (d + "$" + (e + "$" + f))))
  {
    assert [a, b, c, d, e, f][1..] == [b, c, d, e, f];
    assert [b, c, d, e, f][1..] == [c, d, e, f];
    assert [c, d, e, f][1..] == [d, e, f];
    assert [d, e, f][1..] == [e, f];
    assert [e, f][1..] == [f];
    assert Text.Join([e, f], '$') == e + "$" + f;
    assert Text.Join([d, e, f], '$') == d + "$" + (e + "$" + f);
    assert Text.Join([c, d, e, f], '$') == c + "$" + (d + "$" + (e + "$" + f));
    assert Text.Join([b, c, d, e, f], '$') == b + "$" + (c + "$" + (d + "$" + (e + "$" + f)));
  }

  lemma FormatJoins(p: Params, salt: seq<Byte>, hash: seq<Byte>)
    ensures Format(p, salt, hash) == Text.Join(["", "argon2id", "v=19", PrintParams(p), Encode(salt), Encode(hash)], '$')
  {
    var q, s, h := PrintParams(p), Encode(salt), Encode(hash);
    JoinSix("", "argon2id", "v=19", q, s, h);
    FormatParams(p, salt, hash);
    hide PrintParams, Encode, Format, Text.Join;
    assert "" + "$" + ("argon2id" + "$" + ("v=19" + "$" + (q + "$" + (s + "$" + h))))
        == "$argon2id$v=19$" + q + "$" + s + "$" + h;
  }

  lemma FormatParams(p: Params, salt: seq<Byte>, hash: seq<Byte>)
    ensures Format(p, salt, hash) == "$argon2id$v=19$" + PrintParams(p) + "$" + Encode(salt) + "$" + Encode(hash)
  {
    hide Print, Encode;
    assert PrintParams(p) == "m=" + Print(p.memory) + ",t=" + Print(p.time) + ",p=" + Print(p.threads);
  }

  /** Parsing undoes formatting, for all parameters, salts and hashes within the bounds. */
  lemma ParseFormat(p: Params, salt: seq<Byte>, hash: seq<Byte>)
    requires ParamsInBounds(p) && LengthInBounds(|salt|) && LengthInBounds(|hash|)
    ensures Parse(Format(p, salt, hash)) == Ok(Parsed(p, salt, hash))
  {
    var parts := ["", "argon2id", "v=19", PrintParams(p), Encode(salt), Encode(hash)];
    FormatJoins(p, salt, hash);
    NoDollar(p, salt);
    NoDollar(p, hash);
    hide Format, PrintParams, Encode, Decode, ScanVersion, ScanParams, Text.Join;
    Text.SplitJoin(parts, '$');
    VersionBack();
    ParamsBack(p);
    DecodeEncode(salt);
    DecodeEncode(hash);
  }

  /** A password verifies against a stored hash exactly when Argon2id gives it the same key. */
  lemma VerifyHashed(idKey: IdKey, stored: string, tried: string, salt: seq<Byte>)
    requires |salt| == SALT_LEN && |idKey(stored, salt, DEFAULT_PARAMS, KEY_LEN)| == KEY_LEN
    ensures Verify(idKey, tried, HashPassword(idKey, stored, salt)) <==>
              idKey(tried, salt, DEFAULT_PARAMS, KEY_LEN) == idKey(stored, salt, DEFAULT_PARAMS, KEY_LEN)
    ensures Verify(idKey, stored, HashPassword(idKey, stored, salt))
  {
    hide Parse, Format;
    ParseFormat(DEFAULT_PARAMS, salt, idKey(stored, salt, DEFAULT_PARAMS, KEY_LEN));
  }
}
