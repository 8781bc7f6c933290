/**
 The password-reset token (internal/auth/service/password_reset_service.go).

 The record is stored as JSON text, and the attempt script rewrites that text:
 it finds the counter with a pattern match and replaces it with gsub.  First
 the text: the rewrite is the text of the updated record, for every account id,
 email and user name.  Then the token's life: how often it passes, how long it
 lasts.
 */
module ResetToken {
  import opened Common
  import opened Decimal

  datatype ResetData = ResetData(accountId: string, email: string, username: string, attempts: nat)

  // ----- encoding/json -----

  function Hex(n: nat): char
    requires n < 16
  {
    if n < 10 then ('0' as int + n) as char else ('a' as int + n - 10) as char
  }

  /** How encoding/json writes one character of a string, with HTML escaping on. */
  function Escape(c: char): (e: string)
    ensures QuotesHidden(e)
  {
    if c == '"' then "\\\""
    else if c == '\\' then "\\\\"
    else if c as int == 8 then "\\b"
    else if c as int == 12 then "\\f"
    else if c == '\n' then "\\n"
    else if c == '\r' then "\\r"
    else if c == '\t' then "\\t"
    else if c as int < 0x20 || c == '<' || c == '>' || c == '&' then "\\u00" + [Hex(c as int / 16 % 16), Hex(c as int % 16)]
    else if c == '\U{2028}' then "\\u2028"
    else if c == '\U{2029}' then "\\u2029"
    else [c]
  }

  function EscapeAll(s: string): string {
    if s == [] then "" else Escape(s[0]) + EscapeAll(s[1..])
  }

  function Quote(s: string): string {
    "\"" + EscapeAll(s) + "\""
  }

  const KEY := "\"attempts\":"

  /** Everything in front of the counter's key; an empty user name is omitted. */
  function Head(d: ResetData): string {
    "{\"account_id\":" + (Quote(d.accountId) + ",") + "\"email\":" + (Quote(d.email) + ",")
    + if d.username == "" then "" else "\"username\":" + (Quote(d.username) + ",")
  }

  function Marshal(d: ResetData): string {
    Head(d) + KEY + (Print(d.attempts) + "}")
  }

  // ----- the script's text operations -----

  predicate StartsWith(text: string, pat: string) {
    |pat| <= |text| && text[..|pat|] == pat
  }

  /** string.match(data, '"attempts":(%d+)'): the first hit's digits. */
  function MatchAttempts(text: string): Option<string> {
    if StartsWith(text, KEY) && DigitRun(text[|KEY|..]) > 0 then Some(text[|KEY|..][..DigitRun(text[|KEY|..])])
    else if text == [] then None
    else MatchAttempts(text[1..])
  }

  /** string.gsub with a pattern and replacement free of magic characters. */
  function Gsub(text: string, pat: string, rep: string): string
    requires pat != []
  {
    if text == [] then []
    else if StartsWith(text, pat) then rep + Gsub(text[|pat|..], pat, rep)
    else [text[0]] + Gsub(text[1..], pat, rep)
  }

  /** tonumber(match) or 0 */
  function AttemptsIn(text: string): nat {
    match MatchAttempts(text)
    case None => 0
    case Some(digits) => if AllDigits(digits) then Value(digits) else 0
  }

  function Bumped(text: string): string {
    Gsub(text, KEY + Print(AttemptsIn(text)), KEY + Print(AttemptsIn(text) + 1))
  }

  // ----- the key occurs nowhere else -----

  /** No s, quote, colon in a row: how the key ends, and nothing else does. */
  ghost predicate Clean(t: string) {
    forall i | 0 <= i && i + 2 < |t| :: !(t[i] == 's' && t[i + 1] == '"' && t[i + 2] == ':')
  }

  predicate EndsPiece(t: string) {
    t != [] && (t[|t| - 1] == ':' || t[|t| - 1] == ',')
  }

  /** Pieces that end in a colon or comma and start with a quote join cleanly. */
  lemma CleanJoin(a: string, b: string)
    requires Clean(a) && Clean(b) && EndsPiece(a) && b != [] && b[0] == '"'
    ensures Clean(a + b)
  {
    var t := a + b;
    forall i | 0 <= i && i + 2 < |t| ensures !(t[i] == 's' && t[i + 1] == '"' && t[i + 2] == ':') {
      if i + 2 < |a| {
        assert t[i] == a[i] && t[i + 1] == a[i + 1] && t[i + 2] == a[i + 2];
      } else if i >= |a| {
        assert t[i] == b[i - |a|] && t[i + 1] == b[i + 1 - |a|] && t[i + 2] == b[i + 2 - |a|];
      }
    }
  }

  ghost predicate QuotesHidden(e: string) {
    forall i | 0 <= i < |e| && e[i] == '"' :: i > 0 && e[i - 1] == '\\'
  }

  lemma {:induction false} QuotesEscaped(s: string)
    ensures QuotesHidden(EscapeAll(s))
  {
    if s != [] {
      QuotesEscaped(s[1..]);
      var first, e := Escape(s[0]), EscapeAll(s[1..]);
      assert QuotesHidden(first);
      hide Escape;
      assert forall i | 0 <= i < |e| :: (first + e)[|first| + i] == e[i];
    }
  }

  lemma ValueClean(s: string)
    ensures Clean(Quote(s) + ",") && EndsPiece(Quote(s) + ",") && (Quote(s) + ",")[0] == '"'
  {
    QuotesEscaped(s);
    hide EscapeAll;
    var e := EscapeAll(s);
    var t := Quote(s) + ",";
    assert |t| == |e| + 3 && t[|e| + 2] == ',';
    assert forall i | 0 < i <= |e| :: t[i] == e[i - 1];
    assert forall i | 1 < i <= |e| && t[i] == '"' :: t[i - 1] == '\\';
  }

  lemma HeadClean(d: ResetData)
    ensures Clean(Head(d)) && EndsPiece(Head(d))
  {
    ValueClean(d.accountId);
    ValueClean(d.email);
    ValueClean(d.username);
    hide Quote;
    var a := Quote(d.accountId) + ",";
    var e := Quote(d.email) + ",";
    var u := Quote(d.username) + ",";
    var k0, k1, k2 := "{\"account_id\":", "\"email\":", "\"username\":";
    assert Clean(k0) && Clean(k1) && Clean(k2);
    CleanJoin(k0, a);
    CleanJoin(k0 + a, k1);
    CleanJoin(k0 + a + k1, e);
    if d.username != "" {
      CleanJoin(k0 + a + k1 + e, k2);
      CleanJoin(k0 + a + k1 + e + k2, u);
      assert Head(d) == k0 + a + k1 + e + k2 + u;
    } else {
      assert Head(d) == k0 + a + k1 + e;
    }
  }

  /** In front of the key, and from inside it on, the key does not start. */
  lemma KeyOnlyOnce(h: string, tail: string, i: nat)
    requires Clean(h) && i < |h|
    ensures !StartsWith((h + KEY + tail)[i..], KEY)
  {
    var t := h + KEY + tail;
    assert StartsWith(t[i..], KEY) ==> t[i + 8] == 's' && t[i + 9] == '"' && t[i + 10] == ':' by {
      assert t[i + 8] == t[i..][..11][8] && t[i + 9] == t[i..][..11][9] && t[i + 10] == t[i..][..11][10];
      assert KEY[8] == 's' && KEY[9] == '"' && KEY[10] == ':';
    }
    if i + 10 < |h| {
      assert t[i + 8] == h[i + 8] && t[i + 9] == h[i + 9] && t[i + 10] == h[i + 10];
    } else {
      assert t[i + 10] == KEY[i + 10 - |h|];
    }
  }

  // ----- match and gsub on such a text -----

  lemma {:induction false} MatchSkips(h: string, tail: string)
    requires forall i: nat | i < |h| :: !StartsWith((h + tail)[i..], KEY)
    ensures MatchAttempts(h + tail) == MatchAttempts(tail)
  {
    if h == [] {
      assert h + tail == tail;
    } else {
      assert (h + tail)[0..] == h + tail;
      assert (h + tail)[1..] == h[1..] + tail;
      forall i: nat | i < |h| - 1 ensures !StartsWith((h[1..] + tail)[i..], KEY) {
        assert (h[1..] + tail)[i..] == (h + tail)[i + 1..];
      }
      MatchSkips(h[1..], tail);
    }
  }

  lemma {:induction false} GsubSkips(h: string, tail: string, pat: string, rep: string)
    requires pat != []
    requires forall i: nat | i < |h| :: !StartsWith((h + tail)[i..], pat)
    ensures Gsub(h + tail, pat, rep) == h + Gsub(tail, pat, rep)
  {
    if h == [] {
      assert h + tail == tail;
    } else {
      assert (h + tail)[0..] == h + tail;
      assert (h + tail)[1..] == h[1..] + tail;
      forall i: nat | i < |h| - 1 ensures !StartsWith((h[1..] + tail)[i..], pat) {
        assert (h[1..] + tail)[i..] == (h + tail)[i + 1..];
      }
      GsubSkips(h[1..], tail, pat, rep);
      assert [h[0]] + (h[1..] + Gsub(tail, pat, rep)) == h + Gsub(tail, pat, rep);
    }
  }

  lemma KeyNotInHead(d: ResetData)
    ensures forall i: nat | i < |Head(d)| :: !StartsWith((Head(d) + (KEY + (Print(d.attempts) + "}")))[i..], KEY)
  {
    HeadClean(d);
    hide Head, Clean, Print, StartsWith;
    var tail := Print(d.attempts) + "}";
    assert Head(d) + (KEY + tail) == Head(d) + KEY + tail;
    forall i: nat | i < |Head(d)| ensures !StartsWith((Head(d) + (KEY + tail))[i..], KEY) {
      KeyOnlyOnce(Head(d), tail, i);
    }
  }

  /** The pattern match reads the counter of the record. */
  lemma AttemptsOfMarshal(d: ResetData)
    ensures AttemptsIn(Marshal(d)) == d.attempts
  {
    KeyNotInHead(d);
    hide Head, Print;
    var tail := Print(d.attempts) + "}";
    assert Marshal(d) == Head(d) + (KEY + tail);
    MatchSkips(Head(d), KEY + tail);
    DigitRunPrint(d.attempts, "}");
    ValuePrint(d.attempts);
    hide DigitRun, Value;
    assert (KEY + tail)[|KEY|..] == tail && tail[..|Print(d.attempts)|] == Print(d.attempts);
  }

  lemma HeadWithoutCounter(d: ResetData, n: nat)
    ensures Head(d.(attempts := n)) == Head(d)
  {
  }

  lemma GsubHit(pat: string, rep: string)
    requires pat != [] && pat[0] != '}'
    ensures Gsub(pat + "}", pat, rep) == rep + "}"
  {
    var text := pat + "}";
    assert text[..|pat|] == pat && text[|pat|..] == "}";
    assert !StartsWith("}", pat);
    assert "}"[1..] == [];
    assert Gsub([], pat, rep) == [];
    assert Gsub("}", pat, rep) == ['}'] + Gsub("}"[1..], pat, rep);
  }

  lemma PrefixOfPattern(t: string, a: string, b: string)
    ensures StartsWith(t, a + b) ==> StartsWith(t, a)
  {
    if StartsWith(t, a + b) { assert t[..|a|] == t[..|a + b|][..|a|]; }
  }

  lemma MarshalSplits(d: ResetData)
    ensures Marshal(d) == Head(d) + (KEY + (Print(d.attempts) + "}"))
  {
    hide Head, Print;
  }

  lemma GsubCounter(h: string, num: string, num': string)
    requires forall i: nat | i < |h| :: !StartsWith((h + (KEY + (num + "}")))[i..], KEY)
    ensures Gsub(h + (KEY + (num + "}")), KEY + num, KEY + num') == h + (KEY + (num' + "}"))
  {
    var pat, rep := KEY + num, KEY + num';
    assert KEY + (num + "}") == pat + "}" && KEY + (num' + "}") == rep + "}";
    forall i: nat | i < |h| ensures !StartsWith((h + (pat + "}"))[i..], pat) {
      PrefixOfPattern((h + (pat + "}"))[i..], KEY, num);
    }
    GsubSkips(h, pat + "}", pat, rep);
    GsubHit(pat, rep);
  }

  lemma GsubMarshal(d: ResetData, num: string)
    ensures Gsub(Marshal(d), KEY + Print(d.attempts), KEY + num) == Head(d) + (KEY + (num + "}"))
  {
    hide Head, Print, Gsub, StartsWith;
    KeyNotInHead(d);
    MarshalSplits(d);
    GsubCounter(Head(d), Print(d.attempts), num);
  }

  /** The textual edit is the structural update: the counter moves, nothing else does. */
  lemma BumpedIsUpdate(d: ResetData)
    ensures Bumped(Marshal(d)) == Marshal(d.(attempts := d.attempts + 1))
  {
    hide Head, Print, AttemptsIn, Gsub, Marshal;
    var d' := d.(attempts := d.attempts + 1);
    AttemptsOfMarshal(d);
    GsubMarshal(d, Print(d'.attempts));
    HeadWithoutCounter(d, d'.attempts);
    MarshalSplits(d');
  }

  // ----- reading the record back -----

  function HexValue(c: char): Option<nat> {
    if '0' <= c <= '9' then Some(c as int - '0' as int)
    else if 'a' <= c <= 'f' then Some(c as int - 'a' as int + 10)
    else if 'A' <= c <= 'F' then Some(c as int - 'A' as int + 10)
    else None
  }

  /** The character a \u escape of the Basic Multilingual Plane stands for. */
  function CodePoint(h: string): Option<char>
    requires |h| == 4
  {
    match (HexValue(h[0]), HexValue(h[1]), HexValue(h[2]), HexValue(h[3]))
    case (Some(a), Some(b), Some(c), Some(d)) =>
      var n := 4096 * a + 256 * b + 16 * c + d;
      if n < 0xD800 || 0xE000 <= n < 0x10000 then Some(n as char) else None
    case _ => None
  }

  function Cons(c: char, r: Option<(string, string)>): Option<(string, string)> {
    match r
    case None => None
    case Some((s, rest)) => Some(([c] + s, rest))
  }

  /** Section 7 of RFC 8259, after the opening quote: the string and what follows the closing one. */
  function ReadString(t: string): Option<(string, string)> {
    if t == [] then None
    else if t[0] == '"' then Some(([], t[1..]))
    else if t[0] != '\\' then Cons(t[0], ReadString(t[1..]))
    else if |t| < 2 then None
    else if t[1] == '"' || t[1] == '\\' || t[1] == '/' then Cons(t[1], ReadString(t[2..]))
    else if t[1] == 'b' then Cons(8 as char, ReadString(t[2..]))
    else if t[1] == 'f' then Cons(12 as char, ReadString(t[2..]))
    else if t[1] == 'n' then Cons('\n', ReadString(t[2..]))
    else if t[1] == 'r' then Cons('\r', ReadString(t[2..]))
    else if t[1] == 't' then Cons('\t', ReadString(t[2..]))
    else if t[1] == 'u' && |t| >= 6 && CodePoint(t[2..6]).Some? then Cons(CodePoint(t[2..6]).value, ReadString(t[6..]))
    else None
  }

  lemma HexBack(n: nat)
    requires n < 16
    ensures HexValue(Hex(n)) == Some(n)
  {
  }

  lemma ReadUnicode(t: string, h: string, c: char)
    requires |h| == 4 && CodePoint(h) == Some(c)
    ensures ReadString("\\u" + h + t) == Cons(c, ReadString(t))
  {
    hide CodePoint;
    var u := "\\u" + h + t;
    assert u[0] == '\\' && u[1] == 'u' && u[2..6] == h && u[6..] == t;
  }

  lemma ReadShort(t: string, k: char)
    requires k in "\"\\bfnrt"
    ensures var u := ['\\', k] + t; u[0] == '\\' && u[1] == k && u[2..] == t && |u| >= 2
  {
  }

  lemma ReadControl(c: char, t: string)
    requires c as int < 256
    ensures ReadString("\\u00" + [Hex(c as int / 16 % 16), Hex(c as int % 16)] + t) == Cons(c, ReadString(t))
  {
    var hi, lo := c as int / 16 % 16, c as int % 16;
    HexBack(hi);
    HexBack(lo);
    var h := "00" + [Hex(hi), Hex(lo)];
    assert 16 * hi + lo == c as int;
    hide Hex, ReadString;
    assert CodePoint(h) == Some(c);
    assert "\\u00" + [Hex(hi), Hex(lo)] + t == "\\u" + h + t;
    ReadUnicode(t, h, c);
  }

  lemma ReadPlain(c: char, t: string)
    requires c != '"' && c != '\\'
    ensures ReadString([c] + t) == Cons(c, ReadString(t))
  {
    assert ([c] + t)[1..] == t;
  }

  lemma ReadTwo(k: char, c: char, t: string)
    requires k in "\"\\bfnrt"
    requires c == (match k case 'b' => 8 as char case 'f' => 12 as char case 'n' => '\n' case 'r' => '\r' case 't' => '\t' case _ => k)
    ensures ReadString(['\\', k] + t) == Cons(c, ReadString(t))
  {
    ReadShort(t, k);
  }

  lemma ReadSeparator(c: char, h: string, t: string)
    requires (c == '\U{2028}' && h == "2028") || (c == '\U{2029}' && h == "2029")
    ensures ReadString("\\u" + h + t) == Cons(c, ReadString(t))
  {
    assert CodePoint(h) == Some(c);
    hide ReadString, CodePoint;
    ReadUnicode(t, h, c);
  }

  lemma ReadEscape(c: char, t: string)
    ensures ReadString(Escape(c) + t) == Cons(c, ReadString(t))
  {
    hide ReadString, Cons, Hex;
    if c == '\U{2028}' {
      ReadSeparator(c, "2028", t);
      assert Escape(c) == "\\u" + "2028";
    } else if c == '\U{2029}' {
      ReadSeparator(c, "2029", t);
      assert Escape(c) == "\\u" + "2029";
    } else if |Escape(c)| == 1 {
      ReadPlain(c, t);
    } else if |Escape(c)| == 2 {
      ReadTwo(Escape(c)[1], c, t);
      assert Escape(c) == ['\\', Escape(c)[1]];
    } else {
      ReadControl(c, t);
    }
  }

  /** A quoted string is read back whole, and nothing after it is touched. */
  lemma {:induction false} ReadQuoted(s: string, rest: string)
    ensures ReadString(EscapeAll(s) + "\"" + rest) == Some((s, rest))
  {
    if s == [] {
      assert (EscapeAll(s) + "\"" + rest)[1..] == rest;
    } else {
      ReadQuoted(s[1..], rest);
      hide Escape;
      ReadEscape(s[0], EscapeAll(s[1..]) + "\"" + rest);
      assert EscapeAll(s) + "\"" + rest == Escape(s[0]) + (EscapeAll(s[1..]) + "\"" + rest);
      assert [s[0]] + s[1..] == s;
    }
  }

  /** A member whose value is a string: its value and what follows. */
  function ReadMember(t: string, name: string): Option<(string, string)> {
    if StartsWith(t, name + "\"") then ReadString(t[|name| + 1..]) else None
  }

  function ReadCounter(t: string): Option<nat> {
    if StartsWith(t, KEY) && DigitRun(t[|KEY|..]) > 0 && t[|KEY|..][DigitRun(t[|KEY|..])..] == "}"
    then Some(Value(t[|KEY|..][..DigitRun(t[|KEY|..])]))
    else None
  }

  /** A reader of the record's layout. */
  function Unmarshal(t: string): Option<ResetData> {
    match ReadMember(t, "{\"account_id\":")
    case None => None
    case Some((accountId, t1)) =>
      match ReadMember(t1, ",\"email\":")
      case None => None
      case Some((email, t2)) =>
        var (username, t3) := match ReadMember(t2, ",\"username\":") case None => ("", t2) case Some(r) => r;
        if t3 == [] || t3[0] != ',' then None
        else
          match ReadCounter(t3[1..])
          case None => None
          case Some(n) => Some(ResetData(accountId, email, username, n))
  }

  lemma MemberBack(name: string, s: string, rest: string)
    ensures ReadMember(name + Quote(s) + rest, name) == Some((s, rest))
  {
    ReadQuoted(s, rest);
    hide EscapeAll, ReadString;
    var t := name + Quote(s) + rest;
    assert t[..|name| + 1] == name + "\"";
    assert t[|name| + 1..] == EscapeAll(s) + "\"" + rest;
  }

  lemma CounterBack(n: nat)
    ensures ReadCounter(KEY + (Print(n) + "}")) == Some(n)
  {
    hide Print, Value;
    var tail := Print(n) + "}";
    assert (KEY + tail)[|KEY|..] == tail && (KEY + tail)[..|KEY|] == KEY;
    DigitRunPrint(n, "}");
    assert tail[..|Print(n)|] == Print(n) && tail[|Print(n)|..] == "}";
    ValuePrint(n);
  }

  /** The stored text determines the record: reading undoes writing. */
  lemma UnmarshalMarshal(d: ResetData)
    ensures Unmarshal(Marshal(d)) == Some(d)
  {
    hide Quote, Print, ReadMember, ReadCounter;
    var counter := KEY + (Print(d.attempts) + "}");
    var k0, k1, k2 := "{\"account_id\":", ",\"email\":", ",\"username\":";
    var t3 := "," + counter;
    var t2 := if d.username == "" then t3 else k2 + Quote(d.username) + t3;
    var t1 := k1 + Quote(d.email) + t2;
    assert Marshal(d) == k0 + Quote(d.accountId) + t1 by { Layout(d); }
    MemberBack(k0, d.accountId, t1);
    MemberBack(k1, d.email, t2);
    MemberBack(k2, d.username, t3);
    CounterBack(d.attempts);
    assert ReadMember(t3, k2) == None by { NoUserName(counter); }
    assert t3[1..] == counter;
    hide Marshal;
  }

  lemma Differ(t: string, pat: string, i: nat)
    requires i < |pat| && i < |t| && t[i] != pat[i]
    ensures !StartsWith(t, pat)
  {
    if |pat| <= |t| { assert t[..|pat|][i] == t[i]; }
  }

  lemma NoUserName(counter: string)
    requires StartsWith(counter, KEY)
    ensures ReadMember("," + counter, ",\"username\":") == None
  {
    assert ("," + counter)[2] == counter[..|KEY|][1] == 'a';
    var name := ",\"username\":" + "\"";
    assert name[2] == 'u';
    Differ("," + counter, name, 2);
  }

  lemma Layout(d: ResetData)
    ensures var counter := KEY + (Print(d.attempts) + "}");
            var k0, k1, k2 := "{\"account_id\":", ",\"email\":", ",\"username\":";
            var t3 := "," + counter;
            var t2 := if d.username == "" then t3 else k2 + Quote(d.username) + t3;
            Marshal(d) == k0 + Quote(d.accountId) + (k1 + Quote(d.email) + t2)
  {
    hide Quote, Print;
  }

  // ----- the script and the life of a token -----

  datatype Verdict = Missing | Exhausted | Passed | ScriptError

  /** One key: the record, its expiry, and since when and how often it has been let through. */
  datatype Life = Life(now: int, entry: Option<Entry>, issuedAt: int, passes: nat)
  datatype Entry = Entry(data: ResetData, expireAt: int)

  datatype Config = Config(maxAttempts: nat, ttlMs: nat)

  predicate Alive(l: Life) {
    l.entry.Some? && l.now <= l.entry.value.expireAt
  }

  /** SETEX takes whole seconds and refuses 0. */
  function Renewal(cfg: Config): nat {
    cfg.ttlMs / 1000
  }

  function Verify(cfg: Config, l: Life): (Life, Verdict) {
    if !Alive(l) then (l, Missing)
    else
      var d := l.entry.value.data;
      if d.attempts >= cfg.maxAttempts then (l.(entry := None), Exhausted)
      else if Renewal(cfg) == 0 then (l, ScriptError)
      else
        var d' := d.(attempts := d.attempts + 1);
        (l.(entry := Some(Entry(d', l.now + Renewal(cfg) * 1000)), passes := l.passes + 1), Passed)
  }

  datatype Action = Tick(ms: nat) | Attempt | Delete

  function Step(cfg: Config, l: Life, a: Action): Life {
    match a
    case Tick(ms) => l.(now := l.now + ms)
    case Attempt => Verify(cfg, l).0
    case Delete => l.(entry := None)
  }

  /** RequestReset stores the record under a fresh token. */
  function Issued(cfg: Config, now: int, d: ResetData): Life {
    Life(now, Some(Entry(d, now + cfg.ttlMs)), now, 0)
  }

  function Run(cfg: Config, l: Life, acts: seq<Action>): Life {
    if acts == [] then l else Step(cfg, Run(cfg, l, acts[..|acts| - 1]), acts[|acts| - 1])
  }

  ghost predicate LifeOk(cfg: Config, d: ResetData, l: Life) {
    && l.passes <= cfg.maxAttempts
    && (l.entry.Some? ==>
          && l.entry.value.data == d.(attempts := l.passes)
          && l.entry.value.expireAt <= l.issuedAt + cfg.ttlMs + l.passes * cfg.ttlMs)
  }

  lemma StepKeepsLife(cfg: Config, d: ResetData, l: Life, a: Action)
    requires LifeOk(cfg, d, l)
    ensures LifeOk(cfg, d, Step(cfg, l, a)) && Step(cfg, l, a).issuedAt == l.issuedAt
  {
    if a.Attempt? && Verify(cfg, l).1.Passed? {
      assert l.now + Renewal(cfg) * 1000 <= l.entry.value.expireAt + cfg.ttlMs;
      assert (l.passes + 1) * cfg.ttlMs == l.passes * cfg.ttlMs + cfg.ttlMs;
    }
  }

  /**
   However attempts, waiting and deletions follow each other: the token passes
   at most maxAttempts times, its record stays what was issued apart from the
   counter, and it is gone (maxAttempts + 1) lifetimes after its issue.
   */
  lemma {:induction false} TokenLife(cfg: Config, now: int, d: ResetData, acts: seq<Action>)
    requires d.attempts == 0
    ensures var l := Run(cfg, Issued(cfg, now, d), acts);
            && LifeOk(cfg, d, l) && l.issuedAt == now
            && l.passes <= cfg.maxAttempts
            && (Alive(l) ==> l.now <= now + (cfg.maxAttempts + 1) * cfg.ttlMs)
  {
    if acts != [] {
      var prefix := acts[..|acts| - 1];
      TokenLife(cfg, now, d, prefix);
      StepKeepsLife(cfg, d, Run(cfg, Issued(cfg, now, d), prefix), acts[|acts| - 1]);
    }
    var l := Run(cfg, Issued(cfg, now, d), acts);
    hide Run;
    TimesMonotone(l.passes, cfg.maxAttempts, cfg.ttlMs);
  }

  lemma TimesMonotone(a: nat, b: nat, c: nat)
    requires a <= b
    ensures a * c <= b * c && (b + 1) * c == b * c + c
  {
    assert (b - a) * c >= 0;
  }

  /** The stored text of one token key, as the script and the service change it. */
  class TokenStore {
    const cfg: Config
    var now: int
    var text: Option<string>
    var expireAt: int
    ghost var life: Life

    ghost predicate Valid()
      reads this
    {
      && life.now == now
      && (text.Some? <==> life.entry.Some?)
      && (text.Some? ==> text.value == Marshal(life.entry.value.data) && expireAt == life.entry.value.expireAt)
    }

    constructor (cfg: Config, now: int, d: ResetData)
      ensures Valid() && this.cfg == cfg && life == Issued(cfg, now, d)
    {
      this.cfg := cfg;
      this.now := now;
      text := Some(Marshal(d));
      expireAt := now + cfg.ttlMs;
      life := Issued(cfg, now, d);
    }

    /** checkAndIncrementAttemptsScript: works on the text, means Verify. */
    method CheckAndIncrement() returns (updated: Option<string>, v: Verdict)
      requires Valid()
      modifies this
      ensures Valid() && now == old(now) && (life, v) == Verify(cfg, old(life))
      ensures v.Passed? ==> life.entry.Some? && updated == Some(Marshal(life.entry.value.data))
      ensures !v.Passed? ==> updated == None
    {
      hide Marshal, Bumped, AttemptsIn;
      if text.None? || now > expireAt { return None, Missing; }
      var data := text.value;
      ghost var d := life.entry.value.data;
      AttemptsOfMarshal(d);
      BumpedIsUpdate(d);
      var attempts := AttemptsIn(data);
      if attempts >= cfg.maxAttempts {
        life := Verify(cfg, life).0;
        text := None;
        return None, Exhausted;
      }
      var rewritten := Bumped(data);
      if Renewal(cfg) == 0 { return None, ScriptError; }
      life := Verify(cfg, life).0;
      text := Some(rewritten);
      expireAt := now + Renewal(cfg) * 1000;
      return text, Passed;
    }
  }
}
