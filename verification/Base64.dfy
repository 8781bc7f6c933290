/** Unpadded standard base64 (section 4 of RFC 4648), as Go's RawStdEncoding reads and writes it. */
module Base64 {
  import opened Common

  type Byte = b: int | 0 <= b < 256
  type Sextet = v: int | 0 <= v < 64

  function Letter(v: Sextet): (c: char)
    ensures IsLetter(c)
  {
    if v < 26 then ('A' as int + v) as char
    else if v < 52 then ('a' as int + v - 26) as char
    else if v < 62 then ('0' as int + v - 52) as char
    else if v == 62 then '+' else '/'
  }

  predicate IsLetter(c: char) {
    'A' <= c <= 'Z' || 'a' <= c <= 'z' || '0' <= c <= '9' || c == '+' || c == '/'
  }

  function Rank(c: char): (v: Sextet)
    requires IsLetter(c)
    ensures Letter(v) == c
  {
    if 'A' <= c <= 'Z' then c as int - 'A' as int
    else if 'a' <= c <= 'z' then c as int - 'a' as int + 26
    else if '0' <= c <= '9' then c as int - '0' as int + 52
    else if c == '+' then 62 else 63
  }

  lemma LetterBack(v: Sextet)
    ensures Rank(Letter(v)) == v
  {
  }

  // ----- bytes to sextets and back -----

  function Top(a: Byte): Sextet { a as int / 4 }
  function Middle(a: Byte, b: Byte): Sextet { a as int % 4 * 16 + b as int / 16 }
  function Lower(b: Byte, c: Byte): Sextet { b as int % 16 * 4 + c as int / 64 }
  function Bottom(c: Byte): Sextet { c as int % 64 }

  function Split(bytes: seq<Byte>): seq<Sextet> {
    if |bytes| == 0 then []
    else if |bytes| == 1 then [Top(bytes[0]), Middle(bytes[0], 0)]
    else if |bytes| == 2 then [Top(bytes[0]), Middle(bytes[0], bytes[1]), Lower(bytes[1], 0)]
    else [Top(bytes[0]), Middle(bytes[0], bytes[1]), Lower(bytes[1], bytes[2]), Bottom(bytes[2])] + Split(bytes[3..])
  }

  function First(u: Sextet, v: Sextet): Byte { u as int * 4 + v as int / 16 }
  function Second(v: Sextet, w: Sextet): Byte { v as int % 16 * 16 + w as int / 4 }
  function Third(w: Sextet, x: Sextet): Byte { w as int % 4 * 64 + x as int }

  /** A lone last sextet is an error; left-over low bits are ignored. */
  function Gather(vs: seq<Sextet>): Option<seq<Byte>> {
    if |vs| == 0 then Some([])
    else if |vs| == 1 then None
    else if |vs| == 2 then Some([First(vs[0], vs[1])])
    else if |vs| == 3 then Some([First(vs[0], vs[1]), Second(vs[1], vs[2])])
    else
      match Gather(vs[4..])
      case None => None
      case Some(rest) => Some([First(vs[0], vs[1]), Second(vs[1], vs[2]), Third(vs[2], vs[3])] + rest)
  }

  lemma GroupBack(a: Byte, b: Byte, c: Byte)
    ensures First(Top(a), Middle(a, b)) == a
    ensures Second(Middle(a, b), Lower(b, c)) == b
    ensures Third(Lower(b, c), Bottom(c)) == c
  {
  }

  lemma {:induction false} GatherSplit(bytes: seq<Byte>)
    ensures Gather(Split(bytes)) == Some(bytes)
  {
    hide First, Second, Third, Top, Middle, Lower, Bottom;
    if |bytes| == 1 {
      GroupBack(bytes[0], 0, 0);
      assert bytes == [bytes[0]];
    } else if |bytes| == 2 {
      GroupBack(bytes[0], bytes[1], 0);
      assert bytes == [bytes[0], bytes[1]];
    } else if |bytes| > 2 {
      GatherSplit(bytes[3..]);
      GroupBack(bytes[0], bytes[1], bytes[2]);
      var vs := Split(bytes);
      assert vs[4..] == Split(bytes[3..]);
      assert bytes == [bytes[0], bytes[1], bytes[2]] + bytes[3..];
    }
  }

  // ----- text -----

  function Letters(vs: seq<Sextet>): (s: string)
    ensures |s| == |vs| && forall i | 0 <= i < |vs| :: s[i] == Letter(vs[i])
  {
    seq(|vs|, i requires 0 <= i < |vs| => Letter(vs[i]))
  }

  function Encode(bytes: seq<Byte>): string {
    Letters(Split(bytes))
  }

  /** The decoder skips line breaks wherever they stand. */
  function StripLineBreaks(s: string): string {
    if s == [] then []
    else (if s[0] == '\r' || s[0] == '\n' then [] else [s[0]]) + StripLineBreaks(s[1..])
  }

  function Decode(s: string): Option<seq<Byte>> {
    var t := StripLineBreaks(s);
    if forall i | 0 <= i < |t| :: IsLetter(t[i]) then Gather(seq(|t|, i requires 0 <= i < |t| => Rank(t[i])))
    else None
  }

  lemma {:induction false} NothingToStrip(s: string)
    requires forall i | 0 <= i < |s| :: IsLetter(s[i])
    ensures StripLineBreaks(s) == s
  {
    if s != [] {
      assert IsLetter(s[0]);
      NothingToStrip(s[1..]);
    }
  }

  /** Every byte sequence is decoded from its encoding, which uses letters only. */
  lemma DecodeEncode(bytes: seq<Byte>)
    ensures Decode(Encode(bytes)) == Some(bytes)
    ensures forall i | 0 <= i < |Encode(bytes)| :: IsLetter(Encode(bytes)[i])
  {
    hide Letter, Rank, Gather, Split;
    var vs := Split(bytes);
    var s := Letters(vs);
    assert forall i | 0 <= i < |s| :: IsLetter(s[i]);
    NothingToStrip(s);
    hide StripLineBreaks;
    forall i | 0 <= i < |vs| ensures Rank(s[i]) == vs[i] { LetterBack(vs[i]); }
    assert seq(|s|, i requires 0 <= i < |s| => Rank(s[i])) == vs;
    GatherSplit(bytes);
  }
}
