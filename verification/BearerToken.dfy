/** Compact signed tokens: base64url without padding (section 5 of RFC 4648, section 2 of RFC 7515). */
module BearerToken {
  import opened Common

  type Byte = b: int | 0 <= b < 256
  type Sextet = v: int | 0 <= v < 64

  function Letter(v: Sextet): char {
    if v < 26 then ('A' as int + v) as char
    else if v < 52 then ('a' as int + v - 26) as char
    else if v < 62 then ('0' as int + v - 52) as char
    else if v == 62 then '-'
    else '_'
  }

  /** The decoder takes both alphabets: '-' and '_' are translated to '+' and '/' first. */
  function Value(c: char): Option<Sextet> {
    if 'A' <= c <= 'Z' then Some(c as int - 'A' as int)
    else if 'a' <= c <= 'z' then Some(c as int - 'a' as int + 26)
    else if '0' <= c <= '9' then Some(c as int - '0' as int + 52)
    else if c == '-' || c == '+' then Some(62)
    else if c == '_' || c == '/' then Some(63)
    else None
  }

  lemma LetterValue(v: Sextet)
    ensures Value(Letter(v)) == Some(v) && Letter(v) != '=' && Letter(v) != '.' && Letter(v) < '\U{0080}'
  {
  }

  function First(a: Byte): Sextet { a / 4 }
  function Second(a: Byte, b: Byte): Sextet { a % 4 * 16 + b / 16 }
  function Third(b: Byte, c: Byte): Sextet { b % 16 * 4 + c / 64 }
  function Fourth(c: Byte): Sextet { c % 64 }

  function Group(a: Byte, b: Byte, c: Byte): string {
    [Letter(First(a)), Letter(Second(a, b)), Letter(Third(b, c)), Letter(Fourth(c))]
  }

  /** `urlsafe_b64encode`: groups of three bytes, the last one padded with "=". */
  function EncodePadded(bytes: seq<Byte>): string {
    if bytes == [] then ""
    else if |bytes| == 1 then [Letter(First(bytes[0])), Letter(Second(bytes[0], 0)), '=', '=']
    else if |bytes| == 2 then
      [Letter(First(bytes[0])), Letter(Second(bytes[0], bytes[1])), Letter(Third(bytes[1], 0)), '=']
    else Group(bytes[0], bytes[1], bytes[2]) + EncodePadded(bytes[3..])
  }

  function StripPadding(s: string): string {
    if s != "" && s[|s| - 1] == '=' then StripPadding(s[..|s| - 1]) else s
  }

  function Equals(n: nat): string {
    if n == 0 then "" else Equals(n - 1) + "="
  }

  function Encode(bytes: seq<Byte>): string {
    StripPadding(EncodePadded(bytes))
  }

  /**
   The state of the lenient decoder: `quad` letters of a group read, `left` the bits not yet
   written, `pads` the "=" seen since. Other characters are skipped; a full padding ends the input.
   */
  function Scan(s: string, quad: nat, left: nat, pads: nat): Option<seq<Byte>>
    requires quad < 4 && left < (if quad == 0 then 1 else if quad == 1 then 64 else if quad == 2 then 16 else 4)
    decreases |s|
  {
    if s == "" then if quad == 0 then Some([]) else None
    else if s[0] == '=' then
      if quad >= 2 && quad + pads + 1 >= 4 then Some([])
      else Scan(s[1..], quad, left, if quad >= 2 then pads + 1 else pads)
    else if Value(s[0]).None? then Scan(s[1..], quad, left, pads)
    else
      var v := Value(s[0]).value;
      if quad == 0 then Scan(s[1..], 1, v, 0)
      else if quad == 1 then Prepend(left * 4 + v / 16, Scan(s[1..], 2, v % 16, 0))
      else if quad == 2 then Prepend(left * 16 + v / 4, Scan(s[1..], 3, v % 4, 0))
      else Prepend(left * 64 + v, Scan(s[1..], 0, 0, 0))
  }

  function Prepend(b: Byte, rest: Option<seq<Byte>>): Option<seq<Byte>> {
    if rest.Some? then Some([b] + rest.value) else None
  }

  /** `-n % 4`. */
  function MissingPadding(n: nat): nat {
    if n % 4 == 0 then 0 else 4 - n % 4
  }

  function Repadded(s: string): string {
    s + Equals(MissingPadding(|s|))
  }

  /** `urlsafe_b64decode` after restoring the padding; text outside ASCII is refused. */
  function Decode(s: string): Option<seq<Byte>> {
    if exists c | c in s :: c >= '\U{0080}' then None else Scan(Repadded(s), 0, 0, 0)
  }

  // ---- Bytes there and back ----------------------------------------------------

  /** How many "=" the encoding ends with. */
  function Padding(bytes: seq<Byte>): nat {
    if bytes == [] then 0 else if |bytes| == 1 then 2 else if |bytes| == 2 then 1 else Padding(bytes[3..])
  }

  function Plain(bytes: seq<Byte>): string {
    if bytes == [] then ""
    else if |bytes| == 1 then [Letter(First(bytes[0])), Letter(Second(bytes[0], 0))]
    else if |bytes| == 2 then
      [Letter(First(bytes[0])), Letter(Second(bytes[0], bytes[1])), Letter(Third(bytes[1], 0))]
    else Group(bytes[0], bytes[1], bytes[2]) + Plain(bytes[3..])
  }

  predicate Clean(s: string) {
    forall i | 0 <= i < |s| :: s[i] != '=' && s[i] != '.' && s[i] < '\U{0080}'
  }

  lemma GroupIsClean(a: Byte, b: Byte, c: Byte)
    ensures Clean(Group(a, b, c)) && |Group(a, b, c)| == 4
  {
    LetterValue(First(a));
    LetterValue(Second(a, b));
    LetterValue(Third(b, c));
    LetterValue(Fourth(c));
  }

  lemma FewEquals()
    ensures Equals(0) == "" && Equals(1) == "=" && Equals(2) == "=="
  {
  }

  lemma CleanAppend(s: string, t: string)
    requires Clean(s) && Clean(t)
    ensures Clean(s + t)
  {
  }

  lemma CleanPrefix(s: string, n: nat)
    requires Clean(s) && n <= |s|
    ensures Clean(s[..n])
  {
  }

  lemma AddFour(n: nat)
    requires n % 4 == 0
    ensures (4 + n) % 4 == 0
  {
  }

  lemma {:induction false} PlainLength(bytes: seq<Byte>)
    ensures (|Plain(bytes)| + Padding(bytes)) % 4 == 0 && Padding(bytes) < 3
  {
    if |bytes| >= 3 {
      PlainLength(bytes[3..]);
      AddFour(|Plain(bytes[3..])| + Padding(bytes[3..]));
    }
  }

  lemma {:induction false} PlainIsClean(bytes: seq<Byte>)
    ensures Clean(Plain(bytes))
  {
    if bytes == [] {
    } else if |bytes| == 1 {
      GroupIsClean(bytes[0], 0, 0);
      CleanPrefix(Group(bytes[0], 0, 0), 2);
      assert Plain(bytes) == Group(bytes[0], 0, 0)[..2];
    } else if |bytes| == 2 {
      GroupIsClean(bytes[0], bytes[1], 0);
      CleanPrefix(Group(bytes[0], bytes[1], 0), 3);
      assert Plain(bytes) == Group(bytes[0], bytes[1], 0)[..3];
    } else {
      PlainIsClean(bytes[3..]);
      GroupIsClean(bytes[0], bytes[1], bytes[2]);
      CleanAppend(Group(bytes[0], bytes[1], bytes[2]), Plain(bytes[3..]));
    }
  }

  lemma {:induction false} PaddedIsPlain(bytes: seq<Byte>)
    ensures EncodePadded(bytes) == Plain(bytes) + Equals(Padding(bytes))
  {
    FewEquals();
    if |bytes| == 1 {
      assert EncodePadded(bytes) == Plain(bytes) + "==";
    } else if |bytes| == 2 {
      assert EncodePadded(bytes) == Plain(bytes) + "=";
    } else if |bytes| >= 3 {
      var tail, g := bytes[3..], Group(bytes[0], bytes[1], bytes[2]);
      PaddedIsPlain(tail);
      assert g + (Plain(tail) + Equals(Padding(tail))) == (g + Plain(tail)) + Equals(Padding(tail));
    }
  }

  lemma StripsOne(s: string)
    ensures StripPadding(s + "=") == StripPadding(s)
  {
    assert (s + "=")[..|s|] == s;
  }

  lemma AppendOne(s: string, t: string)
    ensures s + (t + "=") == s + t + "="
  {
  }

  lemma {:induction false} StripsAll(s: string, n: nat)
    requires Clean(s)
    ensures StripPadding(s + Equals(n)) == s
  {
    if n == 0 {
      assert s + "" == s;
    } else {
      StripsAll(s, n - 1);
      AppendOne(s, Equals(n - 1));
      StripsOne(s + Equals(n - 1));
    }
  }

  lemma PaddingIsKnown(plain: string, n: nat)
    requires (|plain| + n) % 4 == 0 && n < 3
    ensures Repadded(plain) == plain + Equals(n)
  {
    PaddingFromLength(|plain|, n);
  }

  lemma EncodeIsPlain(bytes: seq<Byte>)
    ensures Encode(bytes) == Plain(bytes)
  {
    PlainIsClean(bytes);
    PaddedIsPlain(bytes);
    StripsAll(Plain(bytes), Padding(bytes));
  }

  /** Stripping loses nothing: the length tells how many "=" there were. */
  lemma RepaddingRestores(bytes: seq<Byte>)
    ensures Encode(bytes) == Plain(bytes) && Repadded(Encode(bytes)) == EncodePadded(bytes)
  {
    EncodeIsPlain(bytes);
    PlainLength(bytes);
    PaddingIsKnown(Plain(bytes), Padding(bytes));
    PaddedIsPlain(bytes);
  }

  lemma PaddingFromLength(length: nat, padding: nat)
    requires (length + padding) % 4 == 0 && padding < 3
    ensures MissingPadding(length) == padding
  {
  }

  /** The bits a letter leaves over. */
  function Left(quad: nat, v: Sextet): nat
    requires quad < 4
  {
    if quad == 0 then v else if quad == 1 then v % 16 else if quad == 2 then v % 4 else 0
  }

  /** The byte a letter completes. */
  function Completed(quad: nat, left: nat, v: Sextet): (b: Byte)
    requires 0 < quad < 4 && left < (if quad == 1 then 64 else if quad == 2 then 16 else 4)
  {
    if quad == 1 then left * 4 + v / 16 else if quad == 2 then left * 16 + v / 4 else left * 64 + v
  }

  lemma LetterScans(v: Sextet, rest: string, quad: nat, left: nat, pads: nat)
    requires 0 < quad < 4 && left < (if quad == 1 then 64 else if quad == 2 then 16 else 4)
    ensures Scan([Letter(v)] + rest, quad, left, pads)
         == Prepend(Completed(quad, left, v), Scan(rest, (quad + 1) % 4, Left(quad, v), 0))
  {
    LetterValue(v);
    assert ([Letter(v)] + rest)[1..] == rest;
  }

  lemma FirstLetterScans(v: Sextet, rest: string)
    ensures Scan([Letter(v)] + rest, 0, 0, 0) == Scan(rest, 1, v, 0)
  {
    LetterValue(v);
    assert ([Letter(v)] + rest)[1..] == rest;
  }

  lemma GroupBits(a: Byte, b: Byte, c: Byte)
    ensures Completed(1, First(a), Second(a, b)) == a && Left(1, Second(a, b)) == b / 16
    ensures Completed(2, b / 16, Third(b, c)) == b && Left(2, Third(b, c)) == c / 64
    ensures Completed(3, c / 64, Fourth(c)) == c
  {
  }

  lemma GroupScans(a: Byte, b: Byte, c: Byte, rest: string)
    ensures Scan(Group(a, b, c) + rest, 0, 0, 0) == Prepend(a, Prepend(b, Prepend(c, Scan(rest, 0, 0, 0))))
  {
    var s3 := [Letter(Third(b, c))] + ([Letter(Fourth(c))] + rest);
    assert Group(a, b, c) + rest == [Letter(First(a))] + ([Letter(Second(a, b))] + s3);
    SecondHalfScans(a, b, c, rest);
    FirstHalfScans(a, b, s3);
  }

  lemma FirstHalfScans(a: Byte, b: Byte, rest: string)
    ensures Scan([Letter(First(a))] + ([Letter(Second(a, b))] + rest), 0, 0, 0) == Prepend(a, Scan(rest, 2, b / 16, 0))
  {
    GroupBits(a, b, 0);
    LetterScans(Second(a, b), rest, 1, First(a), 0);
    FirstLetterScans(First(a), [Letter(Second(a, b))] + rest);
  }

  lemma SecondHalfScans(a: Byte, b: Byte, c: Byte, rest: string)
    ensures Scan([Letter(Third(b, c))] + ([Letter(Fourth(c))] + rest), 2, b / 16, 0)
         == Prepend(b, Prepend(c, Scan(rest, 0, 0, 0)))
  {
    GroupBits(a, b, c);
    LetterScans(Fourth(c), rest, 3, c / 64, 0);
    LetterScans(Third(b, c), [Letter(Fourth(c))] + rest, 2, b / 16, 0);
  }

  /** Which bits of which byte a letter carries. */
  lemma Bits(a: Byte, b: Byte)
    ensures Second(a, b) / 16 == a % 4 && Second(a, b) % 16 == b / 16
    ensures Third(a, b) / 4 == a % 16 && Third(a, b) % 4 == b / 64
  {
  }

  lemma OneScans(a: Byte)
    ensures Scan(EncodePadded([a]), 0, 0, 0) == Some([a])
  {
    LetterValue(First(a));
    LetterValue(Second(a, 0));
    Bits(a, 0);
    var s := EncodePadded([a]);
    assert s[1..] == [Letter(Second(a, 0)), '=', '='] && s[1..][1..] == "==" && "=="[1..] == "=";
    assert Scan("=", 2, 0, 1) == Some([]);
    assert Scan("==", 2, 0, 0) == Some([]);
    assert [a] + [] == [a];
    assert Scan(s[1..], 1, a / 4, 0) == Some([a]);
  }

  lemma LastOfTwo(b: Byte)
    ensures Scan([Letter(Third(b, 0)), '='], 2, b / 16, 0) == Some([b])
  {
    LetterValue(Third(b, 0));
    Bits(b, 0);
    assert [Letter(Third(b, 0)), '='][1..] == "=";
    assert Scan("=", 3, 0, 0) == Some([]);
    assert [b] + [] == [b];
  }

  lemma MiddleOfTwo(a: Byte, b: Byte)
    ensures Scan([Letter(Second(a, b)), Letter(Third(b, 0)), '='], 1, a / 4, 0) == Some([a, b])
  {
    LetterValue(Second(a, b));
    Bits(a, b);
    LastOfTwo(b);
    assert [Letter(Second(a, b)), Letter(Third(b, 0)), '='][1..] == [Letter(Third(b, 0)), '='];
    assert [a] + [b] == [a, b];
  }

  lemma TwoScan(a: Byte, b: Byte)
    ensures Scan(EncodePadded([a, b]), 0, 0, 0) == Some([a, b])
  {
    LetterValue(First(a));
    MiddleOfTwo(a, b);
    assert EncodePadded([a, b])[1..] == [Letter(Second(a, b)), Letter(Third(b, 0)), '='];
  }

  lemma {:induction false} ScanUndoesEncode(bytes: seq<Byte>)
    ensures Scan(EncodePadded(bytes), 0, 0, 0) == Some(bytes)
  {
    if bytes == [] {
    } else if |bytes| == 1 {
      OneScans(bytes[0]);
      assert bytes == [bytes[0]];
    } else if |bytes| == 2 {
      TwoScan(bytes[0], bytes[1]);
      assert bytes == [bytes[0], bytes[1]];
    } else {
      ScanUndoesEncode(bytes[3..]);
      GroupScans(bytes[0], bytes[1], bytes[2], EncodePadded(bytes[3..]));
      assert [bytes[0]] + ([bytes[1]] + ([bytes[2]] + bytes[3..])) == bytes;
    }
  }

  /** Restoring the padding and decoding gives every byte string back. */
  lemma DecodeUndoesEncode(bytes: seq<Byte>)
    ensures Decode(Encode(bytes)) == Some(bytes) && Clean(Encode(bytes))
  {
    RepaddingRestores(bytes);
    PlainIsClean(bytes);
    ScanUndoesEncode(bytes);
  }

  // ---- The alphabet and the lenient decoder ---------------------------------------

  const UPPER := "ABCDEFGHIJKLMNOPQRSTUVWXYZ"
  const LOWER := "abcdefghijklmnopqrstuvwxyz"
  const DIGITS := "0123456789"
  const ALPHABET := UPPER + LOWER + DIGITS + "-_"

  lemma UpperIs(k: nat)
    requires k < 26
    ensures |UPPER| == 26 && UPPER[k] == Letter(k)
  {
  }

  lemma LowerIs(k: nat)
    requires k < 26
    ensures |LOWER| == 26 && LOWER[k] == Letter(26 + k)
  {
  }

  lemma DigitIs(k: nat)
    requires k < 10
    ensures |DIGITS| == 10 && DIGITS[k] == Letter(52 + k)
  {
  }

  lemma LetterIs(v: Sextet)
    ensures |ALPHABET| == 64 && Letter(v) == ALPHABET[v]
  {
    if v < 26 {
      UpperIs(v);
    } else if v < 52 {
      LowerIs(v - 26);
    } else if v < 62 {
      DigitIs(v - 52);
    }
  }

  /** The values of the characters: the URL alphabet, and "+" and "/" of the other one; nothing else has any. */
  lemma ValueIs(c: char, v: Sextet)
    ensures |ALPHABET| == 64
    ensures Value(c) == Some(v) <==> c == ALPHABET[v] || (c == '+' && v == 62) || (c == '/' && v == 63)
  {
    LetterIs(v);
    LetterValue(v);
    if Value(c) == Some(v) && c != '+' && c != '/' {
      assert c == Letter(v);
    }
  }

  lemma VectorLetters()
    ensures Letter(25) == 'Z' && Letter(32) == 'g' && Letter(38) == 'm' && Letter(60) == '8' && Letter(61) == '9'
    ensures Letter(47) == 'v' && Letter(24) == 'Y' && Letter(5) == 'F' && Letter(50) == 'y'
  {
  }

  /** The test vectors of section 10 of RFC 4648, without their padding. */
  lemma Vectors()
    ensures Encode([]) == "" && Encode([102]) == "Zg" && Encode([102, 111]) == "Zm8" && Encode([102, 111, 111]) == "Zm9v"
  {
    RepaddingRestores([]);
    RepaddingRestores([102]);
    RepaddingRestores([102, 111]);
    RepaddingRestores([102, 111, 111]);
    VectorLetters();
    assert [102, 111, 111][3..] == [];
    assert Group(102, 111, 111) == "Zm9v" && Plain([102, 111, 111]) == "Zm9v";
  }

  lemma LongVector()
    ensures Encode([102, 111, 111, 98, 97, 114]) == "Zm9vYmFy"
  {
    var bytes: seq<Byte> := [102, 111, 111, 98, 97, 114];
    RepaddingRestores(bytes);
    VectorLetters();
    assert bytes[3..] == [98, 97, 114] && [98, 97, 114][3..] == [];
    assert Plain([98, 97, 114]) == "YmFy";
  }

  /** A character outside the alphabets might as well not be there. */
  lemma {:induction false} JunkIsSkipped(a: string, c: char, b: string, quad: nat, left: nat, pads: nat)
    requires quad < 4 && left < (if quad == 0 then 1 else if quad == 1 then 64 else if quad == 2 then 16 else 4)
    requires c != '=' && Value(c).None?
    ensures Scan(a + [c] + b, quad, left, pads) == Scan(a + b, quad, left, pads)
    decreases |a|
  {
    var s, t := a + [c] + b, a + b;
    if a == "" {
      assert s[1..] == b && t == b;
    } else {
      assert s[0] == t[0] == a[0] && s[1..] == a[1..] + [c] + b && t[1..] == a[1..] + b;
      if a[0] == '=' {
        if !(quad >= 2 && quad + pads + 1 >= 4) {
          JunkIsSkipped(a[1..], c, b, quad, left, if quad >= 2 then pads + 1 else pads);
        }
      } else if Value(a[0]).None? {
        JunkIsSkipped(a[1..], c, b, quad, left, pads);
      } else {
        var v := Value(a[0]).value;
        JunkIsSkipped(a[1..], c, b, (quad + 1) % 4, Left(quad, v), 0);
      }
    }
  }

  predicate Letters(s: string) {
    forall i | 0 <= i < |s| :: s[i] != '=' && Value(s[i]).Some?
  }

  lemma PaddedEnd(quad: nat, left: nat)
    requires quad < 4 && left < (if quad == 0 then 1 else if quad == 1 then 64 else if quad == 2 then 16 else 4)
    ensures Scan(Equals(MissingPadding(quad)), quad, left, 0).Some? <==> quad != 1
  {
    FewEquals();
    assert Equals(3) == "===" && "==="[1..] == "==" && "=="[1..] == "=" && "="[1..] == "";
  }

  lemma OneMoreLetter(quad: nat, n: nat)
    requires quad < 4
    ensures ((quad + 1) % 4 + n) % 4 == (quad + (1 + n)) % 4
  {
    if quad == 3 {
      assert (4 + n) % 4 == n % 4;
    }
  }

  lemma {:induction false} LettersScan(s: string, rest: string, quad: nat, left: nat) returns (q: nat, l: nat)
    requires quad < 4 && left < (if quad == 0 then 1 else if quad == 1 then 64 else if quad == 2 then 16 else 4)
    requires Letters(s)
    ensures q < 4 && l < (if q == 0 then 1 else if q == 1 then 64 else if q == 2 then 16 else 4)
    ensures q == (quad + |s|) % 4
    ensures Scan(s + rest, quad, left, 0).Some? <==> Scan(rest, q, l, 0).Some?
    decreases |s|
  {
    q, l := quad, left;
    if s == "" {
      assert s + rest == rest;
    } else {
      assert s + rest == [s[0]] + (s[1..] + rest);
      OneLetter(s[0], s[1..] + rest, quad, left);
      OneMoreLetter(quad, |s[1..]|);
      q, l := LettersScan(s[1..], rest, (quad + 1) % 4, Left(quad, Value(s[0]).value));
    }
  }

  lemma OneLetter(c: char, rest: string, quad: nat, left: nat)
    requires quad < 4 && left < (if quad == 0 then 1 else if quad == 1 then 64 else if quad == 2 then 16 else 4)
    requires c != '=' && Value(c).Some?
    ensures var next, l := (quad + 1) % 4, Left(quad, Value(c).value);
      && l < (if next == 0 then 1 else if next == 1 then 64 else if next == 2 then 16 else 4)
      && (Scan([c] + rest, quad, left, 0).Some? <==> Scan(rest, next, l, 0).Some?)
  {
    assert ([c] + rest)[1..] == rest;
  }

  /**
   What "=" does inside a text: before the second letter of a group nothing, after it one is not
   enough and is forgotten when a letter follows, and a full padding ends the input.
   */
  lemma PaddingIs(rest: string, quad: nat, left: nat, letter: char)
    requires quad < 4 && left < (if quad == 0 then 1 else if quad == 1 then 64 else if quad == 2 then 16 else 4)
    requires Value(letter).Some? && letter != '='
    ensures quad < 2 ==> Scan("=" + rest, quad, left, 0) == Scan(rest, quad, left, 0)
    ensures quad == 2 ==> Scan("=" + ([letter] + rest), quad, left, 0) == Scan([letter] + rest, quad, left, 0)
    ensures quad == 2 ==> Scan("=" + ("=" + rest), quad, left, 0) == Some([])
    ensures quad == 3 ==> Scan("=" + rest, quad, left, 0) == Some([])
  {
    assert ("=" + rest)[1..] == rest && ("=" + ("=" + rest))[1..] == "=" + rest;
    assert ("=" + ([letter] + rest))[1..] == [letter] + rest && ([letter] + rest)[1..] == rest;
  }

  /** Text with a character beyond ASCII is refused as a whole. */
  lemma NonAsciiIsRefused(s: string, i: nat)
    requires i < |s| && s[i] > '\U{007F}'
    ensures Decode(s) == None
  {
    assert s[i] in s;
  }

  /** Text over the alphabets decodes unless its length leaves a single letter over. */
  lemma LengthDecides(s: string)
    requires Letters(s)
    ensures Decode(s).Some? <==> |s| % 4 != 1
  {
    var q, l := LettersScan(s, Equals(MissingPadding(|s|)), 0, 0);
    PaddedEnd(q, l);
    forall c | c in s ensures c < '\U{0080}' {
      assert Value(c).Some?;
    }
  }

  // ---- Tokens --------------------------------------------------------------------

  /** The parts a token is built with; their laws are hypotheses of the lemmas that use them. */
  datatype Primitives<!J> = Primitives(
    mac: (string, string) -> seq<Byte>, dumps: J -> seq<Byte>, loads: seq<Byte> -> Option<J>,
    header: J, algorithm: J -> Option<string>)

  datatype TokenError = BadFormat | BadEncoding | BadSignature | BadAlgorithm | BadJson

  function Signed(h: string, p: string): string {
    h + "." + p
  }

  function EncodeToken<J>(z: Primitives<J>, payload: J, secret: string): string {
    var h, p := Encode(z.dumps(z.header)), Encode(z.dumps(payload));
    Signed(h, p) + "." + Encode(z.mac(secret, Signed(h, p)))
  }

  function DecodeJson<J>(z: Primitives<J>, segment: string): Result<J, TokenError> {
    var bytes := Decode(segment);
    if bytes.None? then Failure(BadEncoding)
    else
      var json := z.loads(bytes.value);
      if json.None? then Failure(BadJson) else Success(json.value)
  }

  function DecodeToken<J>(z: Primitives<J>, token: string, secret: string): Result<J, TokenError> {
    var parts := Split(token, '.');
    if |parts| != 3 then Failure(BadFormat)
    else
      var signature := Decode(parts[2]);
      if signature.None? then Failure(BadEncoding)
      else if signature.value != z.mac(secret, Signed(parts[0], parts[1])) then Failure(BadSignature)
      else
        var header := DecodeJson(z, parts[0]);
        if header.Failure? then header
        else if z.algorithm(header.value) != Some("HS256") then Failure(BadAlgorithm)
        else DecodeJson(z, parts[1])
  }

  lemma ThreeParts(h: string, p: string, s: string)
    requires '.' !in h && '.' !in p && '.' !in s
    ensures Split(Signed(h, p) + "." + s, '.') == [h, p, s]
  {
    assert Signed(h, p) + "." + s == h + ['.'] + (p + ['.'] + s);
    SplitHead(h, '.', p + ['.'] + s);
    SplitHead(p, '.', s);
    SplitNone(s, '.');
  }

  /** For every payload and secret a token decodes to what it was made from. */
  lemma TokenRoundTrip<J(!new)>(z: Primitives<J>, payload: J, secret: string)
    requires (forall j :: z.loads(z.dumps(j)) == Some(j)) && z.algorithm(z.header) == Some("HS256")
    ensures DecodeToken(z, EncodeToken(z, payload, secret), secret) == Success(payload)
  {
    var h, p := Encode(z.dumps(z.header)), Encode(z.dumps(payload));
    var mac := z.mac(secret, Signed(h, p));
    DecodeUndoesEncode(z.dumps(z.header));
    DecodeUndoesEncode(z.dumps(payload));
    DecodeUndoesEncode(mac);
    ThreeParts(h, p, Encode(mac));
  }

  /**
   Changing what a token signs and keeping its signature is refused for the signature, whatever
   the new segments hold, exactly when the code tells the two signed texts apart.
   */
  lemma ChangedTokenIsRefusedIff<J>(z: Primitives<J>, payload: J, secret: string, h2: string, p2: string)
    requires '.' !in h2 && '.' !in p2
    ensures var h, p := Encode(z.dumps(z.header)), Encode(z.dumps(payload));
      (DecodeToken(z, Signed(h2, p2) + "." + Encode(z.mac(secret, Signed(h, p))), secret) == Failure(BadSignature))
      <==> z.mac(secret, Signed(h2, p2)) != z.mac(secret, Signed(h, p))
  {
    var h, p := Encode(z.dumps(z.header)), Encode(z.dumps(payload));
    DecodeUndoesEncode(z.mac(secret, Signed(h, p)));
    ThreeParts(h2, p2, Encode(z.mac(secret, Signed(h, p))));
  }

  /**
   Exactly which tokens are accepted, and as what: three segments, of which the last decodes to
   the code of the first two under the secret, the first to a header naming HS256, the second to the payload.
   */
  lemma TokenAcceptedIff<J(!new)>(z: Primitives<J>, token: string, secret: string, payload: J)
    ensures DecodeToken(z, token, secret) == Success(payload)
      <==> && |Split(token, '.')| == 3
           && var h, p, s := Split(token, '.')[0], Split(token, '.')[1], Split(token, '.')[2];
              && Decode(s) == Some(z.mac(secret, h + "." + p))
              && (exists header :: HoldsJson(z, h, header) && z.algorithm(header) == Some("HS256"))
              && HoldsJson(z, p, payload)
  {
    if |Split(token, '.')| == 3 {
      var h := Split(token, '.')[0];
      if DecodeJson(z, h).Success? {
        assert HoldsJson(z, h, DecodeJson(z, h).value);
      }
    }
  }

  /** A segment that decodes to the text of a JSON value. */
  predicate HoldsJson<J(==)>(z: Primitives<J>, segment: string, value: J) {
    Decode(segment).Some? && z.loads(Decode(segment).value) == Some(value)
  }

  /** A rightly signed token whose header names another algorithm is refused for that. */
  lemma OtherAlgorithmIsRefused<J(!new)>(z: Primitives<J>, header: J, payload: J, secret: string)
    requires (forall j :: z.loads(z.dumps(j)) == Some(j)) && z.algorithm(header) != Some("HS256")
    ensures DecodeToken(z, EncodeToken(z.(header := header), payload, secret), secret) == Failure(BadAlgorithm)
  {
    var h, p := Encode(z.dumps(header)), Encode(z.dumps(payload));
    DecodeUndoesEncode(z.dumps(header));
    DecodeUndoesEncode(z.dumps(payload));
    DecodeUndoesEncode(z.mac(secret, Signed(h, p)));
    ThreeParts(h, p, Encode(z.mac(secret, Signed(h, p))));
  }
}
