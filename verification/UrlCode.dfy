/**
 `ToHex`, `FromHex` and `UrlEncode` over bytes, in the C locale. Bytes are bit vectors, so the
 arithmetic wraps as `unsigned char` does. The repository has no decoder: the one here is the
 reading that section 2.1 of RFC 3986 and section 8.2.1 of RFC 1866 give to the code.
*/
module UrlCode {
  import opened Wrappers

  type byte = bv8

  const SPACE: byte := 32
  const PLUS: byte := 43
  const PERCENT: byte := 37

  function ToHex(x: byte): byte {
    if x > 9 then x + 55 else x + 48
  }

  /** None where the code asserts false and has no value to return. */
  function FromHex(x: byte): Option<byte> {
    if 65 <= x <= 90 then Some(x - 65 + 10)
    else if 97 <= x <= 122 then Some(x - 97 + 10)
    else if 48 <= x <= 57 then Some(x - 48)
    else None
  }

  /** `FromHex` undoes `ToHex` on nibbles, and on no byte beyond the letters it knows. */
  lemma HexRoundTrip(x: byte)
    ensures FromHex(ToHex(x)) == Some(x) <==> x <= 35
  {
    assert x > 9 ==> ToHex(x) == x + 55;
  }

  /** Letters are read in either case, and nothing but letters and digits is read. */
  lemma FromHexReads(x: byte)
    ensures FromHex(x).Some? <==> 'A' <= x as char <= 'Z' || 'a' <= x as char <= 'z' || '0' <= x as char <= '9'
    ensures 'a' <= x as char <= 'z' ==> FromHex(x) == FromHex(x - 32)
  {
  }

  /** The bytes that stand for themselves: the unreserved set of section 2.3 of RFC 3986. */
  predicate Unreserved(b: byte) {
    || 48 <= b <= 57 || 65 <= b <= 90 || 97 <= b <= 122
    || b == 45 || b == 95 || b == 46 || b == 126
  }

  /** Letters and digits of the C locale, and four marks. */
  predicate Literal(c: char) {
    'A' <= c <= 'Z' || 'a' <= c <= 'z' || '0' <= c <= '9' || c == '-' || c == '_' || c == '.' || c == '~'
  }

  lemma LiteralIsUnreserved(b: byte)
    ensures Literal(b as char) <==> Unreserved(b)
  {
  }

  predicate Escaped(b: byte) { !Unreserved(b) && b != SPACE }

  function Code(b: byte): seq<byte> {
    if Unreserved(b) then [b]
    else if b == SPACE then [PLUS]
    else [PERCENT, ToHex(b >> 4), ToHex(b & 15)]
  }

  /** What the encoder is for: each byte coded on its own, in order. */
  function Encoded(s: seq<byte>): seq<byte> {
    if s == [] then [] else Code(s[0]) + Encoded(s[1..])
  }

  lemma {:induction false} EncodedConcat(a: seq<byte>, b: seq<byte>)
    ensures Encoded(a + b) == Encoded(a) + Encoded(b)
  {
    if a == [] {
      assert a + b == b;
    } else {
      assert (a + b)[1..] == a[1..] + b;
      EncodedConcat(a[1..], b);
    }
  }

  /** One more byte encodes to its code after what the earlier ones encode to. */
  lemma EncodedStep(s: seq<byte>, i: nat)
    requires i < |s|
    ensures Encoded(s[..i + 1]) == Encoded(s[..i]) + Code(s[i])
  {
    assert s[..i + 1] == s[..i] + [s[i]];
    EncodedConcat(s[..i], [s[i]]);
    assert Encoded([s[i]]) == Code(s[i]) + Encoded([]);
  }

  // ---------------------------------------------------------------- decoding

  function Cons(b: byte, rest: Option<seq<byte>>): Option<seq<byte>> {
    if rest.None? then None else Some([b] + rest.value)
  }

  function Decoded(t: seq<byte>): Option<seq<byte>>
    decreases |t|
  {
    if t == [] then Some([])
    else if t[0] == PERCENT then
      if |t| < 3 || FromHex(t[1]).None? || FromHex(t[2]).None? then None
      else Cons((FromHex(t[1]).value << 4) | FromHex(t[2]).value, Decoded(t[3..]))
    else Cons(if t[0] == PLUS then SPACE else t[0], Decoded(t[1..]))
  }

  lemma NibblesJoin(b: byte)
    ensures FromHex(ToHex(b >> 4)) == Some(b >> 4) && FromHex(ToHex(b & 15)) == Some(b & 15)
    ensures ((b >> 4) << 4) | (b & 15) == b
  {
    assert b >> 4 <= 15 && b & 15 <= 15;
    HexRoundTrip(b >> 4);
    HexRoundTrip(b & 15);
  }

  /** Reading one code and then the rest: the code is uniquely decodable. */
  lemma DecodesOne(b: byte, t: seq<byte>)
    ensures Decoded(Code(b) + t) == Cons(b, Decoded(t))
  {
    var c := Code(b) + t;
    if Escaped(b) {
      NibblesJoin(b);
      assert c[0] == PERCENT && c[1] == ToHex(b >> 4) && c[2] == ToHex(b & 15) && c[3..] == t;
    } else {
      assert c[1..] == t;
    }
  }

  /** Decoding undoes the encoder on every byte string. */
  lemma {:induction false} RoundTrip(s: seq<byte>)
    ensures Decoded(Encoded(s)) == Some(s)
  {
    if s != [] {
      DecodesOne(s[0], Encoded(s[1..]));
      RoundTrip(s[1..]);
      assert [s[0]] + s[1..] == s;
    }
  }

  lemma Injective(a: seq<byte>, b: seq<byte>)
    requires Encoded(a) == Encoded(b)
    ensures a == b
  {
    RoundTrip(a);
    RoundTrip(b);
  }

  // ---------------------------------------------------------------- the image of the encoder

  predicate UpperHex(b: byte) { 48 <= b <= 57 || 65 <= b <= 70 }

  predicate UpperHexDigit(c: char) { '0' <= c <= '9' || 'A' <= c <= 'F' }

  /** An escape the encoder can produce: two upper-case digits that do not spell a byte it leaves alone. */
  predicate CanonicalEscape(h: byte, l: byte) {
    UpperHex(h) && UpperHex(l) && Escaped((FromHex(h).value << 4) | FromHex(l).value)
  }

  /** The texts over the unreserved set, '+' and '%' in which every '%' starts a canonical escape. */
  predicate Canonical(t: seq<byte>)
    decreases |t|
  {
    t == [] ||
    if t[0] == PERCENT then |t| >= 3 && CanonicalEscape(t[1], t[2]) && Canonical(t[3..])
    else (Unreserved(t[0]) || t[0] == PLUS) && Canonical(t[1..])
  }

  /** One escape in front of a canonical text. */
  lemma EscapeIsCanonical(b: byte, t: seq<byte>)
    requires Escaped(b) && Canonical(t)
    ensures Canonical(Code(b) + t)
  {
    var c := Code(b) + t;
    NibblesJoin(b);
    assert UpperHex(ToHex(b >> 4)) && UpperHex(ToHex(b & 15));
    assert c[1] == ToHex(b >> 4) && c[2] == ToHex(b & 15) && c[3..] == t;
  }

  lemma {:induction false} EncodedIsCanonical(s: seq<byte>)
    ensures Canonical(Encoded(s))
  {
    if s != [] {
      EncodedIsCanonical(s[1..]);
      var b, c := s[0], Encoded(s);
      if Escaped(b) {
        EscapeIsCanonical(b, Encoded(s[1..]));
      } else {
        assert c[1..] == Encoded(s[1..]);
      }
    }
  }

  lemma EscapeIsCode(h: byte, l: byte)
    requires CanonicalEscape(h, l)
    ensures Code((FromHex(h).value << 4) | FromHex(l).value) == [PERCENT, h, l]
  {
  }

  lemma LiteralIsCode(b: byte)
    requires Unreserved(b) || b == PLUS
    ensures Code(if b == PLUS then SPACE else b) == [b] && b != PERCENT
  {
  }

  /** What one canonical unit decodes to is coded back as it was. */
  lemma UnitReencodes(c: seq<byte>, b: byte, t: seq<byte>)
    requires c == Code(b) && Decoded(t).Some? && Encoded(Decoded(t).value) == t
    ensures Decoded(c + t).Some? && Encoded(Decoded(c + t).value) == c + t
  {
    DecodesOne(b, t);
    assert ([b] + Decoded(t).value)[1..] == Decoded(t).value;
  }

  /** A canonical text starts with the code of one byte. */
  lemma FirstUnit(t: seq<byte>) returns (b: byte)
    requires t != [] && Canonical(t)
    ensures Code(b) <= t && Canonical(t[|Code(b)|..])
  {
    if t[0] == PERCENT {
      b := (FromHex(t[1]).value << 4) | FromHex(t[2]).value;
      EscapeIsCode(t[1], t[2]);
    } else {
      b := if t[0] == PLUS then SPACE else t[0];
      LiteralIsCode(t[0]);
    }
  }

  lemma {:induction false} CanonicalReencodes(t: seq<byte>)
    requires Canonical(t)
    ensures Decoded(t).Some? && Encoded(Decoded(t).value) == t
    decreases |t|
  {
    if t != [] {
      var b := FirstUnit(t);
      var rest := t[|Code(b)|..];
      CanonicalReencodes(rest);
      UnitReencodes(Code(b), b, rest);
      assert Code(b) + rest == t;
    }
  }

  /** The encoder's outputs are the canonical texts, all of them and nothing else. */
  lemma ImageIsCanonical(t: seq<byte>)
    ensures Canonical(t) <==> exists s :: Encoded(s) == t
  {
    if Canonical(t) {
      CanonicalReencodes(t);
    }
    if s :| Encoded(s) == t {
      EncodedIsCanonical(s);
    }
  }

  function EscapedCount(s: seq<byte>): nat {
    if s == [] then 0 else (if Escaped(s[0]) then 1 else 0) + EscapedCount(s[1..])
  }

  lemma {:induction false} EncodedLength(s: seq<byte>)
    ensures |Encoded(s)| == |s| + 2 * EscapedCount(s)
  {
    if s != [] { EncodedLength(s[1..]); }
  }

  /** Position by position: the alphabet, and two upper-case hex digits after every '%'. */
  lemma {:induction false} CanonicalAlphabet(t: seq<byte>, i: nat)
    requires Canonical(t) && i < |t|
    ensures t[i] as char == '%' ==>
              i + 2 < |t| && UpperHexDigit(t[i + 1] as char) && UpperHexDigit(t[i + 2] as char)
    ensures Literal(t[i] as char) || t[i] as char == '+' || t[i] as char == '%'
    decreases |t|
  {
    if t[0] == PERCENT {
      if i >= 3 { CanonicalAlphabet(t[3..], i - 3); }
    } else if i >= 1 {
      CanonicalAlphabet(t[1..], i - 1);
    }
  }

  // ---------------------------------------------------------------- the encoding, character by character

  const DIGITS: string := "0123456789ABCDEF"

  /** What a client reads for one byte: itself, a plus sign for a space, or '%' and two digits. */
  function Spelling(b: byte): string {
    if Literal(b as char) then [b as char]
    else if b as char == ' ' then "+"
    else ['%', DIGITS[b as nat / 16], DIGITS[b as nat % 16]]
  }

  function Chars(s: seq<byte>): string {
    seq(|s|, i requires 0 <= i < |s| => s[i] as char)
  }

  lemma DigitIs(x: byte)
    requires x <= 15
    ensures ToHex(x) as char == DIGITS[x as nat]
  {
  }

  lemma Nibbles(b: byte)
    ensures (b >> 4) as nat == b as nat / 16 && (b & 15) as nat == b as nat % 16
  {
  }

  lemma CodeIsSpelling(b: byte)
    ensures Chars(Code(b)) == Spelling(b)
  {
    LiteralIsUnreserved(b);
    Nibbles(b);
    DigitIs(b >> 4);
    DigitIs(b & 15);
  }

  /** From cut i to cut i + 1 `out` is the spelling of byte i. */
  predicate SpelledAt(s: seq<byte>, out: string, cuts: seq<nat>, i: nat)
    requires i < |s| && |cuts| == |s| + 1
  {
    cuts[i] <= cuts[i + 1] <= |out| && out[cuts[i]..cuts[i + 1]] == Spelling(s[i])
  }

  /** `out` is the spellings of the bytes of `s`, one after the other. */
  predicate Spells(s: seq<byte>, out: string, cuts: seq<nat>) {
    && |cuts| == |s| + 1 && cuts[0] == 0 && cuts[|s|] == |out|
    && forall i | 0 <= i < |s| :: SpelledAt(s, out, cuts, i)
  }

  lemma SpellsOneMore(s: seq<byte>, out: string, cuts: seq<nat>, i: nat, more: string)
    requires i < |s| && Spells(s[..i], out, cuts) && more == Spelling(s[i])
    ensures Spells(s[..i + 1], out + more, cuts + [|out + more|])
  {
    var t, longer, cuts' := s[..i + 1], out + more, cuts + [|out + more|];
    forall j | 0 <= j < |t|
      ensures SpelledAt(t, longer, cuts', j)
    {
      if j < i {
        assert SpelledAt(s[..i], out, cuts, j);
        assert longer[cuts[j]..cuts[j + 1]] == out[cuts[j]..cuts[j + 1]];
      } else {
        assert longer[|out|..] == more;
      }
    }
  }

  lemma CharsOfConcat(a: seq<byte>, b: seq<byte>)
    ensures Chars(a + b) == Chars(a) + Chars(b)
  {
  }

  lemma EncodedSpells(s: seq<byte>, i: nat) returns (cuts: seq<nat>)
    requires i <= |s|
    ensures Spells(s[..i], Chars(Encoded(s[..i])), cuts)
  {
    if i == 0 {
      cuts := [0];
    } else {
      var before := EncodedSpells(s, i - 1);
      var out, more := Chars(Encoded(s[..i - 1])), Chars(Code(s[i - 1]));
      cuts := before + [|out + more|];
      CodeIsSpelling(s[i - 1]);
      SpellsOneMore(s, out, before, i - 1, more);
      EncodedStep(s, i - 1);
      CharsOfConcat(Encoded(s[..i - 1]), Code(s[i - 1]));
    }
  }

  /** A text of literals alone is its own encoding. */
  lemma {:induction false} LiteralsPass(s: seq<byte>)
    requires forall i | 0 <= i < |s| :: Literal(s[i] as char)
    ensures Encoded(s) == s
  {
    if s != [] {
      LiteralIsUnreserved(s[0]);
      LiteralsPass(s[1..]);
    }
  }

  /** The loop: its output decodes to its input, is canonical, and grows by two bytes for each escape. */
  method UrlEncode(str: seq<byte>) returns (strTemp: seq<byte>)
    ensures strTemp == Encoded(str)
    ensures Decoded(strTemp) == Some(str) && Canonical(strTemp)
    ensures |strTemp| == |str| + 2 * EscapedCount(str)
    ensures exists cuts :: Spells(str, Chars(strTemp), cuts)
    ensures (forall i | 0 <= i < |str| :: Literal(str[i] as char)) ==> strTemp == str
  {
    strTemp := [];
    for i := 0 to |str|
      invariant strTemp == Encoded(str[..i])
    {
      EncodedStep(str, i);
      if Unreserved(str[i]) {
        strTemp := strTemp + [str[i]];
      } else if str[i] == SPACE {
        strTemp := strTemp + [PLUS];
      } else {
        strTemp := strTemp + [PERCENT];
        strTemp := strTemp + [ToHex(str[i] >> 4)];
        strTemp := strTemp + [ToHex(str[i] & 15)];
      }
    }
    assert str[..|str|] == str;
    RoundTrip(str);
    EncodedIsCanonical(str);
    EncodedLength(str);
    ghost var cuts := EncodedSpells(str, |str|);
    if forall i | 0 <= i < |str| :: Literal(str[i] as char) { LiteralsPass(str); }
  }
}
