/** Base64 with padding, section 4 of RFC 4648, decoded the way Go's StdEncoding does. */
module Base64 {
  import opened Wrappers

  type Byte = x: int | 0 <= x < 256

  type Digit = x: int | 0 <= x < 64

  function Symbol(d: Digit): char {
    if d < 26 then ('A' as int + d) as char
    else if d < 52 then ('a' as int + d - 26) as char
    else if d < 62 then ('0' as int + d - 52) as char
    else if d == 62 then '+' else '/'
  }

  function DigitOf(c: char): Option<Digit> {
    if 'A' <= c <= 'Z' then Some(c as int - 'A' as int)
    else if 'a' <= c <= 'z' then Some(c as int - 'a' as int + 26)
    else if '0' <= c <= '9' then Some(c as int - '0' as int + 52)
    else if c == '+' then Some(62)
    else if c == '/' then Some(63)
    else None
  }

  // the four digits of three bytes, and the three bytes of four digits
  function First(x: Byte): Digit { x / 4 }
  function Second(x: Byte, y: Byte): Digit { x % 4 * 16 + y / 16 }
  function Third(y: Byte, z: Byte): Digit { y % 16 * 4 + z / 64 }
  function Fourth(z: Byte): Digit { z % 64 }

  function High(a: Digit, b: Digit): Byte { a * 4 + b / 16 }
  function Middle(b: Digit, c: Digit): Byte { b % 16 * 16 + c / 4 }
  function Low(c: Digit, d: Digit): Byte { c % 4 * 64 + d }

  function Encode(bytes: seq<Byte>): string {
    if bytes == [] then ""
    else if |bytes| == 1 then
      [Symbol(First(bytes[0])), Symbol(Second(bytes[0], 0)), '=', '=']
    else if |bytes| == 2 then
      [Symbol(First(bytes[0])), Symbol(Second(bytes[0], bytes[1])), Symbol(Third(bytes[1], 0)), '=']
    else
      Quad(bytes[0], bytes[1], bytes[2]) + Encode(bytes[3..])
  }

  function Quad(x: Byte, y: Byte, z: Byte): string {
    [Symbol(First(x)), Symbol(Second(x, y)), Symbol(Third(y, z)), Symbol(Fourth(z))]
  }

  /** Line breaks are skipped wherever they stand. */
  function WithoutLineBreaks(s: string): string {
    if s == "" then ""
    else (if s[0] == '\r' || s[0] == '\n' then "" else [s[0]]) + WithoutLineBreaks(s[1..])
  }

  /** Unused bits of a padded group are not checked. */
  function DecodeQuads(s: string): Option<seq<Byte>> {
    if s == "" then Some([])
    else if |s| < 4 then None
    else
      var a, b, c, d := DigitOf(s[0]), DigitOf(s[1]), DigitOf(s[2]), DigitOf(s[3]);
      if a.None? || b.None? then None
      else if |s| == 4 && s[2] == '=' && s[3] == '=' then Some([High(a.value, b.value)])
      else if c.None? then None
      else if |s| == 4 && s[3] == '=' then Some([High(a.value, b.value), Middle(b.value, c.value)])
      else if d.None? then None
      else
        var rest := DecodeQuads(s[4..]);
        if rest.None? then None
        else Some([High(a.value, b.value), Middle(b.value, c.value), Low(c.value, d.value)] + rest.value)
  }

  function Decode(s: string): Option<seq<Byte>> {
    DecodeQuads(WithoutLineBreaks(s))
  }

  predicate InAlphabet(s: string) {
    forall i :: 0 <= i < |s| ==> DigitOf(s[i]).Some? || s[i] == '='
  }

  /** The letters, the small letters, the decimal digits, "+" and "/". */
  lemma SymbolsAreTheAlphabet(d: Digit)
    ensures Symbol(0) == 'A' && Symbol(26) == 'a' && Symbol(52) == '0' && Symbol(62) == '+' && Symbol(63) == '/'
    ensures d !in {25, 51, 61, 62, 63} ==> Symbol(d + 1) as int == Symbol(d) as int + 1
  {
  }

  function Number3(x: int, y: int, z: int): int { (x * 256 + y) * 256 + z }

  function Number4(a: int, b: int, c: int, d: int): int { ((a * 64 + b) * 64 + c) * 64 + d }

  predicate SpelledBy(s: string, a: Digit, b: Digit, c: Digit, d: Digit) {
    s == [Symbol(a), Symbol(b), Symbol(c), Symbol(d)]
  }

  /** The four symbols of three bytes spell the same 24-bit number. */
  ghost predicate Spells(s: string, x: Byte, y: Byte, z: Byte) {
    exists a: Digit, b: Digit, c: Digit, d: Digit :: SpelledBy(s, a, b, c, d) && Number4(a, b, c, d) == Number3(x, y, z)
  }

  lemma QuadSpells(x: Byte, y: Byte, z: Byte)
    ensures Spells(Quad(x, y, z), x, y, z) && |Quad(x, y, z)| == 4
  {
    assert Number4(First(x), Second(x, y), Third(y, z), Fourth(z)) == Number3(x, y, z);
    assert SpelledBy(Quad(x, y, z), First(x), Second(x, y), Third(y, z), Fourth(z));
  }

  /** Each whole group of three bytes is spelled in its place. */
  lemma {:induction false} GroupsAreSpelled(bytes: seq<Byte>, i: nat)
    requires 3 * i + 3 <= |bytes|
    ensures |Encode(bytes)| >= 4 * i + 4
    ensures Spells(Encode(bytes)[4 * i..4 * i + 4], bytes[3 * i], bytes[3 * i + 1], bytes[3 * i + 2])
  {
    var first, rest := Quad(bytes[0], bytes[1], bytes[2]), Encode(bytes[3..]);
    QuadSpells(bytes[0], bytes[1], bytes[2]);
    assert Encode(bytes) == first + rest;
    if i == 0 {
      assert (first + rest)[0..4] == first;
    } else {
      GroupsAreSpelled(bytes[3..], i - 1);
      assert (first + rest)[4 * i..4 * i + 4] == rest[4 * (i - 1)..4 * (i - 1) + 4];
    }
  }

  ghost predicate EndsPadded(s: string, x: Byte, y: Byte, kept: nat, padding: string)
    requires |s| >= 4 && kept <= 4
  {
    exists q :: Spells(q, x, y, 0) && |q| == 4 && s[|s| - 4..] == q[..kept] + padding
  }

  /** One or two bytes left over are spelled with zeros, and "=" in place of the symbols that hold none of them. */
  lemma {:induction false} RestIsPadded(bytes: seq<Byte>, groups: nat, rest: nat)
    requires |bytes| == 3 * groups + rest && rest < 3
    ensures |Encode(bytes)| == 4 * groups + if rest == 0 then 0 else 4
    ensures rest == 1 ==> EndsPadded(Encode(bytes), bytes[|bytes| - 1], 0, 2, "==")
    ensures rest == 2 ==> EndsPadded(Encode(bytes), bytes[|bytes| - 2], bytes[|bytes| - 1], 3, "=")
  {
    if groups > 0 {
      var tail := bytes[3..];
      RestIsPadded(tail, groups - 1, rest);
      AfterQuad(Quad(bytes[0], bytes[1], bytes[2]), Encode(tail));
    } else if rest > 0 {
      ShortRest(bytes);
    }
  }

  lemma AfterQuad(first: string, rest: string)
    requires |first| == 4
    ensures forall x, y, kept: nat, padding :: |rest| >= 4 && kept <= 4 && EndsPadded(rest, x, y, kept, padding) ==>
              EndsPadded(first + rest, x, y, kept, padding)
  {
    if |rest| >= 4 {
      assert (first + rest)[|first + rest| - 4..] == rest[|rest| - 4..];
    }
  }

  lemma ShortRest(bytes: seq<Byte>)
    requires 1 <= |bytes| <= 2
    ensures |Encode(bytes)| == 4
    ensures |bytes| == 1 ==> EndsPadded(Encode(bytes), bytes[0], 0, 2, "==")
    ensures |bytes| == 2 ==> EndsPadded(Encode(bytes), bytes[0], bytes[1], 3, "=")
  {
    var q := Quad(bytes[0], if |bytes| == 2 then bytes[1] else 0, 0);
    QuadSpells(bytes[0], if |bytes| == 2 then bytes[1] else 0, 0);
    assert Encode(bytes) == if |bytes| == 1 then q[..2] + "==" else q[..3] + "=";
    assert Encode(bytes)[0..] == Encode(bytes);
  }

  lemma SymbolRoundTrip(d: Digit)
    ensures DigitOf(Symbol(d)) == Some(d) && Symbol(d) != '='
  {
  }

  /** Three bytes as four digits, and back. */
  lemma GroupRoundTrip(x: Byte, y: Byte, z: Byte)
    ensures High(First(x), Second(x, y)) == x
    ensures Middle(Second(x, y), Third(y, z)) == y
    ensures Low(Third(y, z), Fourth(z)) == z
  {
  }

  lemma QuadBeforeMore(x: Byte, y: Byte, z: Byte, more: string)
    ensures InAlphabet(Quad(x, y, z))
    ensures DecodeQuads(Quad(x, y, z) + more) ==
            if DecodeQuads(more).None? then None else Some([x, y, z] + DecodeQuads(more).value)
  {
    GroupRoundTrip(x, y, z);
    SymbolRoundTrip(First(x));
    SymbolRoundTrip(Second(x, y));
    SymbolRoundTrip(Third(y, z));
    SymbolRoundTrip(Fourth(z));
    var s := Quad(x, y, z) + more;
    assert s[0] == Symbol(First(x)) && s[1] == Symbol(Second(x, y)) && s[2] == Symbol(Third(y, z)) && s[3] == Symbol(Fourth(z));
    assert s[4..] == more;
  }

  lemma PaddedPair(s: string, a: Digit, b: Digit)
    requires |s| == 4 && s[2] == '=' && s[3] == '=' && DigitOf(s[0]) == Some(a) && DigitOf(s[1]) == Some(b)
    ensures DecodeQuads(s) == Some([High(a, b)]) && InAlphabet(s)
  {
  }

  lemma OneByte(x: Byte)
    ensures DecodeQuads(Encode([x])) == Some([x]) && InAlphabet(Encode([x]))
  {
    var a, b := First(x), Second(x, 0);
    SymbolRoundTrip(a);
    SymbolRoundTrip(b);
    PaddedPair([Symbol(a), Symbol(b), '=', '='], a, b);
    GroupRoundTrip(x, 0, 0);
  }

  lemma TwoBytes(x: Byte, y: Byte)
    ensures DecodeQuads(Encode([x, y])) == Some([x, y]) && InAlphabet(Encode([x, y]))
  {
    GroupRoundTrip(x, y, 0);
    SymbolRoundTrip(First(x));
    SymbolRoundTrip(Second(x, y));
    SymbolRoundTrip(Third(y, 0));
  }

  lemma {:induction false} QuadsRoundTrip(bytes: seq<Byte>)
    ensures DecodeQuads(Encode(bytes)) == Some(bytes)
    ensures InAlphabet(Encode(bytes))
  {
    if |bytes| >= 3 {
      QuadsRoundTrip(bytes[3..]);
      QuadBeforeMore(bytes[0], bytes[1], bytes[2], Encode(bytes[3..]));
      assert bytes == [bytes[0], bytes[1], bytes[2]] + bytes[3..];
    } else if |bytes| == 2 {
      assert bytes == [bytes[0], bytes[1]];
      TwoBytes(bytes[0], bytes[1]);
    } else if |bytes| == 1 {
      assert bytes == [bytes[0]];
      OneByte(bytes[0]);
    }
  }

  lemma {:induction false} NoLineBreaks(s: string)
    requires InAlphabet(s)
    ensures WithoutLineBreaks(s) == s
  {
    if s == "" {
    } else {
      NoLineBreaks(s[1..]);
    }
  }

  lemma RoundTrip(bytes: seq<Byte>)
    ensures Decode(Encode(bytes)) == Some(bytes)
  {
    QuadsRoundTrip(bytes);
    NoLineBreaks(Encode(bytes));
  }
}
