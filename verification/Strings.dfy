/** String literals: the scanner of the front end against the escaping of the back end. */
module Strings {
  import opened Wrappers
  import opened Bits

  // ASCII codes
  const NL := 10
  const TAB := 9
  const CR := 13
  const QUOTE := 34
  const TICK := 39
  const ZERO := 48
  const BACKSLASH := 92
  const LETTER_A := 97
  const LETTER_B := 98
  const LETTER_F := 102
  const LETTER_N := 110
  const LETTER_R := 114
  const LETTER_T := 116
  const LETTER_V := 118
  const LETTER_X := 120

  /** The scanner's buffer holds 4096 bytes, of which the last is never written. */
  const CAPACITY := 4095

  predicate IsOctal(c: int) { ZERO <= c <= ZERO + 7 }

  predicate IsHex(c: int) {
    ZERO <= c <= ZERO + 9 || LETTER_A <= c <= LETTER_F || 65 <= c <= 70
  }

  function HexDigit(c: int): int {
    if c <= ZERO + 9 then c - ZERO else if c >= LETTER_A then c - LETTER_A + 10 else c - 65 + 10
  }

  function HexFrom(rest: seq<byte>, v: int): (int, seq<byte>) {
    if rest != [] && IsHex(rest[0]) then HexFrom(rest[1..], v * 16 + HexDigit(rest[0])) else (v, rest)
  }

  /** At most `n` more octal digits. */
  function OctalFrom(rest: seq<byte>, v: int, n: nat): (int, seq<byte>) {
    if n > 0 && rest != [] && IsOctal(rest[0]) then OctalFrom(rest[1..], v * 8 + (rest[0] - ZERO), n - 1) else (v, rest)
  }

  /** The value of an escape after its backslash, and what follows it. `\0` takes no more digits. */
  function Escape(rest: seq<byte>): (int, seq<byte>) {
    if rest == [] then (0, [])
    else
      var c, tail := rest[0], rest[1..];
      if c == LETTER_N then (NL, tail)
      else if c == LETTER_T then (TAB, tail)
      else if c == LETTER_R then (CR, tail)
      else if c == BACKSLASH || c == TICK || c == QUOTE then (c, tail)
      else if c == ZERO then (0, tail)
      else if c == LETTER_A then (7, tail)
      else if c == LETTER_B then (8, tail)
      else if c == LETTER_F then (12, tail)
      else if c == LETTER_V then (11, tail)
      else if c == LETTER_X then HexFrom(tail, 0)
      else if IsOctal(c) then OctalFrom(tail, c - ZERO, 2)
      else (c, tail)
  }

  lemma {:induction false} HexShrinks(rest: seq<byte>, v: int)
    ensures |HexFrom(rest, v).1| <= |rest|
    decreases rest
  {
    if rest != [] && IsHex(rest[0]) {
      HexShrinks(rest[1..], v * 16 + HexDigit(rest[0]));
    }
  }

  lemma {:induction false} OctalShrinks(rest: seq<byte>, v: int, n: nat)
    ensures |OctalFrom(rest, v, n).1| <= |rest|
    decreases n
  {
    if n > 0 && rest != [] && IsOctal(rest[0]) {
      OctalShrinks(rest[1..], v * 8 + (rest[0] - ZERO), n - 1);
    }
  }

  lemma EscapeShrinks(rest: seq<byte>)
    ensures |Escape(rest).1| <= |rest|
  {
    if rest != [] {
      HexShrinks(rest[1..], 0);
      OctalShrinks(rest[1..], rest[0] - ZERO, 2);
    }
  }

  // ----- escapes as C has them (C99 section 6.4.4.4) -----

  /** The simple escapes, with the codes that section 5.2.2 names. */
  const SIMPLE: map<char, byte> := map['\'' := 39, '\"' := 34, '?' := 63, '\\' := 92, 'a' := 7, 'b' := 8, 'f' := 12,
                                       'n' := 10, 'r' := 13, 't' := 9, 'v' := 11]

  const HEX_LOWER := "0123456789abcdef"
  const HEX_UPPER := "0123456789ABCDEF"

  predicate IsDigit(c: byte, d: nat, base: nat) {
    d < base && base <= 16 && (c == HEX_LOWER[d] as int || c == HEX_UPPER[d] as int)
  }

  /** `text` spells the digits `ds`, and `rest` does not go on with another one. */
  ghost predicate Spells(text: seq<byte>, ds: seq<nat>, base: nat) {
    |text| == |ds| && forall i :: 0 <= i < |ds| ==> IsDigit(text[i], ds[i], base)
  }

  ghost predicate NoDigit(rest: seq<byte>, base: nat) {
    rest == [] || forall d :: !IsDigit(rest[0], d, base)
  }

  /** The value of a numeral. */
  function Number(ds: seq<nat>, base: nat): nat {
    if ds == [] then 0 else Number(ds[..|ds| - 1], base) * base + ds[|ds| - 1]
  }

  lemma SimpleEscape(c: char, rest: seq<byte>)
    requires c in SIMPLE
    ensures Escape([c as int] + rest) == (SIMPLE[c], rest)
  {
    assert ([c as int] + rest)[1..] == rest;
  }

  lemma HexDigitIs(c: byte)
    ensures IsHex(c) ==> IsDigit(c, HexDigit(c), 16)
    ensures forall d :: IsDigit(c, d, 16) ==> IsHex(c) && HexDigit(c) == d
  {
    assert forall d :: 0 <= d < 10 ==> HEX_LOWER[d] as int == ZERO + d == HEX_UPPER[d] as int;
    assert forall d :: 10 <= d < 16 ==> HEX_LOWER[d] as int == LETTER_A + d - 10 && HEX_UPPER[d] as int == 65 + d - 10;
  }

  lemma OctalDigitIs(c: byte)
    ensures IsOctal(c) ==> IsDigit(c, c - ZERO, 8)
    ensures forall d :: IsDigit(c, d, 8) ==> IsOctal(c) && c - ZERO == d
  {
    assert forall d :: 0 <= d < 8 ==> HEX_LOWER[d] as int == ZERO + d == HEX_UPPER[d] as int;
  }

  lemma HexStep(c: byte, d: nat, rest: seq<byte>, done: seq<nat>)
    requires IsDigit(c, d, 16)
    ensures HexFrom([c] + rest, Number(done, 16)) == HexFrom(rest, Number(done + [d], 16))
  {
    HexDigitIs(c);
    assert ([c] + rest)[1..] == rest;
    assert (done + [d])[..|done|] == done;
  }

  lemma {:induction false} HexReads(done: seq<nat>, text: seq<byte>, ds: seq<nat>, rest: seq<byte>)
    requires Spells(text, ds, 16) && NoDigit(rest, 16)
    ensures HexFrom(text + rest, Number(done, 16)) == (Number(done + ds, 16), rest)
    decreases ds
  {
    hide Number, IsDigit;
    if ds == [] {
      assert text + rest == rest && done + ds == done;
      if rest != [] {
        HexDigitIs(rest[0]);
      }
    } else {
      HexStep(text[0], ds[0], text[1..] + rest, done);
      assert text + rest == [text[0]] + (text[1..] + rest);
      HexReads(done + [ds[0]], text[1..], ds[1..], rest);
      assert done + [ds[0]] + ds[1..] == done + ds;
    }
  }

  /** A hexadecimal escape takes all the digits there are, in either case, and has their value. */
  lemma HexEscape(text: seq<byte>, ds: seq<nat>, rest: seq<byte>)
    requires Spells(text, ds, 16) && NoDigit(rest, 16)
    ensures Escape(['x' as int] + text + rest) == (Number(ds, 16), rest)
  {
    hide Number;
    assert (['x' as int] + text + rest)[1..] == text + rest;
    HexReads([], text, ds, rest);
    assert Number([], 16) == 0 by { NoDigits(16); }
    assert [] + ds == ds;
  }

  lemma NoDigits(base: nat)
    ensures Number([], base) == 0
  {
  }

  lemma {:induction false} OctalReads(done: seq<nat>, text: seq<byte>, ds: seq<nat>, rest: seq<byte>, n: nat)
    requires Spells(text, ds, 8) && |ds| <= n && (|ds| == n || NoDigit(rest, 8))
    ensures OctalFrom(text + rest, Number(done, 8), n) == (Number(done + ds, 8), rest)
    decreases ds
  {
    if ds == [] {
      assert text + rest == rest && done + ds == done;
      if rest != [] {
        OctalDigitIs(rest[0]);
      }
    } else {
      OctalDigitIs(text[0]);
      assert (text + rest)[1..] == text[1..] + rest;
      assert (done + [ds[0]])[..|done|] == done;
      OctalReads(done + [ds[0]], text[1..], ds[1..], rest, n - 1);
      assert done + [ds[0]] + ds[1..] == done + ds;
    }
  }

  /** An octal escape of one to three digits has their value, except when it begins with 0 and goes on. */
  lemma OctalEscape(text: seq<byte>, ds: seq<nat>, rest: seq<byte>)
    requires Spells(text, ds, 8) && 1 <= |ds| <= 3 && (|ds| == 3 || NoDigit(rest, 8))
    ensures Escape(text + rest) == (Number(ds, 8), rest) <==> ds[0] != 0 || |ds| == 1
  {
    hide Number;
    OctalDigitIs(text[0]);
    assert (text + rest)[1..] == text[1..] + rest;
    assert Number([ds[0]], 8) == ds[0] by { OneDigit(ds[0], 8); }
    if ds[0] != 0 {
      OctalReads([ds[0]], text[1..], ds[1..], rest, 2);
      assert [ds[0]] + ds[1..] == ds;
    } else {
      assert |(text[1..] + rest)| == |ds| - 1 + |rest|;
      if |ds| == 1 {
        assert text[1..] + rest == rest && ds == [0];
      }
    }
  }

  lemma OneDigit(d: nat, base: nat)
    ensures Number([d], base) == d
  {
    assert [d][..0] == [];
  }

  /** The bytes of a literal from inside its quotes, and what follows the closing quote. */
  function ScanRest(rest: seq<byte>, buf: seq<byte>): Option<(seq<byte>, seq<byte>)>
    decreases |rest|
  {
    if rest == [] || rest[0] == NL then None
    else if rest[0] == QUOTE then Some((buf, rest[1..]))
    else if rest[0] == BACKSLASH then
      if |buf| < CAPACITY then
        EscapeShrinks(rest[1..]);
        var (v, tail) := Escape(rest[1..]);
        ScanRest(tail, buf + [v % 256])
      else ScanRest(rest[1..], buf)
    else ScanRest(rest[1..], if |buf| < CAPACITY then buf + [rest[0]] else buf)
  }

  /** A whole literal, from its opening quote. */
  function ScanLiteral(text: seq<byte>): Option<(seq<byte>, seq<byte>)> {
    if text == [] then None else ScanRest(text[1..], [])
  }

  /** The lexer over a source buffer. */
  class Lexer {
    const src: seq<byte>
    var cur: nat
    var line: int
    var col: int

    ghost predicate Valid()
      reads this
    {
      cur <= |src|
    }

    function Rest(): seq<byte>
      reads this
      requires Valid()
    {
      src[cur..]
    }

    constructor (text: seq<byte>)
      ensures Valid() && src == text && cur == 0 && Rest() == text
    {
      src, cur, line, col := text, 0, 1, 1;
    }

    predicate AtEnd()
      reads this
    {
      cur >= |src|
    }

    function Peek(): byte
      reads this
    {
      if AtEnd() then 0 else src[cur]
    }

    method Adv() returns (c: byte)
      requires Valid()
      modifies this
      ensures Valid() && c == old(Peek())
      ensures Rest() == if old(AtEnd()) then old(Rest()) else old(Rest())[1..]
    {
      if AtEnd() { return 0; }
      c := src[cur];
      cur := cur + 1;
      if c == NL {
        line, col := line + 1, 1;
      } else {
        col := col + 1;
      }
    }

    method ScanHex() returns (v: int)
      requires Valid()
      modifies this
      ensures Valid() && (v, Rest()) == HexFrom(old(Rest()), 0)
    {
      v := 0;
      while !AtEnd() && IsHex(Peek())
        invariant Valid() && HexFrom(Rest(), v) == HexFrom(old(Rest()), 0)
        decreases |src| - cur
      {
        var h := Adv();
        v := v * 16 + HexDigit(h);
      }
    }

    method ScanOctal(first: byte) returns (v: int)
      requires Valid() && IsOctal(first)
      modifies this
      ensures Valid() && (v, Rest()) == OctalFrom(old(Rest()), first - ZERO, 2)
    {
      v := first - ZERO;
      var i := 0;
      while i < 2 && !AtEnd() && IsOctal(Peek())
        invariant 0 <= i <= 2 && Valid() && OctalFrom(Rest(), v, 2 - i) == OctalFrom(old(Rest()), first - ZERO, 2)
      {
        var d := Adv();
        v := v * 8 + (d - ZERO);
        i := i + 1;
      }
    }

    method ScanEsc() returns (v: int)
      requires Valid()
      modifies this
      ensures Valid() && (v, Rest()) == Escape(old(Rest()))
    {
      if AtEnd() { return 0; }
      var c := Adv();
      if c == LETTER_N { v := NL; }
      else if c == LETTER_T { v := TAB; }
      else if c == LETTER_R { v := CR; }
      else if c == BACKSLASH || c == TICK || c == QUOTE { v := c; }
      else if c == ZERO { v := 0; }
      else if c == LETTER_A { v := 7; }
      else if c == LETTER_B { v := 8; }
      else if c == LETTER_F { v := 12; }
      else if c == LETTER_V { v := 11; }
      else if c == LETTER_X { v := ScanHex(); }
      else if IsOctal(c) { v := ScanOctal(c); }
      else { v := c; }
    }

    /** `None` is the error token of an unterminated literal. */
    method ScanStr() returns (r: Option<seq<byte>>)
      requires Valid() && !AtEnd()
      modifies this
      ensures Valid()
      ensures match ScanLiteral(old(Rest()))
              case Some((bytes, tail)) => r == Some(bytes) && Rest() == tail
              case None => r == None
    {
      var open := Adv();
      var buf: seq<byte> := [];
      while !AtEnd() && Peek() != QUOTE
        invariant Valid() && ScanRest(Rest(), buf) == ScanLiteral(old(Rest()))
        decreases |src| - cur
      {
        if Peek() == NL { return None; }
        if Peek() == BACKSLASH {
          var b := Adv();
          if |buf| < CAPACITY {
            EscapeShrinks(Rest());
            var v := ScanEsc();
            buf := buf + [v % 256];
          }
        } else {
          if |buf| < CAPACITY { buf := buf + [Peek()]; }
          var c := Adv();
        }
      }
      if AtEnd() { return None; }
      var close := Adv();
      return Some(buf);
    }
  }

  // ----- emission -----

  function EscapeByte(c: byte): seq<byte> {
    if c == NL then [BACKSLASH, LETTER_N]
    else if c == CR then [BACKSLASH, LETTER_R]
    else if c == TAB then [BACKSLASH, LETTER_T]
    else if c == BACKSLASH then [BACKSLASH, BACKSLASH]
    else if c == QUOTE then [BACKSLASH, QUOTE]
    else if c < 32 || c > 126 then [BACKSLASH, ZERO + c / 64, ZERO + c / 8 % 8, ZERO + c % 8]
    else [c]
  }

  /** The text of a string up to its first NUL. */
  function EscapeAll(s: seq<byte>): seq<byte> {
    if s == [] || s[0] == 0 then [] else EscapeByte(s[0]) + EscapeAll(s[1..])
  }

  function Asciz(s: seq<byte>): seq<byte> {
    [QUOTE] + EscapeAll(s) + [QUOTE]
  }

  /** `emit_asciz` on the output stream `out`. */
  method EmitAsciz(s: seq<byte>) returns (out: seq<byte>)
    ensures out == Asciz(s)
  {
    hide EscapeByte;
    out := [QUOTE];
    var i := 0;
    while i < |s| && s[i] != 0
      invariant 0 <= i <= |s|
      invariant out + EscapeAll(s[i..]) == [QUOTE] + EscapeAll(s)
    {
      assert s[i..][1..] == s[i + 1..];
      out := out + EscapeByte(s[i]);
      i := i + 1;
    }
    assert EscapeAll(s[i..]) == [];
    out := out + [QUOTE];
  }

  // ----- the round trip -----

  /** Bytes that come back: everything from 32 up, and the three named control characters. */
  predicate Survives(c: byte) {
    c >= 32 || c == NL || c == CR || c == TAB
  }

  predicate AllSurvive(s: seq<byte>) {
    forall i :: 0 <= i < |s| ==> Survives(s[i])
  }

  lemma OctalDigits(c: byte)
    ensures c == (c / 64 * 8 + c / 8 % 8) * 8 + c % 8 && 0 <= c / 8 % 8 < 8
    ensures c > 126 ==> 1 <= c / 64 <= 3
  {
  }

  lemma OctalStep(d: byte, rest: seq<byte>, v: int, n: nat)
    requires IsOctal(d) && n > 0
    ensures OctalFrom([d] + rest, v, n) == OctalFrom(rest, v * 8 + (d - ZERO), n - 1)
  {
    assert ([d] + rest)[1..] == rest;
  }

  /** Octal escapes have exactly three digits, so digits that follow are not taken in. */
  lemma OctalByte(c: byte, rest: seq<byte>)
    requires c > 126
    ensures Escape([ZERO + c / 64, ZERO + c / 8 % 8, ZERO + c % 8] + rest) == (c, rest)
  {
    OctalDigits(c);
    var d0, d1, d2 := ZERO + c / 64, ZERO + c / 8 % 8, ZERO + c % 8;
    var text := [d0, d1, d2] + rest;
    assert text[1..] == [d1] + ([d2] + rest);
    OctalStep(d1, [d2] + rest, d0 - ZERO, 2);
    OctalStep(d2, rest, (d0 - ZERO) * 8 + (d1 - ZERO), 1);
  }

  /** The scanner at a backslash, given what the escape after it means. */
  lemma AtEscape(e: seq<byte>, rest: seq<byte>, buf: seq<byte>, c: byte)
    requires |buf| < CAPACITY && Escape(e + rest) == (c, rest)
    ensures ScanRest([BACKSLASH] + e + rest, buf) == ScanRest(rest, buf + [c])
  {
    hide Escape;
    var text := [BACKSLASH] + e + rest;
    assert text[0] == BACKSLASH && text[1..] == e + rest;
    assert c % 256 == c;
  }

  lemma NamedEscape(c: byte, rest: seq<byte>)
    requires c == NL || c == CR || c == TAB || c == BACKSLASH || c == QUOTE
    ensures |EscapeByte(c)| == 2 && EscapeByte(c)[0] == BACKSLASH
    ensures Escape(EscapeByte(c)[1..] + rest) == (c, rest)
  {
    assert (EscapeByte(c)[1..] + rest)[1..] == rest;
  }

  lemma OneByte(c: byte, rest: seq<byte>, buf: seq<byte>)
    requires Survives(c) && |buf| < CAPACITY
    ensures ScanRest(EscapeByte(c) + rest, buf) == ScanRest(rest, buf + [c])
  {
    if c > 126 {
      var e := [ZERO + c / 64, ZERO + c / 8 % 8, ZERO + c % 8];
      OctalByte(c, rest);
      hide Escape, ScanRest;
      AtEscape(e, rest, buf, c);
      assert EscapeByte(c) == [BACKSLASH] + e;
    } else if c == NL || c == CR || c == TAB || c == BACKSLASH || c == QUOTE {
      NamedEscape(c, rest);
      hide Escape, ScanRest;
      AtEscape(EscapeByte(c)[1..], rest, buf, c);
      assert EscapeByte(c) == [BACKSLASH] + EscapeByte(c)[1..];
    } else {
      hide Escape;
      assert EscapeByte(c) == [c];
      assert ([c] + rest)[1..] == rest;
    }
  }

  lemma {:induction false} ManyBytes(s: seq<byte>, rest: seq<byte>, buf: seq<byte>)
    requires AllSurvive(s) && |buf| + |s| <= CAPACITY
    ensures ScanRest(EscapeAll(s) + rest, buf) == ScanRest(rest, buf + s)
    decreases s
  {
    hide EscapeByte, ScanRest;
    if s == [] {
      assert EscapeAll(s) + rest == rest && buf + s == buf;
    } else {
      assert EscapeAll(s) + rest == EscapeByte(s[0]) + (EscapeAll(s[1..]) + rest);
      OneByte(s[0], EscapeAll(s[1..]) + rest, buf);
      ManyBytes(s[1..], rest, buf + [s[0]]);
      assert buf + [s[0]] + s[1..] == buf + s;
    }
  }

  /** Scanning the emitted text gives back the bytes and stops after the closing quote. */
  lemma RoundTrip(s: seq<byte>, rest: seq<byte>)
    requires AllSurvive(s) && |s| <= CAPACITY
    ensures ScanLiteral(Asciz(s) + rest) == Some((s, rest))
  {
    var text := Asciz(s) + rest;
    assert text[1..] == EscapeAll(s) + ([QUOTE] + rest);
    ManyBytes(s, [QUOTE] + rest, []);
    assert ([QUOTE] + rest)[1..] == rest;
    assert [] + s == s;
  }

  /** The result extends what is in the buffer, and never outgrows it. */
  lemma {:induction false} ScanExtends(rest: seq<byte>, buf: seq<byte>)
    requires |buf| <= CAPACITY
    ensures ScanRest(rest, buf).Some? ==> buf <= ScanRest(rest, buf).value.0 && |ScanRest(rest, buf).value.0| <= CAPACITY
    decreases |rest|
  {
    hide Escape;
    if rest == [] || rest[0] == NL || rest[0] == QUOTE {
    } else if rest[0] == BACKSLASH {
      if |buf| < CAPACITY {
        EscapeShrinks(rest[1..]);
        ScanExtends(Escape(rest[1..]).1, buf + [Escape(rest[1..]).0 % 256]);
      } else {
        ScanExtends(rest[1..], buf);
      }
    } else {
      ScanExtends(rest[1..], if |buf| < CAPACITY then buf + [rest[0]] else buf);
    }
  }

  lemma {:induction false} EscapeSplit(g: seq<byte>, r: seq<byte>)
    requires AllSurvive(g)
    ensures EscapeAll(g + r) == EscapeAll(g) + EscapeAll(r)
    decreases g
  {
    hide EscapeByte;
    if g == [] {
      assert g + r == r;
    } else {
      EscapeSplit(g[1..], r);
      assert (g + r)[1..] == g[1..] + r;
    }
  }

  lemma {:induction false} FirstBad(s: seq<byte>) returns (i: nat)
    requires !AllSurvive(s)
    ensures i < |s| && AllSurvive(s[..i]) && !Survives(s[i])
    decreases s
  {
    if !Survives(s[0]) {
      i := 0;
    } else {
      i := FirstBad(s[1..]);
      i := i + 1;
      assert s[..i] == [s[0]] + s[1..][..i - 1];
    }
  }

  /**
   The round trip holds for exactly the strings that fit the scanner's buffer and whose control
   characters are newline, carriage return and tab: the others are emitted as `\0` and two more
   digits, which the scanner reads as a NUL and two digits.
   */
  lemma RoundTripExact(s: seq<byte>)
    ensures (ScanLiteral(Asciz(s)).Some? && ScanLiteral(Asciz(s)).value.0 == s)
            <==> |s| <= CAPACITY && AllSurvive(s)
  {
    assert Asciz(s) + [] == Asciz(s);
    if |s| <= CAPACITY && AllSurvive(s) {
      RoundTrip(s, []);
    } else {
      ScanExtends(Asciz(s)[1..], []);
      if |s| <= CAPACITY {
        var i := FirstBad(s);
        BadByte(s, i);
      }
    }
  }

  lemma NulEscape(text: seq<byte>)
    requires |text| >= 2 && text[1] == ZERO
    ensures Escape(text[1..]) == (0, text[2..])
  {
    assert text[1..][1..] == text[2..];
  }

  lemma BadByte(s: seq<byte>, i: nat)
    requires |s| <= CAPACITY && i < |s| && AllSurvive(s[..i]) && !Survives(s[i])
    ensures !(ScanLiteral(Asciz(s)).Some? && ScanLiteral(Asciz(s)).value.0 == s)
  {
    hide Escape;
    var g, r := s[..i], s[i..];
    assert g + r == s;
    EscapeSplit(g, r);
    assert Asciz(s)[1..] == EscapeAll(g) + (EscapeAll(r) + [QUOTE]);
    ManyBytes(g, EscapeAll(r) + [QUOTE], []);
    assert [] + g == g;
    if r[0] != 0 {
      var tail := EscapeAll(r[1..]) + [QUOTE];
      var text := EscapeByte(r[0]) + tail;
      assert EscapeAll(r) + [QUOTE] == text;
      assert text[0] == BACKSLASH && text[1] == ZERO;
      NulEscape(text);
      ScanExtends(text[2..], g + [0]);
      var res := ScanRest(text[2..], g + [0]);
      if res.Some? {
        assert res.value.0[i] == (g + [0])[i] == 0;
      }
    }
  }
}
