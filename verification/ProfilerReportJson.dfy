/** Strings in the JSON report of the cost-centre profiler (rts/ProfilerReportJson.c). */
module ProfilerReportJson {
  import opened Options

  newtype Byte = x: int | 0 <= x < 256

  type Bytes = seq<Byte>

  const NUL: Byte := 0
  const QUOTE: Byte := 0x22
  const BACKSLASH: Byte := 0x5c
  const SLASH: Byte := 0x2f
  const BACKSPACE: Byte := 0x08
  const FORMFEED: Byte := 0x0c
  const NEWLINE: Byte := 0x0a
  const RETURN: Byte := 0x0d
  const TAB: Byte := 0x09
  const LETTER_B: Byte := 0x62
  const LETTER_F: Byte := 0x66
  const LETTER_N: Byte := 0x6e
  const LETTER_R: Byte := 0x72
  const LETTER_T: Byte := 0x74
  const LETTER_U: Byte := 0x75

  // ----- What is written -----

  /** The letter of a two-character escape. */
  function Short(c: Byte): Option<Byte> {
    if c == QUOTE || c == BACKSLASH then Some(c)
    else if c == BACKSPACE then Some(LETTER_B)
    else if c == FORMFEED then Some(LETTER_F)
    else if c == NEWLINE then Some(LETTER_N)
    else if c == RETURN then Some(LETTER_R)
    else if c == TAB then Some(LETTER_T)
    else None
  }

  /** A digit of %x. */
  function Hex(n: Byte): (c: Byte)
    requires n < 16
  {
    if n < 10 then 0x30 + n else 0x61 + (n - 10)
  }

  function EscapeByte(c: Byte): (s: Bytes)
    ensures 1 <= |s| <= 6
  {
    if Short(c).Some? then [BACKSLASH, Short(c).value]
    else if c <= 0x1f then [BACKSLASH, LETTER_U, Hex(0), Hex(0), Hex(c / 16), Hex(c % 16)]
    else [c]
  }

  function Escape(s: Bytes): Bytes {
    if s == [] then [] else EscapeByte(s[0]) + Escape(s[1..])
  }

  /** The short escapes; other control characters become \u followed by four digits, and all else stays. */
  lemma EscapeForms(c: Byte)
    ensures EscapeByte(QUOTE) == [BACKSLASH, QUOTE] && EscapeByte(BACKSLASH) == [BACKSLASH, BACKSLASH]
    ensures EscapeByte(BACKSPACE) == [BACKSLASH, LETTER_B] && EscapeByte(FORMFEED) == [BACKSLASH, LETTER_F]
    ensures EscapeByte(NEWLINE) == [BACKSLASH, LETTER_N] && EscapeByte(RETURN) == [BACKSLASH, LETTER_R]
    ensures EscapeByte(TAB) == [BACKSLASH, LETTER_T]
    ensures c >= 0x20 && c != QUOTE && c != BACKSLASH ==> EscapeByte(c) == [c]
  {
  }

  // ----- Section 7 of RFC 8259 -----

  function UnHex(c: Byte): Option<nat> {
    if 0x30 <= c <= 0x39 then Some((c - 0x30) as nat)
    else if 0x61 <= c <= 0x66 then Some((c - 0x61) as nat + 10)
    else if 0x41 <= c <= 0x46 then Some((c - 0x41) as nat + 10)
    else None
  }

  /** Four hexadecimal digits, for an ASCII character. */
  function UnHex4(s: Bytes): Option<Byte>
    requires |s| == 4
  {
    if UnHex(s[0]) == Some(0) && UnHex(s[1]) == Some(0) && UnHex(s[2]).Some? && UnHex(s[3]).Some?
        && UnHex(s[2]).value < 8
    then Some((UnHex(s[2]).value * 16 + UnHex(s[3]).value) as Byte) else None
  }

  /** What a two-character escape stands for. */
  function Unescape(c: Byte): Option<Byte> {
    if c == QUOTE || c == BACKSLASH || c == SLASH then Some(c)
    else if c == LETTER_B then Some(BACKSPACE)
    else if c == LETTER_F then Some(FORMFEED)
    else if c == LETTER_N then Some(NEWLINE)
    else if c == LETTER_R then Some(RETURN)
    else if c == LETTER_T then Some(TAB)
    else None
  }

  /** The bytes between the quotation marks of a JSON string, decoded. A quotation mark or a control character that is
      not escaped, or a reverse solidus that does not begin an escape, makes it ill-formed. */
  function Decode(s: Bytes): Option<Bytes>
    decreases |s|
  {
    if s == [] then Some([])
    else if s[0] == QUOTE || s[0] < 0x20 then None
    else if s[0] != BACKSLASH then Prepend(Some(s[0]), Decode(s[1..]))
    else if |s| >= 2 && s[1] != LETTER_U then Prepend(Unescape(s[1]), Decode(s[2..]))
    else if |s| >= 6 then Prepend(UnHex4(s[2..6]), Decode(s[6..]))
    else None
  }

  function Prepend(c: Option<Byte>, s: Option<Bytes>): Option<Bytes> {
    if c.Some? && s.Some? then Some([c.value] + s.value) else None
  }

  /** What can be decoded has no control character, and no quotation mark but after a reverse solidus. */
  lemma {:induction false} DecodeStrict(s: Bytes, i: nat)
    requires Decode(s).Some? && i < |s|
    ensures s[i] >= 0x20 && (s[i] == QUOTE ==> i > 0 && s[i - 1] == BACKSLASH)
    decreases |s|
  {
    if s[0] != BACKSLASH {
      if i > 0 { DecodeStrict(s[1..], i - 1); }
    } else if s[1] != LETTER_U {
      if i > 1 { DecodeStrict(s[2..], i - 2); }
    } else if i > 5 {
      DecodeStrict(s[6..], i - 6);
    }
  }

  /** Decoding one escaped byte. */
  lemma DecodeByte(c: Byte, rest: Bytes)
    ensures Decode(EscapeByte(c) + rest) == Prepend(Some(c), Decode(rest))
  {
    var e := EscapeByte(c);
    var s := e + rest;
    assert s[|e|..] == rest && s[0] == e[0];
    if |e| == 2 {
      assert s[1] == e[1];
    } else if |e| == 6 {
      assert s[1] == e[1] && s[2..6] == e[2..6];
      HexInverse(c);
    }
  }

  lemma HexInverse(c: Byte)
    requires c <= 0x1f
    ensures UnHex4([Hex(0), Hex(0), Hex(c / 16), Hex(c % 16)]) == Some(c)
  {
    var q, r := c / 16, c % 16;
    assert q < 2 && r < 16 && c == q * 16 + r;
    assert UnHex(Hex(q)) == Some(q as nat) && UnHex(Hex(r)) == Some(r as nat);
  }

  /** The report can be read back. */
  lemma {:induction false} DecodeEscape(s: Bytes)
    ensures Decode(Escape(s)) == Some(s)
    decreases |s|
  {
    if s != [] {
      DecodeEscape(s[1..]);
      DecodeByte(s[0], Escape(s[1..]));
      assert [s[0]] + s[1..] == s;
    }
  }

  /** Different labels stay different. */
  lemma EscapeInjective(s: Bytes, t: Bytes)
    requires Escape(s) == Escape(t)
    ensures s == t
  {
    DecodeEscape(s);
    DecodeEscape(t);
  }

  // ----- The buffer -----

  /** escaped_size, including the terminator */
  method EscapedSize(str: Bytes) returns (size: nat)
    ensures size == |Escape(str)| + 1
  {
    size := 0;
    var i := 0;
    while i < |str|
      invariant 0 <= i <= |str| && size + |Escape(str[i..])| == |Escape(str)|
    {
      var c := str[i];
      assert str[i..][1..] == str[i + 1..];
      if c == QUOTE || c == BACKSLASH || c == BACKSPACE || c == FORMFEED || c == NEWLINE || c == RETURN || c == TAB {
        size := size + 2;
      } else if c <= 0x1f {
        size := size + 6;
      } else {
        size := size + 1;
      }
      i := i + 1;
    }
    size := size + 1;
  }

  /** sprintf(&out[at], "u%04x", c), with its own terminator */
  method PrintHex(out: array<Byte>, at: nat, c: Byte)
    requires at + 6 <= out.Length && c <= 0x1f
    modifies out
    ensures out[..at] == old(out[..at])
    ensures out[at..at + 6] == [LETTER_U, Hex(0), Hex(0), Hex(c / 16), Hex(c % 16), NUL]
  {
    out[at] := LETTER_U;
    out[at + 1], out[at + 2] := Hex(0), Hex(0);
    out[at + 3], out[at + 4] := Hex(c / 16), Hex(c % 16);
    out[at + 5] := NUL;
  }

  /** One character; the terminator that sprintf writes is overwritten later. */
  method WriteByte(out: array<Byte>, pos: nat, c: Byte) returns (pos': nat)
    requires pos + |EscapeByte(c)| < out.Length
    modifies out
    ensures pos' == pos + |EscapeByte(c)| && out[..pos'] == old(out[..pos]) + EscapeByte(c)
  {
    if Short(c).Some? {
      out[pos] := BACKSLASH;
      out[pos + 1] := Short(c).value;
      pos' := pos + 2;
    } else if c <= 0x1f {
      out[pos] := BACKSLASH;
      assert out[..pos + 1] == old(out[..pos]) + [BACKSLASH];
      PrintHex(out, pos + 1, c);
      assert out[pos + 1..pos + 6] == out[pos + 1..pos + 7][..5];
      assert out[..pos + 6] == out[..pos + 1] + out[pos + 1..pos + 6];
      pos' := pos + 6;
    } else {
      out[pos] := c;
      pos' := pos + 1;
    }
  }

  /** escapeString: the buffer is filled exactly, and every write is inside it. */
  method EscapeString(str: Bytes) returns (buf: array<Byte>)
    ensures fresh(buf) && buf[..] == Escape(str) + [NUL]
    ensures Decode(buf[..buf.Length - 1]) == Some(str)
  {
    hide Escape, EscapeByte, Decode;
    var outSize := EscapedSize(str);
    var out := new Byte[outSize](_ => NUL);
    var pos: nat := 0;
    var i := 0;
    assert str[0..] == str;
    while i < |str|
      invariant 0 <= i <= |str| && pos + |Escape(str[i..])| + 1 == out.Length
      invariant out[..pos] + Escape(str[i..]) == Escape(str)
    {
      var c := str[i];
      Ahead(str, i);
      AppendEscape(out[..pos], EscapeByte(c), Escape(str[i + 1..]));
      pos := WriteByte(out, pos, c);
      i := i + 1;
    }
    NothingAhead(str);
    out[pos] := NUL;
    pos := pos + 1;
    assert pos == outSize;
    buf := out;
    DecodeEscape(str);
    assert buf[..buf.Length - 1] == Escape(str);
  }

  lemma NothingAhead(str: Bytes)
    ensures Escape(str[|str|..]) == []
  {
  }

  lemma Ahead(str: Bytes, i: nat)
    requires i < |str|
    ensures Escape(str[i..]) == EscapeByte(str[i]) + Escape(str[i + 1..])
  {
    assert str[i..][1..] == str[i + 1..];
  }

  lemma AppendEscape(a: Bytes, b: Bytes, c: Bytes)
    ensures a + (b + c) == (a + b) + c
  {
  }
}
