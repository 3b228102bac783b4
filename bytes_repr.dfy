/** `repr(content)` of a Python `bytes` value, as placed in the JSON diagnostic when the
    origin does not answer 200: `b'...'` with printable ASCII kept, the quote and the
    backslash escaped, tab, newline and carriage return as `\t`, `\n`, `\r`, every other
    byte as `\xhh`. Double quotes are used when the data holds a single quote and no
    double quote. */
module BytesRepr {
  import opened Errors

  newtype byte = b: int | 0 <= b < 256

  const SingleQuote: byte := 39
  const DoubleQuote: byte := 34
  const Backslash: byte := 92

  function HexDigit(d: int): (c: char)
    requires 0 <= d < 16
  {
    if d < 10 then ('0' as int + d) as char else ('a' as int + d - 10) as char
  }

  function HexValue(c: char): Option<int> {
    if '0' <= c <= '9' then Some(c as int - '0' as int)
    else if 'a' <= c <= 'f' then Some(c as int - 'a' as int + 10)
    else None
  }

  /** The quote character Python picks for the whole literal. */
  function QuoteFor(data: seq<byte>): (q: byte)
    ensures q == SingleQuote || q == DoubleQuote
    ensures q == DoubleQuote <==> SingleQuote in data && DoubleQuote !in data
  {
    if SingleQuote in data && DoubleQuote !in data then DoubleQuote else SingleQuote
  }

  function EscapeByte(c: byte, quote: byte): (s: string)
    requires quote == SingleQuote || quote == DoubleQuote
  {
    if c == quote || c == Backslash then ['\\', c as char]
    else if c == 9 then "\\t"
    else if c == 10 then "\\n"
    else if c == 13 then "\\r"
    else if c < 32 || c >= 127 then ['\\', 'x', HexDigit(c as int / 16), HexDigit(c as int % 16)]
    else [c as char]
  }

  function EscapeAll(data: seq<byte>, quote: byte): string
    requires quote == SingleQuote || quote == DoubleQuote
  {
    if |data| == 0 then "" else EscapeByte(data[0], quote) + EscapeAll(data[1..], quote)
  }

  // ---- reading the literal back ----

  /** The byte one escape sequence after a backslash stands for (`x` is handled apart). */
  function SimpleEscape(c: char): Option<byte> {
    if c == 't' then Some(9)
    else if c == 'n' then Some(10)
    else if c == 'r' then Some(13)
    else if c == '\'' then Some(SingleQuote)
    else if c == '"' then Some(DoubleQuote)
    else if c == '\\' then Some(Backslash)
    else None
  }

  /** The first byte of a literal's body and the number of characters that spell it. */
  function UnescapeHead(s: string): Option<(byte, nat)>
    requires |s| > 0
  {
    if s[0] != '\\' then (if s[0] as int < 256 then Some((s[0] as int as byte, 1)) else None)
    else if |s| >= 2 && SimpleEscape(s[1]).Some? then Some((SimpleEscape(s[1]).value, 2))
    else if |s| >= 4 && s[1] == 'x' && HexValue(s[2]).Some? && HexValue(s[3]).Some? then
      Some(((HexValue(s[2]).value * 16 + HexValue(s[3]).value) as byte, 4))
    else None
  }

  /** The bytes denoted by the body of a bytes literal (between the quotes). */
  function Unescape(s: string): Option<seq<byte>> {
    if |s| == 0 then Some([])
    else
      match UnescapeHead(s)
      case None => None
      case Some((b, n)) =>
        if n > |s| then None
        else
          match Unescape(s[n..])
          case None => None
          case Some(rest) => Some([b] + rest)
  }

  /** The bytes a `b'...'` or `b"..."` literal denotes. */
  function ParseLiteral(s: string): Option<seq<byte>> {
    if |s| >= 3 && s[0] == 'b' && (s[1] == '\'' || s[1] == '"') && s[|s| - 1] == s[1]
    then Unescape(s[2..|s| - 1])
    else None
  }

  lemma HexRoundTrip(c: byte)
    ensures HexValue(HexDigit(c as int / 16)) == Some(c as int / 16)
    ensures HexValue(HexDigit(c as int % 16)) == Some(c as int % 16)
  {
  }

  lemma {:induction false} UnescapeOne(c: byte, quote: byte, rest: string)
    requires quote == SingleQuote || quote == DoubleQuote
    ensures Unescape(EscapeByte(c, quote) + rest) ==
            match Unescape(rest) case None => None case Some(r) => Some([c] + r)
  {
    var e := EscapeByte(c, quote);
    var s := e + rest;
    assert s[|e|..] == rest;
    if c < 32 || c >= 127 {
      if c != quote && c != Backslash && c != 9 && c != 10 && c != 13 {
        HexRoundTrip(c);
        assert (c as int / 16) * 16 + c as int % 16 == c as int;
      }
    }
    assert UnescapeHead(s) == Some((c, |e|));
  }

  /** Reading the escaped text back gives the original bytes. */
  lemma {:induction false} UnescapeEscapeAll(data: seq<byte>, quote: byte)
    requires quote == SingleQuote || quote == DoubleQuote
    ensures Unescape(EscapeAll(data, quote)) == Some(data)
  {
    if |data| > 0 {
      var rest := EscapeAll(data[1..], quote);
      var whole := EscapeByte(data[0], quote) + rest;
      assert EscapeAll(data, quote) == whole;
      UnescapeEscapeAll(data[1..], quote);
      assert Unescape(rest) == Some(data[1..]);
      UnescapeOne(data[0], quote, rest);
      assert Unescape(whole) == Some([data[0]] + data[1..]);
      assert data == [data[0]] + data[1..];
    }
  }

  /** `repr(data)`. The diagnostic loses nothing: the literal is read back as exactly
      the origin's bytes. */
  function Repr(data: seq<byte>): (r: string)
    ensures ParseLiteral(r) == Some(data)
  {
    var q := QuoteFor(data);
    var body := EscapeAll(data, q);
    var s := "b" + [q as char] + body + [q as char];
    assert s[2..|s| - 1] == body;
    UnescapeEscapeAll(data, q);
    s
  }

  // ---- what the text looks like ----

  predicate IsPrintableAscii(c: char) { ' ' <= c <= '~' }

  lemma {:induction false} EscapeAllPrintable(data: seq<byte>, quote: byte)
    requires quote == SingleQuote || quote == DoubleQuote
    ensures forall i :: 0 <= i < |EscapeAll(data, quote)| ==> IsPrintableAscii(EscapeAll(data, quote)[i])
  {
    if |data| > 0 {
      EscapeAllPrintable(data[1..], quote);
      var e := EscapeByte(data[0], quote);
      var rest := EscapeAll(data[1..], quote);
      assert forall i :: 0 <= i < |e| ==> IsPrintableAscii(e[i]);
      assert forall i :: |e| <= i < |e + rest| ==> (e + rest)[i] == rest[i - |e|];
    }
  }

  /** The repr is plain printable ASCII, whatever the bytes, so it fits in JSON text as is. */
  lemma ReprPrintable(data: seq<byte>)
    ensures forall i :: 0 <= i < |Repr(data)| ==> IsPrintableAscii(Repr(data)[i])
  {
    var q := QuoteFor(data);
    EscapeAllPrintable(data, q);
    var body := EscapeAll(data, q);
    assert Repr(data) == "b" + [q as char] + body + [q as char];
    assert forall i :: 2 <= i < |Repr(data)| - 1 ==> Repr(data)[i] == body[i - 2];
  }

  /** Printable text with no quote and no backslash is shown verbatim between single quotes. */
  lemma {:induction false} PlainTextVerbatim(data: seq<byte>)
    requires forall i :: 0 <= i < |data| ==> 32 <= data[i] < 127 && data[i] != SingleQuote && data[i] != Backslash
    ensures Repr(data) == "b'" + seq(|data|, i requires 0 <= i < |data| => data[i] as char) + "'"
  {
    PlainEscapeVerbatim(data);
  }

  lemma {:induction false} PlainEscapeVerbatim(data: seq<byte>)
    requires forall i :: 0 <= i < |data| ==> 32 <= data[i] < 127 && data[i] != SingleQuote && data[i] != Backslash
    ensures EscapeAll(data, SingleQuote) == seq(|data|, i requires 0 <= i < |data| => data[i] as char)
  {
    if |data| > 0 {
      PlainEscapeVerbatim(data[1..]);
    }
  }
}
