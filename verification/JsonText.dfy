/** JSON strings as the program writes them, and the token reader that takes them apart again. */
module JsonText {
  import opened Base
  import opened Text

  // ----- writing -----

  function HexDigit(d: nat): char
    requires d < 16
  {
    if d < 10 then ('0' as nat + d) as char else ('a' as nat + d - 10) as char
  }

  function Escaped(c: char): string {
    if c == '"' then "\\\""
    else if c == '\\' then "\\\\"
    else if c == '\n' then "\\n"
    else if c == '\r' then "\\r"
    else if c == '\t' then "\\t"
    else if c < ' ' then ['\\', 'u'] + ['0', '0', HexDigit(c as nat / 16), HexDigit(c as nat % 16)]
    else [c]
  }

  function EscapedAll(s: string): string {
    if s == "" then "" else Escaped(s[0]) + EscapedAll(s[1..])
  }

  function JsonString(s: string): string { "\"" + EscapedAll(s) + "\"" }

  method WriteString(s: string) returns (out: string)
    ensures out == JsonString(s)
  {
    out := "\"";
    for i := 0 to |s|
      invariant out + EscapedAll(s[i..]) == "\"" + EscapedAll(s)
    {
      assert s[i..][1..] == s[i + 1..];
      out := out + Escaped(s[i]);
    }
    assert out + EscapedAll(s[|s|..]) == out;
    out := out + "\"";
  }

  // ----- reading -----

  function Unescaped(c: char): char {
    if c == 'n' then '\n' else if c == 'r' then '\r' else if c == 't' then '\t' else c
  }

  /** The text of a string token after its opening quote: everything decoded, whether a closing quote was
      met, and what follows. */
  datatype Token = Token(text: string, closed: bool, rest: string)

  function ReadBody(t: string): Token {
    if t == "" then Token("", false, "")
    else if t[0] == '"' then Token("", true, t[1..])
    else if t[0] == '\\' && |t| > 1 then
      var more := ReadBody(t[2..]);
      more.(text := [Unescaped(t[1])] + more.text)
    else
      var more := ReadBody(t[1..]);
      more.(text := [t[0]] + more.text)
  }

  /** The token at a cursor, if one starts there. */
  function ReadToken(t: string): Option<Token> {
    var u := SkipWs(t);
    if u == "" || u[0] != '"' then None else Some(ReadBody(u[1..]))
  }

  /** The reader with its cursor and its buffer of `size` bytes. On success the cursor stands after the
      closing quote; on failure it has not moved, but characters of an unclosed token stay in the buffer. */
  method ParseStringToken(text: string, cursor: nat, size: nat) returns (ok: bool, out: string, next: nat)
    requires cursor <= |text| && size > 0
    ensures next <= |text|
    ensures ReadToken(text[cursor..]).None? ==> !ok && out == "" && next == cursor
    ensures ReadToken(text[cursor..]).Some? ==>
              var token := ReadToken(text[cursor..]).value;
              && ok == token.closed
              && out == CopyTrunc(token.text, size)
              && (ok ==> cursor < next && text[next..] == token.rest)
              && (!ok ==> next == cursor)
  {
    var p := cursor;
    while p < |text| && IsSpace(text[p])
      invariant cursor <= p <= |text|
      invariant SkipWs(text[p..]) == SkipWs(text[cursor..])
    {
      p := p + 1;
    }
    if p == |text| || text[p] != '"' {
      return false, "", cursor;
    }
    ok, out, next := ParseBody(text, p + 1, size);
    assert text[p..][1..] == text[p + 1..];
    if !ok {
      next := cursor;
    }
  }

  /** The character read at a cursor, and how far the cursor moves. */
  function ReadStep(text: string, p: nat): (char, nat)
    requires p < |text|
  {
    if text[p] == '\\' && p + 1 < |text| then (Unescaped(text[p + 1]), 2) else (text[p], 1)
  }

  lemma ReadBodyStep(text: string, p: nat)
    requires p < |text| && text[p] != '"'
    ensures var (c, n) := ReadStep(text, p);
            p + n <= |text| &&
            ReadBody(text[p..]) == ReadBody(text[p + n..]).(text := [c] + ReadBody(text[p + n..]).text)
  {
    var t, n := text[p..], ReadStep(text, p).1;
    assert t[n..] == text[p + n..];
  }

  /** The token is what was seen so far followed by what remains from cursor `p` on. */
  ghost predicate Continues(token: Token, seen: string, text: string, p: nat)
    requires p <= |text|
  {
    var left := ReadBody(text[p..]);
    token.text == seen + left.text && token.closed == left.closed && token.rest == left.rest
  }

  lemma Advance(token: Token, seen: string, text: string, p: nat)
    requires p < |text| && text[p] != '"' && Continues(token, seen, text, p)
    ensures var (c, n) := ReadStep(text, p);
            p + n <= |text| && Continues(token, seen + [c], text, p + n)
  {
    ReadBodyStep(text, p);
    var (c, n) := ReadStep(text, p);
    var more := ReadBody(text[p + n..]).text;
    Associative(seen, [c], more);
  }

  lemma Finish(token: Token, seen: string, text: string, p: nat)
    requires p <= |text| && Continues(token, seen, text, p) && (p < |text| ==> text[p] == '"')
    ensures token.text == seen && token.closed == (p < |text|)
    ensures p < |text| ==> token.rest == text[p + 1..]
  {
    if p < |text| {
      assert text[p..][1..] == text[p + 1..];
    }
  }

  method ParseBody(text: string, cursor: nat, size: nat) returns (ok: bool, out: string, next: nat)
    requires cursor <= |text| && size > 0
    ensures cursor <= next <= |text|
    ensures ok == ReadBody(text[cursor..]).closed
    ensures out == CopyTrunc(ReadBody(text[cursor..]).text, size)
    ensures ok ==> cursor < next && text[next..] == ReadBody(text[cursor..]).rest
  {
    var p := cursor;
    ghost var token, seen := ReadBody(text[cursor..]), "";
    out := "";
    while p < |text| && text[p] != '"'
      invariant cursor <= p <= |text|
      invariant out == Filled(seen, size)
      invariant Continues(token, seen, text, p)
      decreases |text| - p
    {
      Advance(token, seen, text, p);
      var (c, n) := ReadStep(text, p);
      FilledStep(seen, c, size);
      out := Pushed(out, c, size);
      p, seen := p + n, seen + [c];
    }
    FilledIsCopy(seen, size);
    Finish(token, seen, text, p);
    ok := p < |text|;
    next := if ok then p + 1 else p;
  }

  // ----- reading back what was written -----

  /** A control character that the writer escapes by number, which the reader does not decode. */
  predicate Numbered(c: char) { c < ' ' && c != '\n' && c != '\r' && c != '\t' }

  predicate Clean(s: string) { forall i :: 0 <= i < |s| ==> !Numbered(s[i]) }

  /** What the reader makes of one written character. */
  function Reread(c: char): string {
    if Numbered(c) then ['u'] + ['0', '0', HexDigit(c as nat / 16), HexDigit(c as nat % 16)] else [c]
  }

  function RereadAll(s: string): string {
    if s == "" then "" else Reread(s[0]) + RereadAll(s[1..])
  }

  lemma ReadPlain(c: char, t: string)
    requires c != '"' && c != '\\'
    ensures ReadBody([c] + t) == ReadBody(t).(text := [c] + ReadBody(t).text)
  {
    assert ([c] + t)[1..] == t;
  }

  lemma ReadPair(c: char, t: string)
    ensures ReadBody(['\\', c] + t) == ReadBody(t).(text := [Unescaped(c)] + ReadBody(t).text)
  {
    assert (['\\', c] + t)[2..] == t;
  }

  lemma {:induction false} ReadPlainAll(s: string, t: string)
    requires '"' !in s && '\\' !in s
    ensures ReadBody(s + t) == ReadBody(t).(text := s + ReadBody(t).text)
  {
    if s == "" {
      assert s + t == t;
    } else {
      assert [s[0]] + s[1..] == s;
      Associative([s[0]], s[1..], t);
      ReadPlainAll(s[1..], t);
      ReadPlain(s[0], s[1..] + t);
      Associative([s[0]], s[1..], ReadBody(t).text);
    }
  }

  lemma ReadNumbered(number: string, t: string)
    requires '"' !in number && '\\' !in number
    ensures ReadBody(['\\', 'u'] + number + t) == ReadBody(t).(text := ['u'] + number + ReadBody(t).text)
  {
    Associative(['\\', 'u'], number, t);
    ReadPair('u', number + t);
    ReadPlainAll(number, t);
    Associative(['u'], number, ReadBody(t).text);
  }

  lemma ReadEscaped(c: char, t: string)
    ensures ReadBody(Escaped(c) + t) == ReadBody(t).(text := Reread(c) + ReadBody(t).text)
  {
    if c == '"' || c == '\\' {
      ReadPair(c, t);
    } else if c == '\n' {
      ReadPair('n', t);
    } else if c == '\r' {
      ReadPair('r', t);
    } else if c == '\t' {
      ReadPair('t', t);
    } else if Numbered(c) {
      ReadNumbered(['0', '0', HexDigit(c as nat / 16), HexDigit(c as nat % 16)], t);
    } else {
      ReadPlain(c, t);
    }
  }

  lemma {:induction false} ReadWritten(s: string, rest: string)
    ensures ReadBody(EscapedAll(s) + "\"" + rest) == Token(RereadAll(s), true, rest)
  {
    if s == "" {
      assert (EscapedAll(s) + "\"" + rest)[1..] == rest;
    } else {
      var tail := EscapedAll(s[1..]) + "\"" + rest;
      assert EscapedAll(s) + "\"" + rest == Escaped(s[0]) + tail;
      ReadWritten(s[1..], rest);
      ReadEscaped(s[0], tail);
    }
  }

  lemma {:induction false} CleanReread(s: string)
    ensures Clean(s) ==> RereadAll(s) == s
    ensures !Clean(s) ==> exists i :: 0 <= i < |s| && i < |RereadAll(s)| && RereadAll(s)[i] != s[i]
  {
    if s != "" {
      CleanReread(s[1..]);
      if !Numbered(s[0]) && !Clean(s) {
        assert !Clean(s[1..]);
        var i :| 0 <= i < |s[1..]| && i < |RereadAll(s[1..])| && RereadAll(s[1..])[i] != s[1..][i];
        assert RereadAll(s)[i + 1] != s[i + 1];
      } else if Numbered(s[0]) {
        assert RereadAll(s)[0] == 'u' != s[0];
      }
    }
  }

  /** The token reader stops right after the closing quote of a written string, whatever it contains. */
  lemma TokenOfWritten(s: string, rest: string)
    ensures ReadToken(JsonString(s) + rest) == Some(Token(RereadAll(s), true, rest))
  {
    var t := JsonString(s) + rest;
    assert SkipWs(t) == t;
    assert t[1..] == EscapedAll(s) + "\"" + rest;
    ReadWritten(s, rest);
  }

  /** Exactly when reading inverts writing: no control character but newline, carriage return and tab, and
      room for the string and its NUL. */
  lemma StringRoundTripIff(s: string, rest: string, size: nat)
    requires size > 0
    ensures ReadToken(JsonString(s) + rest).Some?
    ensures CopyTrunc(ReadToken(JsonString(s) + rest).value.text, size) == s <==> Clean(s) && |s| < size
    ensures ReadToken(JsonString(s) + rest).value.rest == rest
  {
    TokenOfWritten(s, rest);
    CleanReread(s);
    var text := RereadAll(s);
    if !Clean(s) && |s| < size {
      var i :| 0 <= i < |s| && i < |text| && text[i] != s[i];
      assert CopyTrunc(text, size)[i] == text[i];
    }
  }

  // ----- what is written -----

  function HexValue(c: char): int {
    if '0' <= c <= '9' then c as int - '0' as int else if 'a' <= c <= 'f' then c as int - 'a' as int + 10 else -1
  }

  /** A control character without an escape of its own is written by its number in four hexadecimal digits. */
  lemma NumberedEscape(c: char)
    requires c < ' ' && c != '\n' && c != '\r' && c != '\t'
    ensures var e := Escaped(c);
            && |e| == 6 && e[..4] == "\\u00" && 0 <= HexValue(e[4]) && 0 <= HexValue(e[5])
            && 16 * HexValue(e[4]) + HexValue(e[5]) == c as int
  {
    var n := c as nat;
    assert n == 16 * (n / 16) + n % 16;
  }

  /** No control character is ever written as it is (section 7 of RFC 8259). */
  lemma {:induction false} NothingUnescaped(s: string)
    ensures forall c :: c in JsonString(s) ==> c >= ' '
  {
    if s != "" {
      NothingUnescaped(s[1..]);
      EscapedIsPrintable(s[0]);
      assert forall c :: c in EscapedAll(s[1..]) ==> c in JsonString(s[1..]);
    }
  }

  lemma EscapedIsPrintable(c: char)
    ensures forall x :: x in Escaped(c) ==> x >= ' '
  {
    if Numbered(c) {
      assert Escaped(c) == ['\\', 'u'] + ['0', '0', HexDigit(c as nat / 16), HexDigit(c as nat % 16)];
    }
  }

}
