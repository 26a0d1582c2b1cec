/** CSV fields: the reader of one line, and the quoting it undoes. */
module CsvText {
  import opened Base

  // ----- reading -----

  /** A field's characters and what follows them. */
  datatype Piece = Piece(text: string, rest: string)

  function Cons(c: char, p: Piece): Piece { Piece([c] + p.text, p.rest) }

  /** The rest of a quoted field: a doubled quote stands for one, a single quote ends it. */
  function ReadQuoted(t: string): Piece {
    if t == "" then Piece("", "")
    else if t[0] == '"' && |t| > 1 && t[1] == '"' then Cons('"', ReadQuoted(t[2..]))
    else if t[0] == '"' then Piece("", t[1..])
    else Cons(t[0], ReadQuoted(t[1..]))
  }

  function ReadUnquoted(t: string): Piece {
    if t == "" || t[0] == ',' then Piece("", t) else Cons(t[0], ReadUnquoted(t[1..]))
  }

  function PastComma(t: string): string {
    if t == "" then "" else if t[0] == ',' then t[1..] else PastComma(t[1..])
  }

  function ReadField(t: string): Piece
    requires t != ""
  {
    if t[0] == '"' then ReadQuoted(t[1..]) else ReadUnquoted(t)
  }

  lemma {:induction false} QuotedShrinks(t: string)
    ensures |ReadQuoted(t).rest| <= |t|
  {
    if t != "" {
      if t[0] == '"' && |t| > 1 && t[1] == '"' {
        QuotedShrinks(t[2..]);
      } else if t[0] != '"' {
        QuotedShrinks(t[1..]);
      }
    }
  }

  lemma {:induction false} UnquotedShrinks(t: string)
    ensures |ReadUnquoted(t).rest| <= |t|
    ensures ReadUnquoted(t).rest == "" || ReadUnquoted(t).rest[0] == ','
  {
    if t != "" && t[0] != ',' {
      UnquotedShrinks(t[1..]);
    }
  }

  lemma {:induction false} PastCommaShrinks(t: string)
    ensures |PastComma(t)| <= |t| && (t != "" ==> |PastComma(t)| < |t|)
  {
    if t != "" && t[0] != ',' {
      PastCommaShrinks(t[1..]);
    }
  }

  lemma FieldShrinks(t: string)
    requires t != ""
    ensures |PastComma(ReadField(t).rest)| < |t|
  {
    if t[0] == '"' {
      QuotedShrinks(t[1..]);
    } else {
      UnquotedShrinks(t);
    }
    PastCommaShrinks(ReadField(t).rest);
  }

  /** At most `max` fields of a line, each cut to its buffer; nothing after a final comma counts as a field. */
  function Fields(t: string, max: nat): seq<string>
    decreases |t|
  {
    if t == "" || max == 0 then []
    else
      FieldShrinks(t);
      [CopyTrunc(ReadField(t).text, MAX_STR)] + Fields(PastComma(ReadField(t).rest), max - 1)
  }

  // ----- what quoting guarantees -----

  function Doubled(s: string): string {
    if s == "" then "" else (if s[0] == '"' then "\"\"" else [s[0]]) + Doubled(s[1..])
  }

  /** A field of the generator, which quotes without doubling. */
  function Quote(s: string): string { "\"" + s + "\"" }

  lemma {:induction false} DoubledIfPlain(s: string)
    requires '"' !in s
    ensures Doubled(s) == s
  {
    if s != "" {
      DoubledIfPlain(s[1..]);
      assert [s[0]] + s[1..] == s;
    }
  }

  lemma {:induction false} ReadDoubled(s: string, rest: string)
    requires rest == "" || rest[0] != '"'
    ensures ReadQuoted(Doubled(s) + "\"" + rest) == Piece(s, rest)
  {
    if s == "" {
      var t := Doubled(s) + "\"" + rest;
      assert t[1..] == rest;
    } else {
      var more := Doubled(s[1..]) + "\"" + rest;
      ReadDoubled(s[1..], rest);
      assert [s[0]] + s[1..] == s;
      var head := if s[0] == '"' then "\"\"" else [s[0]];
      Associative(head, Doubled(s[1..]), "\"");
      Associative(head, Doubled(s[1..]) + "\"", rest);
      var t := head + more;
      if s[0] == '"' {
        assert t[2..] == more;
      } else {
        assert t[1..] == more;
      }
    }
  }

  /** A field with its quotes doubled (rule 7 of section 2 of RFC 4180) reads back exactly. */
  lemma DoubledFieldReadsBack(s: string, rest: string)
    requires rest == "" || rest[0] != '"'
    ensures ReadField("\"" + Doubled(s) + "\"" + rest) == Piece(s, rest)
  {
    var t := "\"" + Doubled(s) + "\"" + rest;
    assert t[1..] == Doubled(s) + "\"" + rest;
    ReadDoubled(s, rest);
  }

  function Quotes(k: nat): string { seq(k, _ => '"') }

  /** Reading past a quote inside the field never restores the field. The `k` extra quotes are those that
      doubled quotes, met earlier, have already cost. */
  lemma {:induction false} QuoteBreaksReading(k: nat, s: string, rest: string)
    requires k > 0 || '"' in s
    requires rest != "" && rest[0] != '"'
    ensures ReadQuoted(s + "\"" + rest).text != Quotes(k) + s
    decreases |s|
  {
    var t := s + "\"" + rest;
    var read, expected := ReadQuoted(t).text, Quotes(k) + s;
    if s == "" {
      assert t[0] == '"' && t[1] == rest[0];
      assert |expected| == k;
    } else if s[0] != '"' {
      assert read[0] == s[0];
      if k == 0 {
        assert t[1..] == s[1..] + "\"" + rest;
        QuoteBreaksReading(0, s[1..], rest);
        assert read[1..] == ReadQuoted(t[1..]).text;
        assert expected[1..] == Quotes(0) + s[1..];
      } else {
        assert expected[0] == '"';
      }
    } else if |s| == 1 {
      assert t[2..] == rest;
      assert t[0] == t[1] == '"';
      assert ReadQuoted(rest).text[0] == rest[0];
      assert read == ['"'] + ReadQuoted(rest).text;
      assert k > 0 ==> expected[1] == '"';
    } else if s[1] == '"' {
      assert t[2..] == s[2..] + "\"" + rest;
      QuoteBreaksReading(k + 1, s[2..], rest);
      assert read[1..] == ReadQuoted(t[2..]).text;
      assert expected[1..] == Quotes(k + 1) + s[2..];
    } else {
      assert read == "";
    }
  }

  /** A field quoted by the generator reads back exactly when it contains no quote. */
  lemma PlainFieldReadsBackIff(s: string, rest: string)
    requires rest != "" && rest[0] != '"'
    ensures ReadField(Quote(s) + rest).text == s <==> '"' !in s
    ensures '"' !in s ==> ReadField(Quote(s) + rest).rest == rest
  {
    if '"' in s {
      assert (Quote(s) + rest)[1..] == s + "\"" + rest;
      QuoteBreaksReading(0, s, rest);
      assert Quotes(0) + s == s;
    } else {
      DoubledIfPlain(s);
      DoubledFieldReadsBack(s, rest);
    }
  }

  // ----- the reader itself, with its cursor into the line -----

  /** The piece is what was seen so far followed by what remains from cursor `p` on. */
  ghost predicate Continues(piece: Piece, seen: string, quoted: bool, line: string, p: nat)
    requires p <= |line|
  {
    var left := if quoted then ReadQuoted(line[p..]) else ReadUnquoted(line[p..]);
    piece.text == seen + left.text && piece.rest == left.rest
  }

  lemma Advance(piece: Piece, seen: string, quoted: bool, line: string, p: nat)
    requires p < |line| && Continues(piece, seen, quoted, line, p)
    requires if quoted then line[p] != '"' else line[p] != ','
    ensures Continues(piece, seen + [line[p]], quoted, line, p + 1)
  {
    assert line[p..][1..] == line[p + 1..];
    var left := if quoted then ReadQuoted(line[p + 1..]) else ReadUnquoted(line[p + 1..]);
    Associative(seen, [line[p]], left.text);
  }

  lemma AdvanceDoubled(piece: Piece, seen: string, line: string, p: nat)
    requires p + 1 < |line| && line[p] == line[p + 1] == '"' && Continues(piece, seen, true, line, p)
    ensures Continues(piece, seen + ['"'], true, line, p + 2)
  {
    assert line[p..][2..] == line[p + 2..];
    Associative(seen, ['"'], ReadQuoted(line[p + 2..]).text);
  }

  lemma ClosingQuote(piece: Piece, seen: string, line: string, p: nat)
    requires p < |line| && line[p] == '"' && (p + 1 < |line| ==> line[p + 1] != '"')
    requires Continues(piece, seen, true, line, p)
    ensures piece == Piece(seen, line[p + 1..])
  {
    assert line[p..][1..] == line[p + 1..];
  }

  method ParseField(line: string, cursor: nat) returns (text: string, next: nat)
    requires cursor < |line|
    ensures text == CopyTrunc(ReadField(line[cursor..]).text, MAX_STR)
    ensures cursor < next <= |line| && line[next..] == PastComma(ReadField(line[cursor..]).rest)
  {
    ghost var piece, seen := ReadField(line[cursor..]), "";
    var p, quoted, closed := cursor, false, false;
    text := "";
    assert line[cursor..][1..] == line[cursor + 1..];
    if line[p] == '"' {
      quoted := true;
      p := p + 1;
    }
    while p < |line| && !closed && (quoted || line[p] != ',')
      invariant cursor <= p <= |line| && (quoted ==> cursor < p)
      invariant text == Filled(seen, MAX_STR)
      invariant !closed ==> Continues(piece, seen, quoted, line, p)
      invariant closed ==> piece == Piece(seen, line[p..])
      decreases |line| - p
    {
      if quoted && line[p] == '"' && (p + 1 == |line| || line[p + 1] != '"') {
        ClosingQuote(piece, seen, line, p);
        closed := true;
        p := p + 1;
      } else {
        var c := line[p];
        if quoted && c == '"' {
          AdvanceDoubled(piece, seen, line, p);
          p := p + 2;
        } else {
          Advance(piece, seen, quoted, line, p);
          p := p + 1;
        }
        FilledStep(seen, c, MAX_STR);
        seen := seen + [c];
        text := Pushed(text, c, MAX_STR);
      }
    }
    FilledIsCopy(seen, MAX_STR);
    assert piece == Piece(seen, line[p..]);
    next := SkipPastComma(line, p);
    FieldShrinks(line[cursor..]);
    assert |line[next..]| < |line[cursor..]|;
  }

  method SkipPastComma(line: string, cursor: nat) returns (next: nat)
    requires cursor <= |line|
    ensures cursor <= next <= |line| && line[next..] == PastComma(line[cursor..])
  {
    next := cursor;
    while next < |line| && line[next] != ','
      invariant cursor <= next <= |line|
      invariant PastComma(line[next..]) == PastComma(line[cursor..])
    {
      assert line[next..][1..] == line[next + 1..];
      next := next + 1;
    }
    if next < |line| {
      assert line[next..][1..] == line[next + 1..];
      next := next + 1;
    }
  }

  method ParseFields(line: string, max: nat) returns (fields: seq<string>)
    ensures fields == Fields(line, max)
  {
    fields := [];
    var p := 0;
    while p < |line| && |fields| < max
      invariant p <= |line| && |fields| <= max
      invariant Fields(line, max) == fields + Fields(line[p..], max - |fields|)
      decreases |line| - p
    {
      var text, next := ParseField(line, p);
      FieldShrinks(line[p..]);
      Associative(fields, [text], Fields(line[next..], max - |fields| - 1));
      fields := fields + [text];
      p := next;
    }
  }
}
