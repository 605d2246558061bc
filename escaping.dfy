/** `escape_sql_string` of main.py: turns one field value into an SQL literal. */
module Escaping {
  import opened Outcomes
  import opened Numerals
  import opened PyStrings
  import opened PyValues

  function Quote(s: string): string
  {
    "\"" + s + "\""
  }

  /** `value.replace('"', '""').replace('\n', '\\n')`. */
  function EscapeText(s: string): string
  {
    Replace(Replace(s, '"', "\"\""), '\n', "\\n")
  }

  /** The SQL literal for a value: `NULL` for None and the empty string; text
      double-quoted and escaped; numbers unquoted; dates quoted `YYYY-MM-DD`;
      anything else quoted as `str(value)` with no escaping. */
  function Escape(v: Value): string
  {
    match v
    case Absent => "NULL"
    case Text(s) => if s == "" then "NULL" else Quote(EscapeText(s))
    case Int(_) => Str(v)
    case Bool(_) => Str(v)
    case Float(_) => Str(v)
    case Date(d) => Quote(IsoDate(d))
    case Other(_) => Quote(Str(v))
  }

  /** What one character of the text becomes inside the literal. */
  function EscapedChar(c: char): string
  {
    if c == '"' then "\"\"" else if c == '\n' then "\\n" else [c]
  }

  /** The two replacements act character by character. */
  lemma EscapeTextCons(c: char, s: string)
    ensures EscapeText([c] + s) == EscapedChar(c) + EscapeText(s)
  {
    ReplaceAppend([c], s, '"', "\"\"");
    var first := if c == '"' then "\"\"" else [c];
    assert Replace([c], '"', "\"\"") == first;
    ReplaceAppend(first, Replace(s, '"', "\"\""), '\n', "\\n");
    if c == '"' {
      assert Replace(first, '\n', "\\n") == "\"\"" by {
        assert first[1..] == "\"";
      }
    }
  }

  /** Escaping works piece by piece. */
  lemma EscapeTextAppend(a: string, b: string)
    ensures EscapeText(a + b) == EscapeText(a) + EscapeText(b)
  {
    ReplaceAppend(a, b, '"', "\"\"");
    ReplaceAppend(Replace(a, '"', "\"\""), Replace(b, '"', "\"\""), '\n', "\\n");
  }

  /** Text with no quote and no line break is left as it is. */
  lemma EscapeTextPlain(s: string)
    requires '"' !in s && '\n' !in s
    ensures EscapeText(s) == s
  {
    ReplaceAbsent(s, '"', "\"\"");
    ReplaceAbsent(s, '\n', "\\n");
  }

  /** Each of two embedded quotes is doubled; the text around them is kept. */
  lemma EmbeddedQuotesDoubled(a: string, b: string, c: string)
    requires '"' !in a + b + c && '\n' !in a + b + c
    ensures EscapeText(a + "\"" + b + "\"" + c) == a + "\"\"" + b + "\"\"" + c
  {
    var q := "\"";
    assert EscapeText(q) == "\"\"" by {
      EscapeTextCons('"', "");
      EscapeTextPlain("");
    }
    EscapeTextPlain(a);
    EscapeTextPlain(b);
    EscapeTextPlain(c);
    EscapeTextAppend(a + q + b + q, c);
    EscapeTextAppend(a + q + b, q);
    EscapeTextAppend(a + q, b);
    EscapeTextAppend(a, q);
  }

  /** Collapsing every `""` of the escaped text gives the original text with each
      line break written as backslash-n; in particular no `"` is left alone. */
  lemma {:induction false} EscapeTextCollapses(s: string)
    ensures CollapseQuotes(EscapeText(s)) == Some(Replace(s, '\n', "\\n"))
  {
    if s != [] {
      var c, rest := s[0], s[1..];
      assert s == [c] + rest;
      EscapeTextCons(c, rest);
      EscapeTextCollapses(rest);
      var e := EscapeText(s);
      var tail := EscapeText(rest);
      if c == '"' {
        assert e[2..] == tail;
      } else if c == '\n' {
        var t := Replace(rest, '\n', "\\n");
        assert e[1..] == "n" + tail;
        assert e[1..][1..] == tail;
        assert CollapseQuotes(e[1..]) == Some(['n'] + t);
        assert CollapseQuotes(e) == Some(['\\'] + (['n'] + t));
        assert Replace(s, '\n', "\\n") == "\\n" + t;
        assert ['\\'] + (['n'] + t) == "\\n" + t;
      } else {
        assert e[1..] == tail;
      }
    }
  }

  /** A non-empty text value becomes a literal that starts and ends with `"`, holds
      no raw line break, and whose inside reads back (each `""` as `"`) as the text
      with every line break turned into backslash-n. */
  lemma TextLiteral(s: string)
    requires s != ""
    ensures var r := Escape(Text(s));
      && |r| >= 2 && r[0] == '"' && r[|r| - 1] == '"'
      && '\n' !in r
      && CollapseQuotes(r[1..|r| - 1]) == Some(Replace(s, '\n', "\\n"))
  {
    var e := EscapeText(s);
    var r := Escape(Text(s));
    assert r[1..|r| - 1] == e;
    EscapeTextCollapses(s);
    ReplaceRemoves(Replace(s, '"', "\"\""), '\n', "\\n");
    assert '\n' !in e;
  }

  /** Only None and the empty string become `NULL` (a float is left aside: its
      text is whatever `str()` gives); 0 and False do not. */
  lemma EscapeIsNull(v: Value)
    requires !v.Float?
    ensures Escape(v) == "NULL" <==> v == Absent || v == Text("")
  {
    if v.Int? {
      IntToStringRoundTrip(v.i);
    }
  }

  /** Integers become their unquoted decimal text, which reads back as the number;
      booleans, being ints to Python, become `True` and `False` unquoted. */
  lemma NumberLiteral(i: int, b: bool)
    ensures ParseInt(Escape(Int(i))) == Some(i)
    ensures '"' !in Escape(Int(i))
    ensures Escape(Bool(b)) == if b then "True" else "False"
  {
    IntToStringRoundTrip(i);
    var r := Escape(Int(i));
    assert r[0] != '"';
    assert forall k :: 1 <= k < |r| ==> r[k] != '"';
  }

  /** A date becomes `"YYYY-MM-DD"`, whose digit groups read back as the date. */
  lemma DateLiteral(d: CalendarDate)
    ensures var r := Escape(Date(d));
      && |r| == 12 && r[0] == '"' && r[11] == '"' && r[5] == '-' && r[8] == '-'
      && AllDigits(r[1..5]) && AllDigits(r[6..8]) && AllDigits(r[9..11])
      && DigitsValue(r[1..5]) == d.year
      && DigitsValue(r[6..8]) == d.month
      && DigitsValue(r[9..11]) == d.day
  {
    var r := Escape(Date(d));
    var s := IsoDate(d);
    IsoDateRoundTrip(d);
    assert r[1..5] == s[..4];
    assert r[6..8] == s[5..7];
    assert r[9..11] == s[8..];
  }

  /** The fallback branch quotes `str(value)` as it is: quotes inside it are not
      doubled and line breaks are not escaped. */
  lemma OtherLiteralUnescaped(r: string)
    ensures Escape(Other(r)) == Quote(r)
    ensures Escape(Other(r)) != Quote(EscapeText(r)) <==> '"' in r || '\n' in r
  {
    if '"' in r || '\n' in r {
      var k :| 0 <= k < |r| && (r[k] == '"' || r[k] == '\n');
      EscapedTextLonger(r, k);
      assert |Quote(EscapeText(r))| > |Quote(r)|;
    } else {
      EscapeTextPlain(r);
    }
  }

  /** Text holding a quote or a line break is lengthened by escaping. */
  lemma EscapedTextLonger(s: string, k: nat)
    requires k < |s| && (s[k] == '"' || s[k] == '\n')
    ensures |EscapeText(s)| > |s|
  {
    var pre, c, post := s[..k], s[k], s[k + 1..];
    assert s == pre + [c] + post;
    EscapeTextAppend(pre + [c], post);
    EscapeTextAppend(pre, [c]);
    assert [c] == [c] + [];
    EscapeTextCons(c, []);
    EscapeTextPlain([]);
    EscapeTextLength(pre);
    EscapeTextLength(post);
  }

  /** Escaping never shortens text. */
  lemma {:induction false} EscapeTextLength(s: string)
    ensures |EscapeText(s)| >= |s|
  {
    if s != [] {
      assert s == [s[0]] + s[1..];
      EscapeTextCons(s[0], s[1..]);
      EscapeTextLength(s[1..]);
    }
  }

  /** A value whose `str()` holds a lone `"` gives a literal whose inside cannot be
      read back. */
  lemma OtherLiteralLoneQuote()
    ensures var r := Escape(Other("5\" rim"));
      r == "\"5\" rim\"" && CollapseQuotes(r[1..|r| - 1]) == None
  {
    var r := Escape(Other("5\" rim"));
    assert r[1..|r| - 1] == "5\" rim";
    assert "5\" rim"[1..] == "\" rim";
  }
}
