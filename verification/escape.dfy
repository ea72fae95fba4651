/** The escaping in `copy_to_clipboard_js`: the exported JSON text is put
    between backticks in a JavaScript template literal, after a chain of five
    `str.replace` calls. */
module ClipboardEscape {
  import opened JsonValue

  /** `s.replace(c, rep)` for a one-character pattern. */
  function ReplaceChar(s: string, c: char, rep: string): (r: string)
    ensures c !in rep ==> c !in r
  {
    if s == [] then []
    else (if s[0] == c then rep else [s[0]]) + ReplaceChar(s[1..], c, rep)
  }

  /** The replace chain as written: backslash first, then backtick, double
      quote, line feed and carriage return. */
  function EscapeForJs(text: string): (r: string)
  {
    ReplaceChar(ReplaceChar(ReplaceChar(ReplaceChar(ReplaceChar(
      text, '\\', "\\\\"), '`', "\\`"), '"', "\\\""), '\n', "\\n"), '\r', "\\r")
  }

  /** The escape of one character. */
  function EscapeChar(c: char): string
  {
    if c == '\\' then "\\\\"
    else if c == '`' then "\\`"
    else if c == '"' then "\\\""
    else if c == '\n' then "\\n"
    else if c == '\r' then "\\r"
    else [c]
  }

  /** Escapes every character on its own, left to right. */
  function EscapeEach(s: string): string
  {
    if s == [] then [] else EscapeChar(s[0]) + EscapeEach(s[1..])
  }

  lemma {:induction false} ReplaceCharAppend(a: string, b: string, c: char, rep: string)
    ensures ReplaceChar(a + b, c, rep) == ReplaceChar(a, c, rep) + ReplaceChar(b, c, rep)
  {
    if a != [] {
      assert (a + b)[0] == a[0];
      assert (a + b)[1..] == a[1..] + b;
      ReplaceCharAppend(a[1..], b, c, rep);
      var head := if a[0] == c then rep else [a[0]];
      assert head + (ReplaceChar(a[1..], c, rep) + ReplaceChar(b, c, rep))
          == (head + ReplaceChar(a[1..], c, rep)) + ReplaceChar(b, c, rep);
    } else {
      assert a + b == b;
    }
  }

  lemma ReplaceCharAbsent(s: string, c: char, rep: string)
    requires c !in s
    ensures ReplaceChar(s, c, rep) == s
  {
  }

  lemma ReplaceCharSingle(c: char, x: char, rep: string)
    ensures ReplaceChar([c], x, rep) == if c == x then rep else [c]
  {
    assert [c][0] == c && [c][1..] == [];
  }

  /** The chain applied to one character gives that character's escape:
      every replace after the first leaves the earlier output alone. */
  lemma EscapeOneChar(c: char)
    ensures EscapeForJs([c]) == EscapeChar(c)
  {
    var s1 := ReplaceChar([c], '\\', "\\\\");
    var s2 := ReplaceChar(s1, '`', "\\`");
    var s3 := ReplaceChar(s2, '"', "\\\"");
    var s4 := ReplaceChar(s3, '\n', "\\n");
    ReplaceCharSingle(c, '\\', "\\\\");
    if c == '\\' {
      ReplaceCharAbsent(s1, '`', "\\`");
      ReplaceCharAbsent(s2, '"', "\\\"");
      ReplaceCharAbsent(s3, '\n', "\\n");
      ReplaceCharAbsent(s4, '\r', "\\r");
    } else {
      ReplaceCharSingle(c, '`', "\\`");
      if c == '`' {
        ReplaceCharAbsent(s2, '"', "\\\"");
        ReplaceCharAbsent(s3, '\n', "\\n");
        ReplaceCharAbsent(s4, '\r', "\\r");
      } else {
        ReplaceCharSingle(c, '"', "\\\"");
        if c == '"' {
          ReplaceCharAbsent(s3, '\n', "\\n");
          ReplaceCharAbsent(s4, '\r', "\\r");
        } else {
          ReplaceCharSingle(c, '\n', "\\n");
          if c == '\n' {
            ReplaceCharAbsent(s4, '\r', "\\r");
          } else {
            ReplaceCharSingle(c, '\r', "\\r");
          }
        }
      }
    }
  }

  /** Because backslash is replaced first, the five sequential replaces are
      the same as escaping each character independently. */
  lemma {:induction false} EscapeIsPerCharacter(s: string)
    ensures EscapeForJs(s) == EscapeEach(s)
  {
    if s != [] {
      var c, t := s[0], s[1..];
      assert s == [c] + t;
      var s1a, s1b := ReplaceChar([c], '\\', "\\\\"), ReplaceChar(t, '\\', "\\\\");
      ReplaceCharAppend([c], t, '\\', "\\\\");
      var s2a, s2b := ReplaceChar(s1a, '`', "\\`"), ReplaceChar(s1b, '`', "\\`");
      ReplaceCharAppend(s1a, s1b, '`', "\\`");
      var s3a, s3b := ReplaceChar(s2a, '"', "\\\""), ReplaceChar(s2b, '"', "\\\"");
      ReplaceCharAppend(s2a, s2b, '"', "\\\"");
      var s4a, s4b := ReplaceChar(s3a, '\n', "\\n"), ReplaceChar(s3b, '\n', "\\n");
      ReplaceCharAppend(s3a, s3b, '\n', "\\n");
      ReplaceCharAppend(s4a, s4b, '\r', "\\r");
      assert EscapeForJs(s) == EscapeForJs([c]) + EscapeForJs(t);
      EscapeOneChar(c);
      EscapeIsPerCharacter(t);
    }
  }

  /** The escaped text holds no raw line feed or carriage return, so the
      template literal stays on one line. */
  lemma EscapedHasNoLineBreaks(s: string)
    ensures '\n' !in EscapeForJs(s) && '\r' !in EscapeForJs(s)
  {
    EscapeIsPerCharacter(s);
    EscapeEachHasNoLineBreaks(s);
  }

  lemma {:induction false} EscapeEachHasNoLineBreaks(s: string)
    ensures '\n' !in EscapeEach(s) && '\r' !in EscapeEach(s)
  {
    if s != [] {
      EscapeEachHasNoLineBreaks(s[1..]);
    }
  }

  // ---------------------------------------------------------------------
  // Reversing the five escapes

  /** The character a backslash escape of the chain stands for. */
  function UnescapeChar(c: char): Option<char>
  {
    if c == '\\' then Some('\\')
    else if c == '`' then Some('`')
    else if c == '"' then Some('"')
    else if c == 'n' then Some('\n')
    else if c == 'r' then Some('\r')
    else None
  }

  /** Undoes the five escapes; `None` for a lone or unknown backslash escape. */
  function Unescape(body: string): Option<string>
  {
    if body == [] then Some([])
    else if body[0] == '\\' then
      if |body| == 1 then None
      else match UnescapeChar(body[1])
        case None => None
        case Some(c) => Prepend(c, Unescape(body[2..]))
    else Prepend(body[0], Unescape(body[1..]))
  }

  function Prepend(c: char, r: Option<string>): Option<string>
  {
    match r
    case None => None
    case Some(t) => Some([c] + t)
  }

  lemma UnescapeOneChar(c: char, rest: string)
    ensures Unescape(EscapeChar(c) + rest) == Prepend(c, Unescape(rest))
  {
    var e := EscapeChar(c) + rest;
    if |EscapeChar(c)| == 2 {
      assert e[2..] == rest;
    } else {
      assert e[1..] == rest;
    }
  }

  /** Reversing the five escapes recovers the text exactly. */
  lemma {:induction false} UnescapeRoundTrip(s: string)
    ensures Unescape(EscapeForJs(s)) == Some(s)
  {
    EscapeIsPerCharacter(s);
    UnescapeEachRoundTrip(s);
  }

  lemma {:induction false} UnescapeEachRoundTrip(s: string)
    ensures Unescape(EscapeEach(s)) == Some(s)
  {
    if s != [] {
      UnescapeEachRoundTrip(s[1..]);
      UnescapeOneChar(s[0], EscapeEach(s[1..]));
      assert [s[0]] + s[1..] == s;
    }
  }

  // ---------------------------------------------------------------------
  // What a JavaScript template literal makes of the escaped text

  /** The character a backslash escape stands for inside a template literal,
      for the escapes this model needs. */
  function TemplateEscape(c: char): Option<char>
  {
    if c == '$' then Some('$') else UnescapeChar(c)
  }

  /** The string value of a template literal whose body is `body`, or `None`
      when the body is not a plain string: it contains a `${` substitution or
      an unescaped backtick that ends the literal early, or an escape outside
      this model. A raw carriage return, alone or before a line feed, reads as
      a line feed. */
  function TemplateCooked(body: string): (r: Option<string>)
  {
    if body == [] then Some([])
    else if body[0] == '\\' then
      if |body| == 1 then None
      else match TemplateEscape(body[1])
        case None => None
        case Some(c) => Prepend(c, TemplateCooked(body[2..]))
    else if body[0] == '`' then None
    else if body[0] == '$' && |body| > 1 && body[1] == '{' then None
    else if body[0] == '\r' then
      if |body| > 1 && body[1] == '\n' then Prepend('\n', TemplateCooked(body[2..]))
      else Prepend('\n', TemplateCooked(body[1..]))
    else Prepend(body[0], TemplateCooked(body[1..]))
  }

  lemma {:induction false} EscapeEachAppend(a: string, b: string)
    ensures EscapeEach(a + b) == EscapeEach(a) + EscapeEach(b)
  {
    if a != [] {
      assert (a + b)[0] == a[0];
      assert (a + b)[1..] == a[1..] + b;
      EscapeEachAppend(a[1..], b);
      var head := EscapeChar(a[0]);
      assert head + (EscapeEach(a[1..]) + EscapeEach(b))
          == (head + EscapeEach(a[1..])) + EscapeEach(b);
    } else {
      assert a + b == b;
    }
  }

  /** Text escaped by the chain, put in front of a body that is not a plain
      string, does not make it one. */
  lemma {:induction false} EscapedPrefixKeepsFailure(p: string, rest: string)
    requires TemplateCooked(rest) == None
    ensures TemplateCooked(EscapeEach(p) + rest) == None
  {
    if p != [] {
      var c := p[0];
      EscapedPrefixKeepsFailure(p[1..], rest);
      var tail := EscapeEach(p[1..]) + rest;
      var e := EscapeChar(c) + tail;
      assert EscapeEach(p) + rest == e;
      if |EscapeChar(c)| == 2 {
        assert e[0] == '\\' && e[1] == EscapeChar(c)[1];
        assert TemplateEscape(e[1]).Some?;
        assert e[2..] == tail;
      } else {
        assert e[0] == c && c != '\\' && c != '`' && c != '\r';
        assert e[1..] == tail;
      }
    } else {
      assert EscapeEach(p) + rest == rest;
    }
  }

  /** A `${` in the text survives the chain, so the literal holding the
      escaped text is read as a template containing a `${...}` substitution,
      not as plain text. */
  lemma {:induction false} DollarBraceBreaksLiteral(s: string, i: nat)
    requires i + 1 < |s| && s[i] == '$' && s[i + 1] == '{'
    ensures TemplateCooked(EscapeForJs(s)) == None
  {
    EscapeIsPerCharacter(s);
    var before, after := s[..i], s[i + 2..];
    SplitAtDollarBrace(s, i);
    EscapeEachAppend(before, "${" + after);
    EscapeEachDollarBrace(after);
    DollarBraceIsNotPlain(EscapeEach(after));
    EscapedPrefixKeepsFailure(before, "${" + EscapeEach(after));
  }

  lemma SplitAtDollarBrace(s: string, i: nat)
    requires i + 1 < |s| && s[i] == '$' && s[i + 1] == '{'
    ensures s == s[..i] + ("${" + s[i + 2..])
  {
    assert s[i..] == "${" + s[i + 2..];
    assert s == s[..i] + s[i..];
  }

  lemma DollarBraceIsNotPlain(rest: string)
    ensures TemplateCooked("${" + rest) == None
  {
    var t := "${" + rest;
    assert t[0] == '$' && t[1] == '{';
  }

  lemma EscapeEachDollarBrace(after: string)
    ensures EscapeEach("${" + after) == "${" + EscapeEach(after)
  {
    var t := "${" + after;
    assert t[0] == '$' && t[1..] == "{" + after;
    assert t[1..][0] == '{' && t[1..][1..] == after;
  }

  /** A concrete text that the export can hold and the literal garbles. */
  lemma DollarBraceExample()
    ensures TemplateCooked(EscapeForJs("${a}")) == None
  {
    DollarBraceBreaksLiteral("${a}", 0);
  }

  /** The text holds a `${` somewhere. */
  predicate HasDollarBrace(s: string)
  {
    exists i :: 0 <= i < |s| - 1 && s[i] == '$' && s[i + 1] == '{'
  }

  /** The literal holding the escaped text is plain text equal to the text
      exactly when the text has no `${`; when it has one, the literal holds a
      `${...}` substitution. */
  lemma EscapeForJsInLiteral(s: string)
    ensures TemplateCooked(EscapeForJs(s)) == if HasDollarBrace(s) then None else Some(s)
  {
    if HasDollarBrace(s) {
      var i :| 0 <= i < |s| - 1 && s[i] == '$' && s[i + 1] == '{';
      DollarBraceBreaksLiteral(s, i);
    } else {
      EscapeIsPerCharacter(s);
      PlainTextSurvivesEach(s);
    }
  }

  lemma {:induction false} PlainTextSurvivesEach(s: string)
    requires !HasDollarBrace(s)
    ensures TemplateCooked(EscapeEach(s)) == Some(s)
  {
    if s != [] {
      var rest := s[1..];
      assert !HasDollarBrace(rest) by {
        forall i | 0 <= i < |rest| - 1
          ensures !(rest[i] == '$' && rest[i + 1] == '{')
        {
          assert rest[i] == s[i + 1] && rest[i + 1] == s[i + 2];
        }
      }
      PlainTextSurvivesEach(rest);
      assert s[0] == '$' && rest != [] ==> rest[0] != '{' by {
        if s[0] == '$' && rest != [] {
          assert s[1] == rest[0];
        }
      }
      PlainCharCooked(s[0], rest);
      assert [s[0]] + rest == s;
    }
  }

  /** One escaped character in front of escaped text that does not start
      with `{` after a `$` reads back as that character. */
  lemma PlainCharCooked(c: char, rest: string)
    requires c == '$' ==> rest == [] || rest[0] != '{'
    ensures TemplateCooked(EscapeChar(c) + EscapeEach(rest)) == Prepend(c, TemplateCooked(EscapeEach(rest)))
  {
    var tail := EscapeEach(rest);
    if c == '$' {
      var e := "$" + tail;
      assert e[1..] == tail;
      if rest != [] {
        EscapeEachHead(rest);
      }
    } else {
      TemplateCookedOneChar(c, tail);
    }
  }

  /** Escaped text starts with a backslash or with the text's first character. */
  lemma EscapeEachHead(s: string)
    requires s != []
    ensures EscapeEach(s) != [] && (EscapeEach(s)[0] == '\\' || EscapeEach(s)[0] == s[0])
  {
    assert EscapeEach(s)[0] == EscapeChar(s[0])[0];
  }

  // ---------------------------------------------------------------------
  // The corrected escape: also escape the dollar sign

  /** The chain with a sixth replace of `$` by `\$`. */
  function EscapeForTemplate(text: string): string
  {
    ReplaceChar(EscapeForJs(text), '$', "\\$")
  }

  /** The corrected escape of one character. */
  function EscapeTemplateChar(c: char): string
  {
    if c == '$' then "\\$" else EscapeChar(c)
  }

  function EscapeTemplateEach(s: string): string
  {
    if s == [] then [] else EscapeTemplateChar(s[0]) + EscapeTemplateEach(s[1..])
  }

  lemma {:induction false} TemplateEscapeIsPerCharacter(s: string)
    ensures EscapeForTemplate(s) == EscapeTemplateEach(s)
  {
    EscapeIsPerCharacter(s);
    EscapeEachThenDollar(s);
  }

  lemma {:induction false} EscapeEachThenDollar(s: string)
    ensures ReplaceChar(EscapeEach(s), '$', "\\$") == EscapeTemplateEach(s)
  {
    if s != [] {
      var c := s[0];
      ReplaceCharAppend(EscapeChar(c), EscapeEach(s[1..]), '$', "\\$");
      EscapeEachThenDollar(s[1..]);
      if c == '$' {
        assert ReplaceChar(EscapeChar(c), '$', "\\$") == "\\$" by {
          assert EscapeChar(c)[1..] == [];
        }
      } else {
        ReplaceCharAbsent(EscapeChar(c), '$', "\\$");
      }
    }
  }

  lemma TemplateCookedOneChar(c: char, rest: string)
    ensures TemplateCooked(EscapeTemplateChar(c) + rest) == Prepend(c, TemplateCooked(rest))
  {
    var e := EscapeTemplateChar(c) + rest;
    if |EscapeTemplateChar(c)| == 2 {
      assert e[2..] == rest;
    } else {
      assert e[1..] == rest;
    }
  }

  /** With the dollar sign escaped too, the template literal's value is
      exactly the text, for every text. */
  lemma {:induction false} TemplateRoundTrip(s: string)
    ensures TemplateCooked(EscapeForTemplate(s)) == Some(s)
  {
    TemplateEscapeIsPerCharacter(s);
    TemplateRoundTripEach(s);
  }

  lemma {:induction false} TemplateRoundTripEach(s: string)
    ensures TemplateCooked(EscapeTemplateEach(s)) == Some(s)
  {
    if s != [] {
      TemplateRoundTripEach(s[1..]);
      TemplateCookedOneChar(s[0], EscapeTemplateEach(s[1..]));
      assert [s[0]] + s[1..] == s;
    }
  }
}
