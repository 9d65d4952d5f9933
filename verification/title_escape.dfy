/** The escaping applied to the console title before it is handed to the shell
    (main.py, `Statistics.update_title`): eight one-character replacements applied
    one after another. Because the caret is escaped fourth, the carets that the
    first three steps introduced are doubled again. */
module TitleEscape {
  import opened Text

  /** The eight steps of the chain, in source order. */
  function Escape(s: string): string {
    var s1 := ReplaceChar(s, '(', "^(");
    var s2 := ReplaceChar(s1, ')', "^)");
    var s3 := ReplaceChar(s2, '!', "^!");
    var s4 := ReplaceChar(s3, '^', "^^");
    var s5 := ReplaceChar(s4, '&', "^&");
    var s6 := ReplaceChar(s5, '|', "^|");
    var s7 := ReplaceChar(s6, '<', "^<");
    ReplaceChar(s7, '>', "^>")
  }

  /** The characters the chain touches. */
  const Specials: string := "()!^&|<>"

  /** No character of `s` is one the chain touches. */
  predicate Plain(s: string) {
    forall i :: 0 <= i < |s| ==> s[i] !in Specials
  }

  /** Reference meaning of the chain, one input character at a time: `(`, `)` and `!`
      get two carets, the other specials one, everything else is kept. */
  function EscapeChar(c: char): string {
    if c in "()!" then ['^', '^', c]
    else if c in "^&|<>" then ['^', c]
    else [c]
  }

  /** The reference definition applied to every character of `s`. */
  function EscapeEach(s: string): string
    decreases |s|
  {
    if s == [] then [] else EscapeChar(s[0]) + EscapeEach(s[1..])
  }

  /* ---------------------------------------------------------------------------
     The chain against the reference
     --------------------------------------------------------------------------- */

  /** The chain applied to two strings joined is the two results joined. */
  lemma EscapeAppend(a: string, b: string)
    ensures Escape(a + b) == Escape(a) + Escape(b)
  {
    var a1, b1 := ReplaceChar(a, '(', "^("), ReplaceChar(b, '(', "^(");
    ReplaceCharAppend(a, b, '(', "^(");
    var a2, b2 := ReplaceChar(a1, ')', "^)"), ReplaceChar(b1, ')', "^)");
    ReplaceCharAppend(a1, b1, ')', "^)");
    var a3, b3 := ReplaceChar(a2, '!', "^!"), ReplaceChar(b2, '!', "^!");
    ReplaceCharAppend(a2, b2, '!', "^!");
    var a4, b4 := ReplaceChar(a3, '^', "^^"), ReplaceChar(b3, '^', "^^");
    ReplaceCharAppend(a3, b3, '^', "^^");
    var a5, b5 := ReplaceChar(a4, '&', "^&"), ReplaceChar(b4, '&', "^&");
    ReplaceCharAppend(a4, b4, '&', "^&");
    var a6, b6 := ReplaceChar(a5, '|', "^|"), ReplaceChar(b5, '|', "^|");
    ReplaceCharAppend(a5, b5, '|', "^|");
    var a7, b7 := ReplaceChar(a6, '<', "^<"), ReplaceChar(b6, '<', "^<");
    ReplaceCharAppend(a6, b6, '<', "^<");
    ReplaceCharAppend(a7, b7, '>', "^>");
  }

  /** A string with none of the special characters passes through unchanged. */
  lemma PlainUnchanged(s: string)
    requires Plain(s)
    ensures Escape(s) == s
  {
    ReplaceCharAbsent(s, '(', "^(");
    ReplaceCharAbsent(s, ')', "^)");
    ReplaceCharAbsent(s, '!', "^!");
    ReplaceCharAbsent(s, '^', "^^");
    ReplaceCharAbsent(s, '&', "^&");
    ReplaceCharAbsent(s, '|', "^|");
    ReplaceCharAbsent(s, '<', "^<");
    ReplaceCharAbsent(s, '>', "^>");
  }

  /** One replacement step on a one-character string. */
  lemma StepOne(c: char, target: char, replacement: string)
    ensures ReplaceChar([c], target, replacement) == if c == target then replacement else [c]
  {
    assert [c][1..] == [];
  }

  /** The caret step on a caret followed by one more character, not a caret. */
  lemma StepCaret(c: char)
    requires c != '^'
    ensures ReplaceChar(['^', c], '^', "^^") == ['^', '^', c]
  {
    assert ['^', c] == ['^'] + [c];
    ReplaceCharAppend(['^'], [c], '^', "^^");
    StepOne('^', '^', "^^");
    StepOne(c, '^', "^^");
  }

  /** `(`, `)` and `!`: one of the first three steps inserts a caret, the caret step doubles it. */
  lemma EscapeDoubled(c: char)
    requires c == '(' || c == ')' || c == '!'
    ensures Escape([c]) == ['^', '^', c]
  {
    var s1 := ReplaceChar([c], '(', "^(");
    var s2 := ReplaceChar(s1, ')', "^)");
    var s3 := ReplaceChar(s2, '!', "^!");
    StepOne(c, '(', "^(");
    if c == '(' {
      ReplaceCharAbsent(s1, ')', "^)");
      ReplaceCharAbsent(s2, '!', "^!");
    } else {
      StepOne(c, ')', "^)");
      if c == ')' {
        ReplaceCharAbsent(s2, '!', "^!");
      } else {
        StepOne(c, '!', "^!");
      }
    }
    assert s3 == ['^', c];
    StepCaret(c);
    var s4 := ['^', '^', c];
    ReplaceCharAbsent(s4, '&', "^&");
    ReplaceCharAbsent(s4, '|', "^|");
    ReplaceCharAbsent(s4, '<', "^<");
    ReplaceCharAbsent(s4, '>', "^>");
  }

  /** The characters escaped from the caret step on get a single caret. */
  lemma EscapeQuoted(c: char)
    requires c == '^' || c == '&' || c == '|' || c == '<' || c == '>'
    ensures Escape([c]) == ['^', c]
  {
    StepOne(c, '(', "^(");
    StepOne(c, ')', "^)");
    StepOne(c, '!', "^!");
    var q := ['^', c];
    if c == '^' {
      StepOne(c, '^', "^^");
      ReplaceCharAbsent(q, '&', "^&");
      ReplaceCharAbsent(q, '|', "^|");
      ReplaceCharAbsent(q, '<', "^<");
      ReplaceCharAbsent(q, '>', "^>");
    } else {
      StepOne(c, '^', "^^");
      StepOne(c, '&', "^&");
      if c == '&' {
        ReplaceCharAbsent(q, '|', "^|");
        ReplaceCharAbsent(q, '<', "^<");
        ReplaceCharAbsent(q, '>', "^>");
      } else {
        StepOne(c, '|', "^|");
        if c == '|' {
          ReplaceCharAbsent(q, '<', "^<");
          ReplaceCharAbsent(q, '>', "^>");
        } else {
          StepOne(c, '<', "^<");
          if c == '<' {
            ReplaceCharAbsent(q, '>', "^>");
          } else {
            StepOne(c, '>', "^>");
          }
        }
      }
    }
  }

  /** On one character the chain agrees with the reference. */
  lemma EscapeSingle(c: char)
    ensures Escape([c]) == EscapeChar(c)
  {
    if c == '(' || c == ')' || c == '!' {
      EscapeDoubled(c);
    } else if c == '^' || c == '&' || c == '|' || c == '<' || c == '>' {
      EscapeQuoted(c);
    } else {
      PlainUnchanged([c]);
    }
  }

  /** The chain of replacements means: escape each character on its own. */
  lemma {:induction false} EscapeIsPerCharacter(s: string)
    ensures Escape(s) == EscapeEach(s)
    decreases |s|
  {
    if s != [] {
      assert s == [s[0]] + s[1..];
      EscapeAppend([s[0]], s[1..]);
      EscapeSingle(s[0]);
      EscapeIsPerCharacter(s[1..]);
    }
  }

  /* ---------------------------------------------------------------------------
     The console title's shape
     --------------------------------------------------------------------------- */

  lemma {:induction false} EscapeEachAppend(a: string, b: string)
    ensures EscapeEach(a + b) == EscapeEach(a) + EscapeEach(b)
    decreases |a|
  {
    if a == [] {
      assert a + b == b;
    } else {
      assert (a + b)[0] == a[0];
      assert (a + b)[1..] == a[1..] + b;
      EscapeEachAppend(a[1..], b);
    }
  }

  lemma {:induction false} EscapeEachPlain(s: string)
    requires Plain(s)
    ensures EscapeEach(s) == s
    decreases |s|
  {
    if s != [] {
      EscapeEachPlain(s[1..]);
      assert [s[0]] + s[1..] == s;
    }
  }

  lemma EscapeEachPipe()
    ensures EscapeEach("|") == "^|"
  {
  }

  lemma EscapeEachTwoPipes(a: string, b: string, c: string)
    requires Plain(a) && Plain(b) && Plain(c)
    ensures EscapeEach(a + "|" + b + "|" + c) == a + "^|" + b + "^|" + c
  {
    EscapeEachAppend(a + "|" + b + "|", c);
    EscapeEachAppend(a + "|" + b, "|");
    EscapeEachAppend(a + "|", b);
    EscapeEachAppend(a, "|");
    EscapeEachPipe();
    EscapeEachPlain(a);
    EscapeEachPlain(b);
    EscapeEachPlain(c);
  }

  /** Plain text around two pipes: only the pipes are escaped. This is the shape of
      the console title. */
  lemma EscapeTwoPipes(a: string, b: string, c: string)
    requires Plain(a) && Plain(b) && Plain(c)
    ensures Escape(a + "|" + b + "|" + c) == a + "^|" + b + "^|" + c
  {
    EscapeIsPerCharacter(a + "|" + b + "|" + c);
    EscapeEachTwoPipes(a, b, c);
  }

  /* ---------------------------------------------------------------------------
     Nothing is lost
     --------------------------------------------------------------------------- */

  /** An escaped string never starts with `(`, `)` or `!`: those only appear after carets. */
  lemma {:induction false} EscapeEachHead(s: string)
    ensures EscapeEach(s) == [] || EscapeEach(s)[0] !in "()!"
    decreases |s|
  {
    if s != [] {
      assert EscapeEach(s)[0] == EscapeChar(s[0])[0];
    }
  }

  /** Reads an escaped title back: `^^` before `(`, `)` or `!` belongs to that
      character, otherwise a caret quotes the character after it. */
  function Unescape(t: string): string
    decreases |t|
  {
    if t == [] then []
    else if t[0] == '^' && |t| >= 2 then
      if t[1] == '^' && |t| >= 3 && t[2] in "()!" then [t[2]] + Unescape(t[3..])
      else [t[1]] + Unescape(t[2..])
    else [t[0]] + Unescape(t[1..])
  }

  lemma UnescapeChar(c: char, rest: string)
    requires rest == [] || rest[0] !in "()!"
    ensures Unescape(EscapeChar(c) + rest) == [c] + Unescape(rest)
  {
    var t := EscapeChar(c) + rest;
    if c in "()!" {
      assert t[3..] == rest;
    } else if c in "^&|<>" {
      assert t[2..] == rest;
    } else {
      assert t[1..] == rest;
    }
  }

  lemma {:induction false} UnescapeEscapeEach(s: string)
    ensures Unescape(EscapeEach(s)) == s
    decreases |s|
  {
    if s != [] {
      EscapeEachHead(s[1..]);
      UnescapeChar(s[0], EscapeEach(s[1..]));
      UnescapeEscapeEach(s[1..]);
      assert [s[0]] + s[1..] == s;
    }
  }

  /** Escaping loses nothing: the title can be recovered from its escaped form. */
  lemma UnescapeEscape(s: string)
    ensures Unescape(Escape(s)) == s
  {
    EscapeIsPerCharacter(s);
    UnescapeEscapeEach(s);
  }
}
