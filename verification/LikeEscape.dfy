/** Escaping search text so that a LIKE pattern around it looks for that text and nothing else. */
module LikeEscape {
  import opened Basics

  // ---- Escaping ----

  /** String.replaceAll of one character. */
  function ReplaceAll(s: string, c: char, put: string): string {
    if s == "" then "" else (if s[0] == c then put else [s[0]]) + ReplaceAll(s[1..], c, put)
  }

  function EscapeLike(value: string): string {
    ReplaceAll(ReplaceAll(ReplaceAll(value, '\\', "\\\\"), '%', "\\%"), '_', "\\_")
  }

  predicate Special(c: char) {
    c == '\\' || c == '%' || c == '_'
  }

  /** A backslash before every special character, in one pass. */
  function Escaped(s: string): string {
    if s == "" then "" else (if Special(s[0]) then ['\\', s[0]] else [s[0]]) + Escaped(s[1..])
  }

  lemma {:induction false} ReplaceAllSplit(a: string, b: string, c: char, put: string)
    ensures ReplaceAll(a + b, c, put) == ReplaceAll(a, c, put) + ReplaceAll(b, c, put)
    decreases |a|
  {
    if a == "" {
      assert a + b == b;
    } else {
      assert (a + b)[1..] == a[1..] + b;
      ReplaceAllSplit(a[1..], b, c, put);
    }
  }

  lemma ReplaceOne(d: char, c: char, put: string)
    ensures ReplaceAll([d], c, put) == if d == c then put else [d]
  {
    assert [d][1..] == "";
  }

  lemma ReplaceInEscape(d: char, c: char, put: string)
    requires c != '\\'
    ensures ReplaceAll(['\\', d], c, put) == ['\\'] + if d == c then put else [d]
  {
    assert ['\\', d][1..] == [d];
    ReplaceOne(d, c, put);
  }

  /** The three replacements one after another do not disturb each other. */
  lemma {:induction false} EscapesEachCharacter(s: string)
    ensures EscapeLike(s) == Escaped(s)
    decreases |s|
  {
    if s != "" {
      var c, rest := s[0], s[1..];
      var r1 := ReplaceAll(rest, '\\', "\\\\");
      var head1 := if c == '\\' then "\\\\" else [c];
      ReplaceAllSplit(head1, r1, '%', "\\%");
      var r2 := ReplaceAll(r1, '%', "\\%");
      var head2 := ReplaceAll(head1, '%', "\\%");
      ReplaceAllSplit(head2, r2, '_', "\\_");
      HeadEscapes(c);
      EscapesEachCharacter(rest);
    }
  }

  lemma HeadEscapes(c: char)
    ensures var head1 := if c == '\\' then "\\\\" else [c];
            ReplaceAll(ReplaceAll(head1, '%', "\\%"), '_', "\\_") == if Special(c) then ['\\', c] else [c]
  {
    if c == '\\' {
      ReplaceInEscape('\\', '%', "\\%");
      ReplaceInEscape('\\', '_', "\\_");
    } else {
      ReplaceOne(c, '%', "\\%");
      ReplaceOne(c, '_', "\\_");
      ReplaceInEscape('%', '_', "\\_");
    }
  }

  // ---- LIKE, section 9.7.1 of the PostgreSQL manual ----

  datatype Token = Literal(c: char) | AnyOne | AnyRun

  /** None when the pattern ends with the escape character. */
  function Parse(pattern: string): Option<seq<Token>>
    decreases |pattern|
  {
    if pattern == "" then Some([])
    else if pattern[0] == '\\' then
      if |pattern| == 1 then None
      else match Parse(pattern[2..])
        case None => None
        case Some(rest) => Some([Literal(pattern[1])] + rest)
    else match Parse(pattern[1..])
      case None => None
      case Some(rest) =>
        Some([if pattern[0] == '%' then AnyRun else if pattern[0] == '_' then AnyOne else Literal(pattern[0])] + rest)
  }

  /** Characters are compared after folding: to themselves for LIKE, to lower case for ILIKE. */
  ghost predicate MatchesTokens(fold: char -> char, tokens: seq<Token>, t: string)
    decreases |tokens|
  {
    if tokens == [] then t == ""
    else match tokens[0]
      case Literal(c) => t != "" && fold(t[0]) == fold(c) && MatchesTokens(fold, tokens[1..], t[1..])
      case AnyOne => t != "" && MatchesTokens(fold, tokens[1..], t[1..])
      case AnyRun => exists i :: 0 <= i <= |t| && MatchesTokens(fold, tokens[1..], t[i..])
  }

  /** Whether a text is LIKE a pattern; None is the error of a dangling escape. */
  ghost function Like(fold: char -> char, pattern: string, t: string): Option<bool> {
    match Parse(pattern)
    case None => None
    case Some(tokens) => Some(MatchesTokens(fold, tokens, t))
  }

  // ---- Escaped text is literal ----

  function Literals(s: string): seq<Token> {
    if s == "" then [] else [Literal(s[0])] + Literals(s[1..])
  }

  lemma ParseOneMore(c: char, tail: string)
    ensures Parse((if Special(c) then ['\\', c] else [c]) + tail) ==
            match Parse(tail) case None => None case Some(tokens) => Some([Literal(c)] + tokens)
  {
    if Special(c) {
      var all := ['\\', c] + tail;
      assert all[2..] == tail;
    } else {
      var all := [c] + tail;
      assert all[1..] == tail;
    }
  }

  /** Reading escaped text back gives the text, and what follows is read on its own. */
  lemma {:induction false} ParseEscaped(s: string, rest: string)
    ensures Parse(Escaped(s) + rest) ==
            match Parse(rest) case None => None case Some(tokens) => Some(Literals(s) + tokens)
    decreases |s|
  {
    hide Parse;
    if s == "" {
      assert Escaped(s) + rest == rest;
      if Parse(rest).Some? { assert [] + Parse(rest).value == Parse(rest).value; }
    } else {
      var head := if Special(s[0]) then ['\\', s[0]] else [s[0]];
      assert Escaped(s) + rest == head + (Escaped(s[1..]) + rest);
      ParseOneMore(s[0], Escaped(s[1..]) + rest);
      ParseEscaped(s[1..], rest);
      if Parse(rest).Some? {
        assert [Literal(s[0])] + (Literals(s[1..]) + Parse(rest).value) == Literals(s) + Parse(rest).value;
      }
    }
  }

  ghost predicate SameFolded(fold: char -> char, a: string, b: string) {
    |a| == |b| && forall i :: 0 <= i < |a| ==> fold(a[i]) == fold(b[i])
  }

  /** The text occurs in t at position i. */
  ghost predicate OccursAt(fold: char -> char, s: string, t: string, i: nat) {
    i + |s| <= |t| && SameFolded(fold, t[i..i + |s|], s)
  }

  lemma {:induction false} LiteralsThenAnything(fold: char -> char, s: string, t: string)
    ensures MatchesTokens(fold, Literals(s) + [AnyRun], t) <==> OccursAt(fold, s, t, 0)
    decreases |s|
  {
    var tokens := Literals(s) + [AnyRun];
    if s == "" {
      assert tokens == [AnyRun] && tokens[1..] == [];
      assert MatchesTokens(fold, tokens[1..], t[|t|..]);
    } else {
      assert tokens[0] == Literal(s[0]) && tokens[1..] == Literals(s[1..]) + [AnyRun];
      if t != "" {
        LiteralsThenAnything(fold, s[1..], t[1..]);
        HeadAndTail(fold, s, t);
      }
    }
  }

  lemma HeadAndTail(fold: char -> char, s: string, t: string)
    requires s != "" && t != ""
    ensures OccursAt(fold, s, t, 0) <==> fold(t[0]) == fold(s[0]) && OccursAt(fold, s[1..], t[1..], 0)
  {
    if |s| <= |t| {
      var a, b := t[0..|s|], t[1..][0..|s| - 1];
      assert a[0] == t[0] && a[1..] == b;
      if fold(t[0]) == fold(s[0]) && SameFolded(fold, b, s[1..]) {
        forall i | 0 <= i < |s|
          ensures fold(a[i]) == fold(s[i])
        {
          if i > 0 { assert b[i - 1] == a[i] && s[1..][i - 1] == s[i]; }
        }
      }
      if SameFolded(fold, a, s) {
        forall i | 0 <= i < |b|
          ensures fold(b[i]) == fold(s[1..][i])
        {
          assert b[i] == a[i + 1] && s[1..][i] == s[i + 1];
        }
      }
    }
  }

  lemma OccursFrom(fold: char -> char, s: string, t: string, i: nat)
    requires i <= |t|
    ensures OccursAt(fold, s, t[i..], 0) <==> OccursAt(fold, s, t, i)
  {
    if i + |s| <= |t| { assert t[i..][0..|s|] == t[i..i + |s|]; }
  }

  /**
   The pattern built around escaped text is well-formed, and matches exactly the texts
   in which the search text occurs.
   */
  lemma SearchFindsTheText(fold: char -> char, s: string, t: string)
    ensures Like(fold, "%" + EscapeLike(s) + "%", t) == Some(exists i: nat :: OccursAt(fold, s, t, i))
  {
    var pattern := "%" + EscapeLike(s) + "%";
    EscapesEachCharacter(s);
    ParseEscaped(s, "%");
    assert "%"[1..] == "";
    assert [AnyRun] + [] == [AnyRun];
    assert pattern[0] == '%' && pattern[1..] == Escaped(s) + "%";
    var inner := Literals(s) + [AnyRun];
    var tokens := [AnyRun] + inner;
    assert Parse("%") == Some([AnyRun]);
    assert Parse(pattern) == Some(tokens) && tokens[1..] == inner;
    forall i | 0 <= i <= |t|
      ensures MatchesTokens(fold, tokens[1..], t[i..]) <==> OccursAt(fold, s, t, i)
    {
      LiteralsThenAnything(fold, s, t[i..]);
      OccursFrom(fold, s, t, i);
    }
    if i: nat :| OccursAt(fold, s, t, i) {
      assert 0 <= i <= |t| && MatchesTokens(fold, tokens[1..], t[i..]);
    }
  }
}
