/** Numbering the question-mark placeholders of hand-written SQL for PostgreSQL. */
module Sql {
  import opened Decimal

  /** Where a character of an SQL text stands. */
  datatype Class = Code | InString | InComment

  function Classes(s: string, mode: Class): (c: seq<Class>)
    ensures |c| == |s|
  {
    if s == "" then []
    else
      match mode
      case InComment => [InComment] + Classes(s[1..], if s[0] == '\n' then Code else InComment)
      case InString =>
        if s[0] == '\'' && |s| > 1 && s[1] == '\'' then [InString, InString] + Classes(s[2..], InString)
        else [InString] + Classes(s[1..], if s[0] == '\'' then Code else InString)
      case Code =>
        if s[0] == '\'' then [InString] + Classes(s[1..], InString)
        else if s[0] == '-' && |s| > 1 && s[1] == '-' then [InComment] + Classes(s[1..], InComment)
        else [Code] + Classes(s[1..], Code)
  }

  // ----- The classes, segment by segment -----

  function All(n: nat, class_: Class): seq<Class> { seq(n, _ => class_) }

  /** A character of code: neither a quote nor the first of two dashes. */
  lemma CodeSegment(character: char, rest: string)
    requires character != '\'' && !(character == '-' && rest != "" && rest[0] == '-')
    ensures Classes([character] + rest, Code) == [Code] + Classes(rest, Code)
  {
    assert ([character] + rest)[1..] == rest;
  }

  lemma {:induction false} InsideComment(body: string, rest: string)
    requires '\n' !in body
    ensures Classes(body + rest, InComment) == All(|body|, InComment) + Classes(rest, InComment)
  {
    if body == "" {
      assert body + rest == rest;
    } else {
      InsideComment(body[1..], rest);
      assert (body + rest)[1..] == body[1..] + rest;
      assert All(|body|, InComment) == [InComment] + All(|body| - 1, InComment);
    }
  }

  /** A comment runs from two dashes to the end of the line, and no further. */
  lemma CommentSegment(body: string, rest: string)
    requires '\n' !in body
    ensures Classes("--" + body, Code) == All(2 + |body|, InComment)
    ensures Classes("--" + body + "\n" + rest, Code) == All(3 + |body|, InComment) + Classes(rest, Code)
  {
    InsideComment("-" + body, "");
    var text := "--" + body;
    assert text[1..] == "-" + body && ("-" + body) + "" == "-" + body;
    InsideComment("-" + body, "\n" + rest);
    var longer := "--" + body + "\n" + rest;
    assert longer[1..] == ("-" + body) + ("\n" + rest);
    assert ("\n" + rest)[1..] == rest;
    assert Classes("\n" + rest, InComment) == [InComment] + Classes(rest, Code);
  }

  /** The inside of a string literal: quotes are written twice. */
  function Quoted(body: string): string {
    if body == "" then "" else (if body[0] == '\'' then "\'\'" else [body[0]]) + Quoted(body[1..])
  }

  lemma StringSteps(character: char, rest: string)
    ensures Classes("\'\'" + rest, InString) == [InString, InString] + Classes(rest, InString)
    ensures character != '\'' ==> Classes([character] + rest, InString) == [InString] + Classes(rest, InString)
    ensures Classes("\'" + rest, Code) == [InString] + Classes(rest, InString)
    ensures rest == "" || rest[0] != '\'' ==> Classes("\'" + rest, InString) == [InString] + Classes(rest, Code)
  {
    assert ("\'\'" + rest)[2..] == rest && ([character] + rest)[1..] == rest && ("\'" + rest)[1..] == rest;
  }

  lemma Cons(n: nat, class_: Class, rest: seq<Class>)
    ensures [class_] + (All(n, class_) + rest) == All(n + 1, class_) + rest
    ensures [class_, class_] + (All(n, class_) + rest) == All(n + 2, class_) + rest
    ensures All(n, class_) + ([class_] + rest) == All(n + 1, class_) + rest
  {
  }

  lemma Assoc(a: string, b: string, c: string)
    ensures (a + b) + c == a + (b + c)
  {
  }

  lemma QuotedStep(body: string)
    requires body != ""
    ensures Quoted(body) == (if body[0] == '\'' then "\'\'" else [body[0]]) + Quoted(body[1..])
  {
  }

  lemma {:induction false} InsideString(body: string, rest: string)
    ensures Classes(Quoted(body) + rest, InString) == All(|Quoted(body)|, InString) + Classes(rest, InString)
  {
    if body == "" {
      assert Quoted(body) + rest == rest;
    } else {
      InsideString(body[1..], rest);
      var inner := Quoted(body[1..]);
      QuotedStep(body);
      StringSteps(body[0], inner + rest);
      hide Classes, Quoted, All;
      Cons(|inner|, InString, Classes(rest, InString));
      Assoc(if body[0] == '\'' then "\'\'" else [body[0]], inner, rest);
    }
  }

  lemma OpenString(body: string, rest: string)
    ensures Classes("\'" + (Quoted(body) + rest), Code) == All(1 + |Quoted(body)|, InString) + Classes(rest, InString)
  {
    InsideString(body, rest);
    StringSteps(' ', Quoted(body) + rest);
    hide Classes, Quoted, All;
    Cons(|Quoted(body)|, InString, Classes(rest, InString));
  }

  /** A string runs from a quote to the next quote that is not one of two, and no further. */
  lemma StringSegment(body: string, rest: string)
    requires rest == "" || rest[0] != '\''
    ensures Classes("\'" + (Quoted(body) + ("\'" + rest)), Code) ==
            All(2 + |Quoted(body)|, InString) + Classes(rest, Code)
  {
    OpenString(body, "\'" + rest);
    StringSteps(' ', rest);
    hide Classes, Quoted, All;
    Cons(1 + |Quoted(body)|, InString, Classes(rest, Code));
  }

  /** A string that is never closed runs to the end. */
  lemma StringToEnd(body: string)
    ensures Classes("\'" + Quoted(body), Code) == All(1 + |Quoted(body)|, InString)
  {
    OpenString(body, "");
    assert Classes("", InString) == [];
    hide Classes, Quoted, All;
    assert Quoted(body) + "" == Quoted(body);
  }

  predicate IsPlaceholder(character: char, class_: Class) {
    character == '?' && class_ == Code
  }

  /** What stands for one character: the next number for a placeholder, the character itself otherwise. */
  function Piece(character: char, class_: Class, seen: nat): string {
    if IsPlaceholder(character, class_) then "$" + Show(seen + 1) else [character]
  }

  function After(character: char, class_: Class, seen: nat): nat {
    if IsPlaceholder(character, class_) then seen + 1 else seen
  }

  /** The text with the k-th placeholder replaced by `$k`, `seen` of them lying before it. */
  function Numbered(s: string, c: seq<Class>, seen: nat): string
    requires |s| == |c|
  {
    if s == "" then "" else Piece(s[0], c[0], seen) + Numbered(s[1..], c[1..], After(s[0], c[0], seen))
  }

  /** The classes of the numbered text: every character keeps its class, the inserted ones are code. */
  function NumberedClasses(s: string, c: seq<Class>, seen: nat): seq<Class>
    requires |s| == |c|
  {
    if s == "" then []
    else seq(|Piece(s[0], c[0], seen)|, _ => c[0]) + NumberedClasses(s[1..], c[1..], After(s[0], c[0], seen))
  }

  function Bound(s: string, mode: Class, seen: nat): string {
    Numbered(s, Classes(s, mode), seen)
  }

  predicate QuotePair(s: string) {
    |s| > 1 && s[0] == '\'' && s[1] == '\''
  }

  /** The class of the first character. */
  function ClassHere(s: string, mode: Class): Class
    requires s != ""
  {
    if mode == Code then ModeAfter(s, mode) else mode
  }

  lemma BoundStep(s: string, mode: Class, seen: nat)
    requires s != "" && !(mode == InString && QuotePair(s))
    ensures var here, mode' := ClassHere(s, mode), ModeAfter(s, mode);
            && Classes(s, mode) == [here] + Classes(s[1..], mode')
            && Bound(s, mode, seen) == Piece(s[0], here, seen) + Bound(s[1..], mode', After(s[0], here, seen))
  {
    assert Classes(s, mode)[1..] == Classes(s[1..], ModeAfter(s, mode));
  }

  lemma BoundEmpty(mode: Class, seen: nat)
    ensures Bound("", mode, seen) == ""
  {
  }

  /** The mode after one character (a doubled quote inside a string counts as two steps of its own). */
  function ModeAfter(s: string, mode: Class): Class
    requires s != ""
  {
    match mode
    case InComment => if s[0] == '\n' then Code else InComment
    case InString => if s[0] == '\'' then Code else InString
    case Code =>
      if s[0] == '\'' then InString
      else if s[0] == '-' && |s| > 1 && s[1] == '-' then InComment
      else Code
  }

  lemma BoundQuotePair(s: string, seen: nat)
    requires QuotePair(s)
    ensures Classes(s, InString) == [InString, InString] + Classes(s[2..], InString)
    ensures Bound(s, InString, seen) == "''" + Bound(s[2..], InString, seen)
  {
    var c := Classes(s, InString);
    assert c[0] == InString && c[1..][0] == InString && c[1..][1..] == Classes(s[2..], InString);
    assert s[1..][1..] == s[2..] && s[1..][0] == s[1];
    hide Numbered, Classes;
    NumberedPlain(s, c, seen);
    NumberedPlain(s[1..], c[1..], seen);
    assert [s[0]] + [s[1]] == "''";
  }

  /** A character that is no placeholder stays. */
  lemma NumberedPlain(s: string, c: seq<Class>, seen: nat)
    requires |s| == |c| && s != "" && !IsPlaceholder(s[0], c[0])
    ensures Numbered(s, c, seen) == [s[0]] + Numbered(s[1..], c[1..], seen)
  {
  }

  function ModeOf(inString: bool, inLineComment: bool): Class {
    if inLineComment then InComment else if inString then InString else Code
  }

  /** One pass over the text, with flags for strings and line comments. */
  method BindPlaceholders(postgres: bool, sql: string) returns (bound: string)
    ensures !postgres ==> bound == sql
    ensures postgres ==> bound == Bound(sql, Code, 0)
  {
    if !postgres {
      return sql;
    }
    var index := 0;
    bound := "";
    var i := 0;
    var inString, inLineComment := false, false;
    assert sql[0..] == sql;
    hide Bound, Classes, Show;
    while i < |sql|
      invariant 0 <= i <= |sql| && !(inString && inLineComment)
      invariant bound + Bound(sql[i..], ModeOf(inString, inLineComment), index)
                == Bound(sql, Code, 0)
      decreases |sql| - i
    {
      var character := sql[i];
      ghost var mode := ModeOf(inString, inLineComment);
      ghost var before, rest, seen := bound, sql[i..], index;
      var peeked := i + 1 < |sql|;
      i := i + 1;
      if inString && character == '\'' && peeked && sql[i] == '\'' {
        BoundQuotePair(rest, index);
        bound := bound + [character];
        bound := bound + [sql[i]];
        assert bound == before + "''";
        i := i + 1;
        assert rest[2..] == sql[i..];
        Assoc(before, "''", Bound(sql[i..], InString, index));
        continue;
      }
      BoundStep(rest, mode, index);
      assert rest[1..] == sql[i..];
      if inLineComment {
        bound := bound + [character];
        if character == '\n' {
          inLineComment := false;
        }
      } else if inString {
        bound := bound + [character];
        if character == '\'' {
          inString := false;
        }
      } else if character == '\'' {
        inString := true;
        bound := bound + [character];
      } else if character == '-' && peeked && sql[i] == '-' {
        inLineComment := true;
        bound := bound + [character];
      } else if character == '?' {
        index := index + 1;
        bound := bound + ("$" + Show(index));
      } else {
        bound := bound + [character];
      }
      assert bound == before + Piece(character, ClassHere(rest, mode), seen);
      assert ModeOf(inString, inLineComment) == ModeAfter(rest, mode)
             && index == After(character, ClassHere(rest, mode), seen);
      Assoc(before, Piece(character, ClassHere(rest, mode), seen), Bound(sql[i..], ModeAfter(rest, mode), index));
    }
    BoundEmpty(ModeOf(inString, inLineComment), index);
    assert sql[i..] == "";
  }

  // ----- What numbering keeps -----

  predicate Starts(s: string, c: char) { s != "" && s[0] == c }

  lemma FirstCharacterKept(s: string, mode: Class, seen: nat, c: char)
    requires c == '-' || c == '\''
    ensures Starts(Bound(s, mode, seen), c) <==> Starts(s, c)
  {
    if s != "" {
      assert Bound(s, mode, seen)[0] == Piece(s[0], Classes(s, mode)[0], seen)[0];
    }
  }

  predicate Plain(s: string) {
    forall i | 0 <= i < |s| :: s[i] != '\'' && s[i] != '-' && s[i] != '?'
  }

  lemma {:induction false} PlainIsCode(s: string, rest: string)
    requires Plain(s)
    ensures Classes(s + rest, Code) == seq(|s|, _ => Code) + Classes(rest, Code)
  {
    if s == "" {
      assert s + rest == rest;
    } else {
      PlainIsCode(s[1..], rest);
      assert (s + rest)[1..] == s[1..] + rest;
      assert seq(|s|, _ => Code) == [Code] + seq(|s| - 1, _ => Code);
    }
  }

  lemma PlaceholderIsPlain(n: nat)
    ensures Plain("$" + Show(n))
  {
    ShowIsNumeral(n);
    assert forall i | 0 <= i < |Show(n)| :: IsDigit(Show(n)[i]);
  }

  /** A numbered text has, character by character, the classes of the original. */
  lemma {:induction false} ClassesKept(s: string, mode: Class, seen: nat)
    ensures Classes(Bound(s, mode, seen), mode) == NumberedClasses(s, Classes(s, mode), seen)
    decreases |s|
  {
    if s == "" {
    } else if mode == InString && QuotePair(s) {
      ClassesKept(s[2..], mode, seen);
      QuotePairClassesKept(s, seen);
    } else {
      var here, mode', seen' := ClassHere(s, mode), ModeAfter(s, mode), After(s[0], ClassHere(s, mode), seen);
      var rest := Bound(s[1..], mode', seen');
      var text := Bound(s, mode, seen);
      BoundStep(s, mode, seen);
      ClassesKept(s[1..], mode', seen');
      NumberedClassesStep(s, mode, seen);
      hide Bound, NumberedClasses;
      if IsPlaceholder(s[0], here) {
        PlaceholderIsPlain(seen + 1);
        PlainIsCode("$" + Show(seen + 1), rest);
      } else {
        FirstCharacterKept(s[1..], mode', seen', '-');
        FirstCharacterKept(s[1..], mode', seen', '\'');
        assert text == [s[0]] + rest && text[1..] == rest;
        assert seq(1, _ => here) == [here];
        StepAlike(s, text, mode);
      }
    }
  }

  lemma NumberedClassesStep(s: string, mode: Class, seen: nat)
    requires s != "" && !(mode == InString && QuotePair(s))
    ensures var here, mode' := ClassHere(s, mode), ModeAfter(s, mode);
            NumberedClasses(s, Classes(s, mode), seen) ==
            seq(|Piece(s[0], here, seen)|, _ => here)
            + NumberedClasses(s[1..], Classes(s[1..], mode'), After(s[0], here, seen))
  {
    BoundStep(s, mode, seen);
    assert Classes(s, mode)[1..] == Classes(s[1..], ModeAfter(s, mode));
    assert seq(|Piece(s[0], ClassHere(s, mode), seen)|, _ => ClassHere(s, mode))
        == seq(|Piece(s[0], ClassHere(s, mode), seen)|, _ => Classes(s, mode)[0]);
  }

  lemma StepAlike(s: string, text: string, mode: Class)
    requires s != "" && text != "" && s[0] == text[0]
    requires Starts(s[1..], '-') <==> Starts(text[1..], '-')
    requires Starts(s[1..], '\'') <==> Starts(text[1..], '\'')
    requires !(mode == InString && QuotePair(s))
    ensures Classes(text, mode) == [ClassHere(s, mode)] + Classes(text[1..], ModeAfter(s, mode))
  {
    assert |s| > 1 ==> s[1..][0] == s[1];
    assert |text| > 1 ==> text[1..][0] == text[1];
  }

  lemma QuotePairClassesKept(s: string, seen: nat)
    requires QuotePair(s)
    requires Classes(Bound(s[2..], InString, seen), InString) ==
             NumberedClasses(s[2..], Classes(s[2..], InString), seen)
    ensures Classes(Bound(s, InString, seen), InString) == NumberedClasses(s, Classes(s, InString), seen)
  {
    BoundQuotePair(s, seen);
    var rest := Bound(s[2..], InString, seen);
    var text := Bound(s, InString, seen);
    assert text == "''" + rest && text[2..] == rest;
    var c := Classes(s, InString);
    assert c[1..][1..] == Classes(s[2..], InString) && s[1..][1..] == s[2..];
    assert seq(1, _ => c[0]) == [InString] && seq(1, _ => c[1..][0]) == [InString];
  }

  function Placeholders(s: string, c: seq<Class>): nat
    requires |s| == |c|
  {
    if s == "" then 0 else (if IsPlaceholder(s[0], c[0]) then 1 else 0) + Placeholders(s[1..], c[1..])
  }

  /** The placeholder at position `i` gets the number of placeholders up to and including it. */
  lemma {:induction false} PlaceholderNumber(s: string, c: seq<Class>, seen: nat, i: nat)
    requires |s| == |c| && i < |s|
    ensures var n := seen + Placeholders(s[..i], c[..i]);
            Numbered(s, c, seen) == Numbered(s[..i], c[..i], seen)
                                    + (if s[i] == '?' && c[i] == Code then "$" + Show(n + 1) else [s[i]])
                                    + Numbered(s[i + 1..], c[i + 1..], After(s[i], c[i], n))
  {
    if i == 0 {
      assert s[..0] == "" && c[..0] == [];
      FirstPiece(s, c, seen);
    } else {
      var seen' := After(s[0], c[0], seen);
      PlaceholderNumber(s[1..], c[1..], seen', i - 1);
      assert s[1..][..i - 1] == s[..i][1..] && c[1..][..i - 1] == c[..i][1..];
      assert s[1..][i..] == s[i + 1..] && c[1..][i..] == c[i + 1..];
      NumberedStep(s, c, seen);
      NumberedStep(s[..i], c[..i], seen);
      assert Placeholders(s[..i], c[..i]) ==
             (if IsPlaceholder(s[0], c[0]) then 1 else 0) + Placeholders(s[..i][1..], c[..i][1..]);
      var n := seen + Placeholders(s[..i], c[..i]);
      var here := if s[i] == '?' && c[i] == Code then "$" + Show(n + 1) else [s[i]];
      hide Numbered, Placeholders, Show, Piece;
      var first, before, rest := Piece(s[0], c[0], seen), Numbered(s[..i][1..], c[..i][1..], seen'),
        Numbered(s[i + 1..], c[i + 1..], After(s[i], c[i], n));
      Assoc(first, before + here, rest);
      Assoc(first, before, here);
    }
  }

  lemma NumberedStep(s: string, c: seq<Class>, seen: nat)
    requires |s| == |c| && s != ""
    ensures Numbered(s, c, seen) == Piece(s[0], c[0], seen) + Numbered(s[1..], c[1..], After(s[0], c[0], seen))
  {
  }

  lemma FirstPiece(s: string, c: seq<Class>, seen: nat)
    requires |s| == |c| && s != ""
    ensures Numbered(s, c, seen) == "" + (if s[0] == '?' && c[0] == Code then "$" + Show(seen + 1) else [s[0]])
                                    + Numbered(s[1..], c[1..], After(s[0], c[0], seen))
  {
    NumberedStep(s, c, seen);
    hide Numbered, Show;
  }

  ghost predicate NoPlaceholders(s: string, c: seq<Class>)
    requires |s| == |c|
  {
    forall i | 0 <= i < |s| :: !IsPlaceholder(s[i], c[i])
  }

  lemma {:induction false} NumberedIsClean(s: string, c: seq<Class>, seen: nat)
    requires |s| == |c|
    ensures |Numbered(s, c, seen)| == |NumberedClasses(s, c, seen)|
    ensures NoPlaceholders(Numbered(s, c, seen), NumberedClasses(s, c, seen))
  {
    if s != "" {
      NumberedIsClean(s[1..], c[1..], After(s[0], c[0], seen));
      if IsPlaceholder(s[0], c[0]) {
        PlaceholderIsPlain(seen + 1);
      }
    }
  }

  lemma {:induction false} CleanIsUnchanged(s: string, c: seq<Class>, seen: nat)
    requires |s| == |c| && NoPlaceholders(s, c)
    ensures Numbered(s, c, seen) == s
  {
    if s != "" {
      CleanIsUnchanged(s[1..], c[1..], seen);
    }
  }

  /** Binding twice is binding once, for every text. */
  lemma BindIdempotent(s: string)
    ensures Bound(Bound(s, Code, 0), Code, 0) == Bound(s, Code, 0)
  {
    ClassesKept(s, Code, 0);
    NumberedIsClean(s, Classes(s, Code), 0);
    CleanIsUnchanged(Bound(s, Code, 0), Classes(Bound(s, Code, 0), Code), 0);
  }
}
