/** The string operations of the standard library that the parsers use. */
module Text {
  import opened Store

  /** The Unicode White_Space property. */
  predicate IsSpace(c: char) {
    || '\U{0009}' <= c <= '\U{000D}' || c == ' ' || c == '\U{0085}' || c == '\U{00A0}' || c == '\U{1680}'
    || '\U{2000}' <= c <= '\U{200A}' || c == '\U{2028}' || c == '\U{2029}' || c == '\U{202F}' || c == '\U{205F}'
    || c == '\U{3000}'
  }

  /** The 25 characters with that property. */
  lemma SpacesExactly(c: char)
    ensures IsSpace(c) <==>
            c in {'\U{0009}', '\U{000A}', '\U{000B}', '\U{000C}', '\U{000D}', '\U{0020}', '\U{0085}', '\U{00A0}',
                  '\U{1680}', '\U{2000}', '\U{2001}', '\U{2002}', '\U{2003}', '\U{2004}', '\U{2005}', '\U{2006}',
                  '\U{2007}', '\U{2008}', '\U{2009}', '\U{200A}', '\U{2028}', '\U{2029}', '\U{202F}', '\U{205F}',
                  '\U{3000}'}
  {
  }

  function DropFirst(s: string, out: char -> bool): string {
    if s != "" && out(s[0]) then DropFirst(s[1..], out) else s
  }

  function DropLast(s: string, out: char -> bool): string {
    if s != "" && out(s[|s| - 1]) then DropLast(s[..|s| - 1], out) else s
  }

  function TrimWhere(s: string, out: char -> bool): string { DropLast(DropFirst(s, out), out) }

  function Trim(s: string): string { TrimWhere(s, IsSpace) }

  predicate IsQuote(c: char) { c == '"' }

  function Split(s: string, separator: char): (fields: seq<string>)
    ensures fields != []
  {
    if s == "" then [""]
    else
      var rest := Split(s[1..], separator);
      if s[0] == separator then [""] + rest else [[s[0]] + rest[0]] + rest[1..]
  }

  function SplitOnce(s: string, separator: char): Option<(string, string)> {
    if s == "" then None
    else if s[0] == separator then Some(("", s[1..]))
    else
      match SplitOnce(s[1..], separator)
      case None => None
      case Some((before, after)) => Some(([s[0]] + before, after))
  }

  lemma {:induction false} DropFirstEnds(s: string, out: char -> bool)
    ensures DropFirst(s, out) != "" ==> !out(DropFirst(s, out)[0])
  {
    if s != "" && out(s[0]) { DropFirstEnds(s[1..], out); }
  }

  lemma {:induction false} DropLastEnds(s: string, out: char -> bool)
    ensures DropLast(s, out) != "" ==> !out(DropLast(s, out)[|DropLast(s, out)| - 1])
    ensures DropLast(s, out) != "" ==> s != "" && DropLast(s, out)[0] == s[0]
  {
    if s != "" && out(s[|s| - 1]) { DropLastEnds(s[..|s| - 1], out); }
  }

  lemma TrimNothing(s: string, out: char -> bool)
    requires s != "" && !out(s[0]) && !out(s[|s| - 1])
    ensures TrimWhere(s, out) == s
  {
  }

  lemma {:induction false} SplitAtFirst(a: string, separator: char, b: string)
    requires separator !in a
    ensures Split(a + [separator] + b, separator) == [a] + Split(b, separator)
    ensures SplitOnce(a + [separator] + b, separator) == Some((a, b))
  {
    var s := a + [separator] + b;
    if a == "" {
      assert s[1..] == b;
    } else {
      SplitAtFirst(a[1..], separator, b);
      assert s[1..] == a[1..] + [separator] + b;
      assert [a[0]] + a[1..] == a;
    }
  }

  lemma {:induction false} SplitWithout(s: string, separator: char)
    requires separator !in s
    ensures Split(s, separator) == [s]
  {
    if s != "" {
      SplitWithout(s[1..], separator);
      assert [s[0]] + s[1..] == s;
    }
  }

  function Join(fields: seq<string>, separator: char): string {
    if fields == [] then ""
    else if |fields| == 1 then fields[0]
    else fields[0] + [separator] + Join(fields[1..], separator)
  }

  /** Splitting a joined list of fields, none of which holds the separator, gives the list back. */
  lemma {:induction false} SplitJoin(fields: seq<string>, separator: char)
    requires fields != [] && forall i | 0 <= i < |fields| :: separator !in fields[i]
    ensures Split(Join(fields, separator), separator) == fields
  {
    if |fields| == 1 {
      SplitWithout(fields[0], separator);
    } else {
      SplitJoin(fields[1..], separator);
      SplitAtFirst(fields[0], separator, Join(fields[1..], separator));
    }
  }

  /** Joining the fields of a split text gives the text back. */
  lemma {:induction false} JoinSplit(s: string, separator: char)
    ensures Join(Split(s, separator), separator) == s
  {
    if s != "" {
      JoinSplit(s[1..], separator);
      var rest := Split(s[1..], separator);
      var fields := Split(s, separator);
      if s[0] == separator {
        assert fields[1..] == rest;
        assert s == [] + [separator] + s[1..];
      } else {
        assert fields[1..] == rest[1..];
        assert s == [s[0]] + s[1..];
      }
    }
  }
}
