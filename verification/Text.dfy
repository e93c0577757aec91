/** Pieces of text: trimming whitespace and splitting at separators. */
module Text {
  import opened Common

  /** Unicode White_Space. */
  predicate IsWhitespace(ch: char) {
    var c := ch as int;
    0x9 <= c <= 0xD || c == 0x20 || c == 0x85 || c == 0xA0 || c == 0x1680 || 0x2000 <= c <= 0x200A
    || c == 0x2028 || c == 0x2029 || c == 0x202F || c == 0x205F || c == 0x3000
  }

  /** The twenty-five characters, one by one. */
  lemma WhitespaceExact(ch: char)
    ensures IsWhitespace(ch) <==>
              ch as int in [0x09, 0x0A, 0x0B, 0x0C, 0x0D, 0x20, 0x85, 0xA0, 0x1680, 0x2000, 0x2001, 0x2002, 0x2003, 0x2004, 0x2005,
                            0x2006, 0x2007, 0x2008, 0x2009, 0x200A, 0x2028, 0x2029, 0x202F, 0x205F, 0x3000]
  {
  }

  function TrimStart(s: string): (t: string)
    ensures t != "" ==> !IsWhitespace(t[0])
    ensures |t| <= |s| && t == s[|s| - |t|..]
  {
    if s != "" && IsWhitespace(s[0]) then TrimStart(s[1..]) else s
  }

  function TrimEnd(s: string): (t: string)
    ensures t != "" ==> !IsWhitespace(t[|t| - 1])
    ensures t <= s
  {
    if s != "" && IsWhitespace(s[|s| - 1]) then TrimEnd(s[..|s| - 1]) else s
  }

  function Trim(s: string): string {
    TrimEnd(TrimStart(s))
  }

  /** The text before and after the first separator. */
  function SplitOnce(s: string, separator: char): (r: Option<(string, string)>)
    ensures r.None? <==> separator !in s
    ensures r.Some? ==> s == r.value.0 + [separator] + r.value.1 && separator !in r.value.0
  {
    if s == "" then None
    else if s[0] == separator then Some(("", s[1..]))
    else
      match SplitOnce(s[1..], separator)
      case None => None
      case Some(parts) => Some(([s[0]] + parts.0, parts.1))
  }

  /** The text before and after the last separator. */
  function SplitLast(s: string, separator: char): (r: Option<(string, string)>)
    ensures r.None? <==> separator !in s
    ensures r.Some? ==> s == r.value.0 + [separator] + r.value.1 && separator !in r.value.1
  {
    if s == "" then None
    else if s[|s| - 1] == separator then Some((s[..|s| - 1], ""))
    else
      match SplitLast(s[..|s| - 1], separator)
      case None => None
      case Some(parts) => Some((parts.0, parts.1 + [s[|s| - 1]]))
  }

  lemma {:induction false} FirstSeparator(before: string, after: string, separator: char)
    requires separator !in before
    ensures SplitOnce(before + [separator] + after, separator) == Some((before, after))
  {
    var s := before + [separator] + after;
    if before == "" {
      assert s[1..] == after;
    } else {
      assert s[1..] == before[1..] + [separator] + after;
      FirstSeparator(before[1..], after, separator);
      assert before == [before[0]] + before[1..];
    }
  }

  /** The text after the last separator. */
  lemma {:induction false} LastSeparator(before: string, after: string, separator: char)
    requires separator !in after
    ensures SplitLast(before + [separator] + after, separator) == Some((before, after))
  {
    var s := before + [separator] + after;
    if after == "" {
      assert s[..|s| - 1] == before;
    } else {
      var n := |after| - 1;
      assert s[..|s| - 1] == before + [separator] + after[..n];
      LastSeparator(before, after[..n], separator);
      assert after == after[..n] + [after[n]];
    }
  }

  predicate AllSpace(s: string) {
    forall ch :: ch in s ==> IsWhitespace(ch)
  }

  /** No whitespace at either end. */
  predicate Bare(s: string) {
    s != "" ==> !IsWhitespace(s[0]) && !IsWhitespace(s[|s| - 1])
  }

  lemma {:induction false} TrimStartSpaces(space: string, s: string)
    requires AllSpace(space) && (s != "" ==> !IsWhitespace(s[0]))
    ensures TrimStart(space + s) == s
  {
    if space == "" {
      assert space + s == s;
    } else {
      assert space[0] in space && (space + s)[1..] == space[1..] + s;
      TrimStartSpaces(space[1..], s);
    }
  }

  lemma {:induction false} TrimEndSpaces(s: string, space: string)
    requires AllSpace(space) && (s != "" ==> !IsWhitespace(s[|s| - 1]))
    ensures TrimEnd(s + space) == s
  {
    if space == "" {
      assert s + space == s;
    } else {
      var n := |space| - 1;
      assert space[n] in space && (s + space)[..|s + space| - 1] == s + space[..n];
      TrimEndSpaces(s, space[..n]);
    }
  }

  /** Trimming takes off the whitespace at both ends and nothing else. */
  lemma TrimExact(left: string, s: string, right: string)
    requires AllSpace(left) && Bare(s) && AllSpace(right)
    ensures Trim(left + s + right) == s
  {
    if s == "" {
      assert left + s + right == (left + right) + "";
      TrimStartSpaces(left + right, "");
    } else {
      assert left + s + right == left + (s + right);
      TrimStartSpaces(left, s + right);
      TrimEndSpaces(s, right);
    }
  }
}
