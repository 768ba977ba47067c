/** Text as runes: white space, trimming, and XML escaping with its inverse. */
module Text {
  import opened Options

  // ---- White space ---------------------------------------------------------------------------

  predicate IsSpace(c: char) {
    var n := c as int;
    9 <= n <= 13 || n == 32 || n == 0x85 || n == 0xA0 || n == 0x1680 || 0x2000 <= n <= 0x200A
    || n == 0x2028 || n == 0x2029 || n == 0x202F || n == 0x205F || n == 0x3000
  }

  /** The 25 characters with the White_Space property of Unicode. */
  lemma SpacesAreUnicode(c: char)
    ensures IsSpace(c) <==>
              c as int in {0x09, 0x0A, 0x0B, 0x0C, 0x0D, 0x20, 0x85, 0xA0, 0x1680, 0x2000, 0x2001, 0x2002, 0x2003, 0x2004,
                           0x2005, 0x2006, 0x2007, 0x2008, 0x2009, 0x200A, 0x2028, 0x2029, 0x202F, 0x205F, 0x3000}
  {
  }

  predicate Blank(s: string) {
    forall c <- s :: IsSpace(c)
  }

  function TrimLeft(s: string): string {
    if s != [] && IsSpace(s[0]) then TrimLeft(s[1..]) else s
  }

  function TrimRight(s: string): string {
    if s != [] && IsSpace(s[|s| - 1]) then TrimRight(s[..|s| - 1]) else s
  }

  function Trim(s: string): string {
    TrimRight(TrimLeft(s))
  }

  predicate PartAt(text: string, i: nat, part: string) {
    i + |part| <= |text| && text[i..i + |part|] == part
  }

  predicate Contains(text: string, part: string) {
    exists i: nat | i <= |text| :: PartAt(text, i, part)
  }

  lemma PartIsPointwise(text: string, i: nat, part: string)
    requires i + |part| <= |text|
    ensures PartAt(text, i, part) <==> forall k | 0 <= k < |part| :: text[i + k] == part[k]
  {
    if PartAt(text, i, part) {
      forall k | 0 <= k < |part| ensures text[i + k] == part[k] {
        assert text[i..i + |part|][k] == text[i + k];
      }
    }
  }

  lemma {:induction false} TrimLeftIsSuffix(s: string)
    ensures |TrimLeft(s)| <= |s| && TrimLeft(s) == s[|s| - |TrimLeft(s)|..]
    ensures Blank(s[..|s| - |TrimLeft(s)|])
    ensures TrimLeft(s) != "" ==> !IsSpace(TrimLeft(s)[0])
    decreases |s|
  {
    if s != [] && IsSpace(s[0]) {
      TrimLeftIsSuffix(s[1..]);
      var cut := |s| - |TrimLeft(s)|;
      assert s[..cut] == [s[0]] + s[1..][..cut - 1];
    }
  }

  lemma {:induction false} TrimRightIsPrefix(s: string)
    ensures |TrimRight(s)| <= |s| && TrimRight(s) == s[..|TrimRight(s)|]
    ensures Blank(s[|TrimRight(s)|..])
    ensures TrimRight(s) != "" ==> !IsSpace(TrimRight(s)[|TrimRight(s)| - 1])
    decreases |s|
  {
    if s != [] && IsSpace(s[|s| - 1]) {
      var shorter := s[..|s| - 1];
      TrimRightIsPrefix(shorter);
      assert s[|TrimRight(s)|..] == shorter[|TrimRight(s)|..] + [s[|s| - 1]];
    }
  }

  /** A text that neither starts nor ends with white space. */
  predicate Trimmed(s: string) {
    s == "" || (!IsSpace(s[0]) && !IsSpace(s[|s| - 1]))
  }

  /** Where the trimmed text lies in the text: only white space is left out on both sides. */
  lemma TrimSpans(s: string) returns (start: nat)
    ensures start + |Trim(s)| <= |s|
    ensures forall k | 0 <= k < |Trim(s)| :: Trim(s)[k] == s[start + k]
    ensures forall k | 0 <= k < start || start + |Trim(s)| <= k < |s| :: IsSpace(s[k])
  {
    var left := TrimLeft(s);
    TrimLeftIsSuffix(s);
    TrimRightIsPrefix(left);
    start := |s| - |left|;
    forall k | 0 <= k < start ensures IsSpace(s[k]) {
      assert s[k] == s[..start][k];
    }
    forall k | start + |Trim(s)| <= k < |s| ensures IsSpace(s[k]) {
      assert s[k] == left[|Trim(s)|..][k - start - |Trim(s)|];
    }
  }

  lemma TrimIsTrimmedBothEnds(s: string)
    ensures Trimmed(Trim(s))
  {
    TrimLeftIsSuffix(s);
    TrimRightIsPrefix(TrimLeft(s));
    assert Trim(s) != "" ==> Trim(s)[0] == TrimLeft(s)[0];
  }

  /** A trimmed text is a part of the text, and empty exactly for blank texts. */
  lemma TrimIsPart(s: string)
    ensures Contains(s, Trim(s)) && (Trim(s) == "" <==> Blank(s)) && Trimmed(Trim(s))
  {
    var start := TrimSpans(s);
    TrimIsTrimmedBothEnds(s);
    PartIsPointwise(s, start, Trim(s));
    if Trim(s) != "" {
      assert s[start] == Trim(s)[0] && s[start] in s;
    }
  }

  /** Trimming a text loses none of its parts that are themselves trimmed. */
  lemma TrimKeepsTrimmedParts(s: string, part: string)
    requires Contains(s, part) && Trimmed(part) && part != ""
    ensures Contains(Trim(s), part)
  {
    var i: nat :| i <= |s| && PartAt(s, i, part);
    var start := TrimSpans(s);
    InsideTheSpan(s, i, part, start);
    PartIsPointwise(s, i, part);
    PartIsPointwise(Trim(s), i - start, part);
  }

  lemma InsideTheSpan(s: string, i: nat, part: string, start: nat)
    requires PartAt(s, i, part) && Trimmed(part) && part != ""
    requires start + |Trim(s)| <= |s|
    requires forall k | 0 <= k < start || start + |Trim(s)| <= k < |s| :: IsSpace(s[k])
    ensures start <= i && i + |part| <= start + |Trim(s)|
  {
    PartIsPointwise(s, i, part);
    assert s[i + 0] == part[0] && s[i + (|part| - 1)] == part[|part| - 1];
  }

  lemma PartOfPart(text: string, part: string, piece: string)
    requires Contains(text, part) && Contains(part, piece)
    ensures Contains(text, piece)
  {
    var i: nat :| i <= |text| && PartAt(text, i, part);
    var j: nat :| j <= |part| && PartAt(part, j, piece);
    PartIsPointwise(text, i, part);
    PartIsPointwise(part, j, piece);
    forall k | 0 <= k < |piece| ensures text[i + j + k] == piece[k] {
      assert text[i + (j + k)] == part[j + k];
    }
    PartIsPointwise(text, i + j, piece);
  }

  // ---- Escaping ------------------------------------------------------------------------------

  function EscapeChar(c: char): string {
    if c == '&' then "&amp;"
    else if c == '<' then "&lt;"
    else if c == '>' then "&gt;"
    else if c == '"' then "&quot;"
    else if c == '\'' then "&apos;"
    else [c]
  }

  function Escape(s: string): string {
    if s == [] then [] else EscapeChar(s[0]) + Escape(s[1..])
  }

  predicate StartsWith(s: string, prefix: string) {
    prefix <= s
  }

  /** Undo the five entities; any other ampersand stands for itself. */
  function Unescape(s: string): string {
    if s == [] then []
    else if StartsWith(s, "&amp;") then ['&'] + Unescape(s[5..])
    else if StartsWith(s, "&lt;") then ['<'] + Unescape(s[4..])
    else if StartsWith(s, "&gt;") then ['>'] + Unescape(s[4..])
    else if StartsWith(s, "&quot;") then ['"'] + Unescape(s[6..])
    else if StartsWith(s, "&apos;") then ['\''] + Unescape(s[6..])
    else [s[0]] + Unescape(s[1..])
  }

  lemma UnescapeOne(c: char, rest: string)
    ensures Unescape(EscapeChar(c) + rest) == [c] + Unescape(rest)
  {
    var s := EscapeChar(c) + rest;
    assert s[|EscapeChar(c)|..] == rest;
    if c == '&' {
      assert StartsWith(s, "&amp;");
    } else if c == '<' {
      assert StartsWith(s, "&lt;") && s[1] == 'l';
    } else if c == '>' {
      assert StartsWith(s, "&gt;") && s[1] == 'g';
    } else if c == '"' {
      assert StartsWith(s, "&quot;") && s[1] == 'q';
    } else if c == '\'' {
      assert StartsWith(s, "&apos;") && s[1] == 'a' && s[2] == 'p';
    } else {
      assert s[0] == c;
    }
  }

  lemma {:induction false} UnescapeUndoesEscape(s: string)
    ensures Unescape(Escape(s)) == s
    decreases |s|
  {
    if s != [] {
      UnescapeOne(s[0], Escape(s[1..]));
      UnescapeUndoesEscape(s[1..]);
    }
  }

  /** Nothing of the markup is left in an escaped text. */
  lemma {:induction false} EscapedIsPlain(s: string)
    ensures '<' !in Escape(s) && '>' !in Escape(s) && '"' !in Escape(s) && '\'' !in Escape(s)
    decreases |s|
  {
    if s != [] {
      EscapedIsPlain(s[1..]);
      forall c <- EscapeChar(s[0]) ensures c != '<' && c != '>' && c != '"' && c != '\'' {}
      assert Escape(s) == EscapeChar(s[0]) + Escape(s[1..]);
    }
  }

  lemma {:induction false} EscapeInParts(a: string, b: string)
    ensures Escape(a + b) == Escape(a) + Escape(b)
    decreases |a|
  {
    if a == "" {
      assert a + b == b;
    } else {
      assert (a + b)[1..] == a[1..] + b;
      EscapeInParts(a[1..], b);
    }
  }

  lemma EscapeOne(c: char)
    ensures Escape([c]) == EscapeChar(c)
  {
    assert [c][1..] == [];
  }

  /** The five entities of XML; every other character stands for itself. */
  lemma EscapeIsXml(c: char)
    ensures Escape("&") == "&amp;" && Escape("<") == "&lt;" && Escape(">") == "&gt;"
    ensures Escape("\"") == "&quot;" && Escape("'") == "&apos;"
    ensures c !in {'&', '<', '>', '"', '\''} ==> Escape([c]) == [c]
  {
    EscapeOne('&');
    EscapeOne('<');
    EscapeOne('>');
    EscapeOne('"');
    EscapeOne('\'');
    EscapeOne(c);
  }

  // ---- Joining -------------------------------------------------------------------------------

  lemma Regroup(a: string, b: string, c: string)
    ensures (a + b) + c == a + (b + c)
  {
  }

  // ---- Scanning ------------------------------------------------------------------------------

  /** The text before the first stop, which is not consumed. */
  function Until(s: string, stop: char): (head: string)
    ensures |head| <= |s|
  {
    if s == [] || s[0] == stop then [] else [s[0]] + Until(s[1..], stop)
  }

  lemma {:induction false} UntilStops(head: string, rest: string, stop: char)
    requires stop !in head && rest != [] && rest[0] == stop
    ensures Until(head + rest, stop) == head
    decreases |head|
  {
    if head == [] {
      assert head + rest == rest;
    } else {
      assert (head + rest)[1..] == head[1..] + rest;
      UntilStops(head[1..], rest, stop);
    }
  }

  /** The rest after an expected literal. */
  function Expect(s: string, literal: string): Option<string> {
    if StartsWith(s, literal) then Some(s[|literal|..]) else None
  }

  lemma ExpectFinds(literal: string, rest: string)
    ensures Expect(literal + rest, literal) == Some(rest)
  {
    assert (literal + rest)[|literal|..] == rest;
  }
}
