// The parts of Go's strings and html packages that the core relies on.
module GoStrings {

  /** strings.HasPrefix */
  predicate HasPrefix(s: string, prefix: string)
  {
    |prefix| <= |s| && s[..|prefix|] == prefix
  }

  /** Number of occurrences of `c` in `s`. */
  function Count(s: string, c: char): nat
  {
    if |s| == 0 then 0 else (if s[0] == c then 1 else 0) + Count(s[1..], c)
  }

  /** Index of the first occurrence of `c` in `s`. */
  function IndexOf(s: string, c: char): (i: nat)
    requires c in s
    ensures i < |s| && s[i] == c && c !in s[..i]
  {
    if s[0] == c then 0 else 1 + IndexOf(s[1..], c)
  }

  lemma {:induction false} CountAppend(a: string, b: string, c: char)
    ensures Count(a + b, c) == Count(a, c) + Count(b, c)
  {
    if |a| > 0 {
      assert (a + b)[1..] == a[1..] + b;
      CountAppend(a[1..], b, c);
    } else {
      assert a + b == b;
    }
  }

  lemma {:induction false} CountAbsent(s: string, c: char)
    ensures c !in s <==> Count(s, c) == 0
  {
    if |s| > 0 {
      CountAbsent(s[1..], c);
      assert c in s <==> s[0] == c || c in s[1..];
    }
  }

  /** strings.Split with a one-character separator: "" gives [""]. */
  function Split(s: string, sep: char): (parts: seq<string>)
    ensures |parts| == Count(s, sep) + 1
    ensures forall k :: 0 <= k < |parts| ==> sep !in parts[k]
  {
    if |s| == 0 then [""]
    else
      var rest := Split(s[1..], sep);
      if s[0] == sep then [""] + rest
      else [[s[0]] + rest[0]] + rest[1..]
  }

  /** strings.Join with a one-character separator. */
  function Join(parts: seq<string>, sep: char): string
    requires |parts| > 0
  {
    if |parts| == 1 then parts[0] else parts[0] + [sep] + Join(parts[1..], sep)
  }

  /** Joining the parts of a split gives the string back. */
  lemma {:induction false} JoinSplit(s: string, sep: char)
    ensures Join(Split(s, sep), sep) == s
  {
    if |s| > 0 {
      var rest := Split(s[1..], sep);
      JoinSplit(s[1..], sep);
      if s[0] == sep {
        assert ([""] + rest)[1..] == rest;
      } else {
        var parts := [[s[0]] + rest[0]] + rest[1..];
        if |rest| > 1 {
          assert parts[1..] == rest[1..];
          assert Join(rest, sep) == rest[0] + [sep] + Join(rest[1..], sep);
        }
      }
    }
  }

  /** With exactly one separator, the second part is everything after it. */
  lemma {:induction false} SplitAtOnlySeparator(s: string, sep: char)
    requires Count(s, sep) == 1
    ensures sep in s
    ensures Split(s, sep) == [s[..IndexOf(s, sep)], s[IndexOf(s, sep) + 1..]]
  {
    CountAbsent(s, sep);
    if s[0] == sep {
      CountAbsent(s[1..], sep);
      SplitWithoutSeparator(s[1..], sep);
    } else {
      SplitAtOnlySeparator(s[1..], sep);
      var i := IndexOf(s[1..], sep);
      assert [s[0]] + s[1..][..i] == s[..i + 1];
    }
  }

  lemma {:induction false} SplitWithoutSeparator(s: string, sep: char)
    requires sep !in s
    ensures Split(s, sep) == [s]
  {
    if |s| > 0 {
      SplitWithoutSeparator(s[1..], sep);
      assert [s[0]] + s[1..] == s;
    }
  }

  /** unicode.IsSpace, the predicate strings.TrimSpace trims by. */
  predicate IsSpace(c: char)
  {
    c == '\t' || c == '\n' || c == '\U{000B}' || c == '\U{000C}' || c == '\r' || c == ' '
    || c == '\U{0085}' || c == '\U{00A0}' || c == '\U{1680}'
    || ('\U{2000}' <= c <= '\U{200A}')
    || c == '\U{2028}' || c == '\U{2029}' || c == '\U{202F}' || c == '\U{205F}' || c == '\U{3000}'
  }

  function TrimLeft(s: string): (r: string)
    ensures |r| <= |s| && r == s[|s| - |r|..]
    ensures forall k :: 0 <= k < |s| - |r| ==> IsSpace(s[k])
    ensures r == [] || !IsSpace(r[0])
  {
    if |s| > 0 && IsSpace(s[0]) then TrimLeft(s[1..]) else s
  }

  function TrimRight(s: string): (r: string)
    ensures |r| <= |s| && r == s[..|r|]
    ensures forall k :: |r| <= k < |s| ==> IsSpace(s[k])
    ensures r == [] || !IsSpace(r[|r| - 1])
  {
    if |s| > 0 && IsSpace(s[|s| - 1]) then TrimRight(s[..|s| - 1]) else s
  }

  /** r sits in s at offset a, with only white space around it. */
  predicate TrimmedAt(s: string, r: string, a: nat)
  {
    && a + |r| <= |s| && r == s[a..a + |r|]
    && (forall k :: 0 <= k < a ==> IsSpace(s[k]))
    && (forall k :: a + |r| <= k < |s| ==> IsSpace(s[k]))
  }

  /** strings.TrimSpace: the longest middle part that neither starts nor ends with a space. */
  function TrimSpace(s: string): (r: string)
    ensures r == [] || (!IsSpace(r[0]) && !IsSpace(r[|r| - 1]))
    ensures exists a: nat :: TrimmedAt(s, r, a)
  {
    var l := TrimLeft(s);
    var r := TrimRight(l);
    var a: nat := |s| - |l|;
    TrimSpaceCuts(s, l, r);
    assert TrimmedAt(s, r, a);
    r
  }

  /** Cutting white space from the front, then from the back, leaves r at offset |s| - |l|. */
  lemma TrimSpaceCuts(s: string, l: string, r: string)
    requires |l| <= |s| && l == s[|s| - |l|..] && forall k :: 0 <= k < |s| - |l| ==> IsSpace(s[k])
    requires |r| <= |l| && r == l[..|r|] && forall k :: |r| <= k < |l| ==> IsSpace(l[k])
    ensures TrimmedAt(s, r, |s| - |l|)
  {
    var a := |s| - |l|;
    assert r == s[a..a + |r|];
    forall k | a + |r| <= k < |s|
      ensures IsSpace(s[k])
    {
      assert s[k] == l[k - a];
    }
  }

  lemma TrimSpaceIdempotent(s: string)
    ensures TrimSpace(TrimSpace(s)) == TrimSpace(s)
  {
  }

  /** The characters html.EscapeString rewrites. */
  predicate IsHtmlSpecial(c: char)
  {
    c == '<' || c == '>' || c == '&' || c == '\'' || c == '"'
  }

  function EscapeChar(c: char): string
  {
    if c == '<' then "&lt;"
    else if c == '>' then "&gt;"
    else if c == '&' then "&amp;"
    else if c == '\'' then "&#39;"
    else if c == '"' then "&#34;"
    else [c]
  }

  /** html.EscapeString */
  function EscapeString(s: string): (r: string)
    ensures |s| <= |r|
    ensures forall k :: 0 <= k < |r| ==> r[k] == '&' || !IsHtmlSpecial(r[k])
  {
    if |s| == 0 then [] else EscapeChar(s[0]) + EscapeString(s[1..])
  }

  /** Decoding of the five entities EscapeString produces (the subset of html.UnescapeString it needs). */
  function UnescapeString(t: string): string
  {
    if |t| == 0 then []
    else if HasPrefix(t, "&lt;") then "<" + UnescapeString(t[4..])
    else if HasPrefix(t, "&gt;") then ">" + UnescapeString(t[4..])
    else if HasPrefix(t, "&amp;") then "&" + UnescapeString(t[5..])
    else if HasPrefix(t, "&#39;") then "'" + UnescapeString(t[5..])
    else if HasPrefix(t, "&#34;") then "\"" + UnescapeString(t[5..])
    else [t[0]] + UnescapeString(t[1..])
  }

  lemma UnescapeEscapeChar(c: char, rest: string)
    ensures UnescapeString(EscapeChar(c) + rest) == [c] + UnescapeString(rest)
  {
    var t := EscapeChar(c) + rest;
    if !IsHtmlSpecial(c) {
      assert t[0] == c && t[1..] == rest;
      assert !HasPrefix(t, "&lt;") && !HasPrefix(t, "&gt;") && !HasPrefix(t, "&amp;");
      assert !HasPrefix(t, "&#39;") && !HasPrefix(t, "&#34;");
    } else if c == '&' {
      assert t[..5] == "&amp;" && t[5..] == rest && t[1] == 'a';
      assert !HasPrefix(t, "&lt;") && !HasPrefix(t, "&gt;");
    } else if c == '<' {
      assert t[..4] == "&lt;" && t[4..] == rest;
    } else if c == '>' {
      assert t[..4] == "&gt;" && t[4..] == rest;
      assert !HasPrefix(t, "&lt;");
    } else if c == '\'' {
      assert t[..5] == "&#39;" && t[5..] == rest && t[1] == '#';
      assert !HasPrefix(t, "&lt;") && !HasPrefix(t, "&gt;") && !HasPrefix(t, "&amp;");
    } else {
      assert t[..5] == "&#34;" && t[5..] == rest && t[1] == '#' && t[3] == '4';
      assert !HasPrefix(t, "&lt;") && !HasPrefix(t, "&gt;") && !HasPrefix(t, "&amp;");
      assert !HasPrefix(t, "&#39;");
    }
  }

  /** Escaping loses nothing: the entities decode back to the original text. */
  lemma {:induction false} UnescapeEscape(s: string)
    ensures UnescapeString(EscapeString(s)) == s
  {
    if |s| > 0 {
      UnescapeEscapeChar(s[0], EscapeString(s[1..]));
      UnescapeEscape(s[1..]);
    }
  }

  /** Text without the five special characters is left as it is. */
  lemma {:induction false} EscapePlain(s: string)
    requires forall k :: 0 <= k < |s| ==> !IsHtmlSpecial(s[k])
    ensures EscapeString(s) == s
  {
    if |s| > 0 {
      EscapePlain(s[1..]);
      assert [s[0]] + s[1..] == s;
    }
  }
}
