/** The stack's naming helper `ToHypenCase`: every upper-case letter after
    the first character gets a hyphen in front of it, and the whole string
    is then lowercased ("KnowledgeBase" becomes "knowledge-base"). */
module Naming {
  import opened Text

  const AppName := "dotnet-genai"

  /** What the character at index `i` becomes before lowercasing. */
  function Piece(c: char, i: nat): (r: string)
    ensures |r| == if i > 0 && IsUpper(c) then 2 else 1
    ensures r[|r| - 1] == c
    ensures |r| == 2 ==> r[0] == '-'
  {
    if i > 0 && IsUpper(c) then ['-', c] else [c]
  }

  /** The concatenation of every character's piece, before lowercasing. */
  function Hyphenated(s: string): string {
    if |s| == 0 then "" else Hyphenated(s[..|s| - 1]) + Piece(s[|s| - 1], |s| - 1)
  }

  /** The number of upper-case letters after the first character: the
      hyphens the conversion inserts. */
  function Capitals(s: string): nat {
    if |s| <= 1 then 0 else Capitals(s[..|s| - 1]) + (if IsUpper(s[|s| - 1]) then 1 else 0)
  }

  /** `ToHypenCase`. */
  function ToHyphenCase(s: string): (r: string)
    ensures NoUpper(r)
  {
    Lower(Hyphenated(s))
  }

  lemma {:induction false} HyphenatedLength(s: string)
    ensures |Hyphenated(s)| == |s| + Capitals(s)
  {
    if |s| > 0 {
      HyphenatedLength(s[..|s| - 1]);
    }
  }

  /** Converting a prefix gives a prefix of the conversion. */
  lemma {:induction false} HyphenatedPrefix(s: string, m: nat)
    requires m <= |s|
    ensures |Hyphenated(s[..m])| <= |Hyphenated(s)|
    ensures Hyphenated(s)[..|Hyphenated(s[..m])|] == Hyphenated(s[..m])
    decreases |s|
  {
    if m < |s| {
      var t := s[..|s| - 1];
      assert t[..m] == s[..m];
      HyphenatedPrefix(t, m);
      assert Hyphenated(s) == Hyphenated(t) + Piece(s[|s| - 1], |s| - 1);
    } else {
      assert s[..m] == s;
    }
  }

  /** The last character of a non-empty string ends its conversion, right
      after the hyphen it may be given. */
  lemma HyphenatedLast(u: string)
    requires |u| > 0
    ensures var n := |u| - 1;
            var p := n + Capitals(u);
            |Hyphenated(u)| == p + 1 && Hyphenated(u)[p] == u[n]
            && (n > 0 && IsUpper(u[n]) ==> Hyphenated(u)[p - 1] == '-')
  {
    var n := |u| - 1;
    var piece := Piece(u[n], n);
    HyphenatedLength(u[..n]);
    HyphenatedLength(u);
    assert Hyphenated(u) == Hyphenated(u[..n]) + piece;
    assert Hyphenated(u)[|Hyphenated(u)| - 1] == piece[|piece| - 1];
    if n > 0 && IsUpper(u[n]) {
      assert Hyphenated(u)[|Hyphenated(u)| - 2] == piece[0];
    }
  }

  /** Where the `i`-th character lands: at `i` plus the hyphens inserted up
      to and including it, preceded by a hyphen exactly when it is an
      upper-case letter after the first. */
  lemma HyphenatedAt(s: string, i: nat)
    requires i < |s|
    ensures var p := i + Capitals(s[..i + 1]);
            p < |Hyphenated(s)| && Hyphenated(s)[p] == s[i]
            && (i > 0 && IsUpper(s[i]) ==> Hyphenated(s)[p - 1] == '-')
  {
    var u := s[..i + 1];
    HyphenatedLast(u);
    HyphenatedPrefix(s, i + 1);
    var h := Hyphenated(s);
    var p := i + Capitals(u);
    assert h[..p + 1] == Hyphenated(u);
    assert h[p] == h[..p + 1][p];
    if i > 0 && IsUpper(s[i]) {
      assert h[p - 1] == h[..p + 1][p - 1];
    }
  }

  /** The result is the input's length plus one per inserted hyphen. */
  lemma ToHyphenCaseLength(s: string)
    ensures |ToHyphenCase(s)| == |s| + Capitals(s)
  {
    HyphenatedLength(s);
  }

  /** Each input character appears lowercased at its shifted position, with
      a hyphen in front of every upper-case letter after the first. Together
      with the length, this fixes every character of the result. */
  lemma ToHyphenCaseAt(s: string, i: nat)
    requires i < |s|
    ensures var p := i + Capitals(s[..i + 1]);
            p < |ToHyphenCase(s)| && ToHyphenCase(s)[p] == LowerChar(s[i])
            && (i > 0 && IsUpper(s[i]) ==> ToHyphenCase(s)[p - 1] == '-')
  {
    HyphenatedAt(s, i);
  }

  /** A string with no upper-case letter is its own conversion. */
  lemma {:induction false} ToHyphenCaseFixes(s: string)
    requires NoUpper(s)
    ensures Hyphenated(s) == s
    ensures ToHyphenCase(s) == s
  {
    if |s| > 0 {
      var t := s[..|s| - 1];
      ToHyphenCaseFixes(t);
      assert s == t + [s[|s| - 1]];
    }
    LowerFixesNoUpper(s);
  }

  /** Converting twice is converting once. */
  lemma ToHyphenCaseIdempotent(s: string)
    ensures ToHyphenCase(ToHyphenCase(s)) == ToHyphenCase(s)
  {
    ToHyphenCaseFixes(ToHyphenCase(s));
  }

  /** The application name is already in hyphen case. */
  lemma AppNameIsHyphenCase()
    ensures ToHyphenCase(AppName) == AppName
  {
    ToHyphenCaseFixes(AppName);
  }
}
