/** The string operations of .NET that the modelled code relies on, restricted
    to ASCII: case mapping, whitespace trimming, splitting on a character,
    joining, suffix and substring tests. */
module Text {
  import opened Wrappers

  /** `char.IsUpper`, ASCII letters only. */
  predicate IsUpper(c: char) {
    'A' <= c <= 'Z'
  }

  /** `char.ToLower`, ASCII letters only. */
  function LowerChar(c: char): (r: char)
    ensures !IsUpper(r)
    ensures IsUpper(c) ==> r as int == c as int + 32
    ensures !IsUpper(c) ==> r == c
  {
    if IsUpper(c) then (c as int + 32) as char else c
  }

  /** `string.ToLower()`. */
  function Lower(s: string): (r: string)
    ensures |r| == |s|
    ensures forall i :: 0 <= i < |s| ==> r[i] == LowerChar(s[i])
  {
    seq(|s|, i requires 0 <= i < |s| => LowerChar(s[i]))
  }

  predicate NoUpper(s: string) {
    forall i :: 0 <= i < |s| ==> !IsUpper(s[i])
  }

  /** Lowering is the identity exactly on strings without capitals. */
  lemma LowerFixesNoUpper(s: string)
    ensures NoUpper(s) <==> Lower(s) == s
  {
    if Lower(s) == s {
      forall i | 0 <= i < |s| ensures !IsUpper(s[i]) {
        assert Lower(s)[i] == LowerChar(s[i]);
      }
    }
  }

  lemma LowerAppend(a: string, b: string)
    ensures Lower(a + b) == Lower(a) + Lower(b)
  {
    assert forall i :: 0 <= i < |a + b| ==> Lower(a + b)[i] == (Lower(a) + Lower(b))[i];
  }

  /** `string.Equals(a, b, StringComparison.OrdinalIgnoreCase)`. */
  predicate EqualsIgnoreCase(a: string, b: string) {
    Lower(a) == Lower(b)
  }

  /** `s.EndsWith(suffix)` with ordinal comparison. */
  predicate EndsWith(s: string, suffix: string) {
    |suffix| <= |s| && s[|s| - |suffix|..] == suffix
  }

  /** `s.EndsWith(suffix, StringComparison.OrdinalIgnoreCase)`. */
  predicate EndsWithIgnoreCase(s: string, suffix: string) {
    EndsWith(Lower(s), Lower(suffix))
  }

  /** `s.Contains(sub)` with ordinal comparison. */
  predicate Contains(s: string, sub: string) {
    exists i :: 0 <= i <= |s| - |sub| && OccursAt(s, sub, i)
  }

  predicate OccursAt(s: string, sub: string, i: nat) {
    i + |sub| <= |s| && s[i..i + |sub|] == sub
  }

  /** `char.IsWhiteSpace`, ASCII whitespace only. */
  predicate IsWhiteSpace(c: char) {
    c == ' ' || c == '\t' || c == '\n' || c == '\r' || c == '\U{000B}' || c == '\U{000C}'
  }

  /** Index of the first character at or after `i` that `drop` keeps. */
  function StartIndex(s: string, drop: char -> bool, i: nat): (r: nat)
    requires i <= |s|
    ensures i <= r <= |s|
    ensures forall k :: i <= k < r ==> drop(s[k])
    ensures r < |s| ==> !drop(s[r])
    decreases |s| - i
  {
    if i < |s| && drop(s[i]) then StartIndex(s, drop, i + 1) else i
  }

  /** One past the last character before `j` that `drop` keeps. */
  function EndIndex(s: string, drop: char -> bool, j: nat): (r: nat)
    requires j <= |s|
    ensures r <= j
    ensures forall k :: r <= k < j ==> drop(s[k])
    ensures r > 0 ==> !drop(s[r - 1])
  {
    if j > 0 && drop(s[j - 1]) then EndIndex(s, drop, j - 1) else j
  }

  /** `s.Trim(chars)`: both ends, every character satisfying `drop`. */
  function TrimBy(s: string, drop: char -> bool): string {
    var i := StartIndex(s, drop, 0);
    var j := EndIndex(s, drop, |s|);
    if j <= i then "" else s[i..j]
  }

  /** `s.Trim()`. */
  function Trim(s: string): string {
    TrimBy(s, IsWhiteSpace)
  }

  /** A trimmed string is a slice of the original whose ends are kept
      characters, and everything cut off around it is a dropped character. */
  lemma TrimBySlice(s: string, drop: char -> bool)
    ensures var r := TrimBy(s, drop);
      exists i, j :: 0 <= i <= j <= |s| && r == s[i..j]
        && (forall k :: 0 <= k < i ==> drop(s[k]))
        && (forall k :: j <= k < |s| ==> drop(s[k]))
        && (|r| > 0 ==> !drop(r[0]) && !drop(r[|r| - 1]))
  {
    var i := StartIndex(s, drop, 0);
    var j := EndIndex(s, drop, |s|);
    if j <= i {
      assert i == |s|;
      assert TrimBy(s, drop) == s[i..i];
    }
  }

  /** A string is whitespace-only exactly when trimming empties it. */
  lemma TrimEmptyIffBlank(s: string)
    ensures Trim(s) == "" <==> forall i :: 0 <= i < |s| ==> IsWhiteSpace(s[i])
  {
    var i := StartIndex(s, IsWhiteSpace, 0);
    var j := EndIndex(s, IsWhiteSpace, |s|);
    if i < j {
      assert !IsWhiteSpace(s[i]);
      assert |s[i..j]| > 0;
    }
  }

  /** `string.IsNullOrEmpty`. */
  predicate IsNullOrEmpty(s: Option<string>) {
    s.None? || s.value == ""
  }

  /** `string.IsNullOrWhiteSpace`. */
  predicate IsNullOrWhiteSpace(s: Option<string>) {
    s.None? || forall i :: 0 <= i < |s.value| ==> IsWhiteSpace(s.value[i])
  }

  /** Number of occurrences of `c` in `s`. */
  function Count(s: string, c: char): nat {
    if |s| == 0 then 0 else (if s[0] == c then 1 else 0) + Count(s[1..], c)
  }

  /** `s.Split(sep)`: the pieces between separators, empty ones included. */
  function Split(s: string, sep: char): (r: seq<string>)
    ensures |r| >= 1
  {
    if |s| == 0 then [""]
    else
      var rest := Split(s[1..], sep);
      if s[0] == sep then [""] + rest else [[s[0]] + rest[0]] + rest[1..]
  }

  /** `string.Join(sep, parts)`. */
  function Join(parts: seq<string>, sep: string): string {
    if |parts| == 0 then ""
    else if |parts| == 1 then parts[0]
    else parts[0] + sep + Join(parts[1..], sep)
  }

  /** Splitting yields one more piece than there are separators, no piece
      contains the separator, and joining the pieces restores the string. */
  lemma {:induction false} SplitJoin(s: string, sep: char)
    ensures |Split(s, sep)| == Count(s, sep) + 1
    ensures forall k :: 0 <= k < |Split(s, sep)| ==> sep !in Split(s, sep)[k]
    ensures Join(Split(s, sep), [sep]) == s
  {
    if |s| > 0 {
      SplitJoin(s[1..], sep);
      var rest := Split(s[1..], sep);
      if s[0] == sep {
        assert Split(s, sep) == [""] + rest;
        assert Join([""] + rest, [sep]) == "" + [sep] + Join(rest, [sep]);
        assert s == [s[0]] + s[1..];
      } else {
        var r := Split(s, sep);
        assert r == [[s[0]] + rest[0]] + rest[1..];
        if |rest| == 1 {
          assert Join(r, [sep]) == [s[0]] + rest[0];
        } else {
          assert Join(r, [sep]) == [s[0]] + rest[0] + [sep] + Join(rest[1..], [sep]);
          assert Join(rest, [sep]) == rest[0] + [sep] + Join(rest[1..], [sep]);
        }
        assert s == [s[0]] + s[1..];
        forall k | 0 <= k < |r| ensures sep !in r[k] {
          if k > 0 { assert r[k] == rest[k]; }
        }
      }
    }
  }

  /** The non-empty pieces of `parts`, in order. */
  function NonEmpty(parts: seq<string>): (r: seq<string>)
    ensures forall k :: 0 <= k < |r| ==> r[k] != ""
    ensures forall k :: 0 <= k < |r| ==> r[k] in parts
    ensures forall p :: p in parts && p != "" ==> p in r
  {
    if |parts| == 0 then []
    else (if parts[0] == "" then [] else [parts[0]]) + NonEmpty(parts[1..])
  }

  /** `s.Split(sep, StringSplitOptions.RemoveEmptyEntries)`. */
  function SplitRemoveEmpty(s: string, sep: char): seq<string> {
    NonEmpty(Split(s, sep))
  }
}
