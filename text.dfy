/**
 * The JavaScript string operations the views rely on, over `seq<char>`:
 * `toLowerCase`/`toUpperCase` (ASCII letters), `indexOf`/`includes`, `split`/`join` on one
 * separator character, `trim`, and `replace` with a string pattern (first occurrence only).
 */
module Text {
  import opened Wrappers

  function LowerChar(c: char): char {
    if 'A' <= c <= 'Z' then (c as int + 32) as char else c
  }

  function UpperChar(c: char): char {
    if 'a' <= c <= 'z' then (c as int - 32) as char else c
  }

  function ToLower(s: string): (r: string)
    ensures |r| == |s|
    ensures forall i :: 0 <= i < |s| ==> r[i] == LowerChar(s[i])
  {
    if s == [] then [] else [LowerChar(s[0])] + ToLower(s[1..])
  }

  function ToUpper(s: string): (r: string)
    ensures |r| == |s|
    ensures forall i :: 0 <= i < |s| ==> r[i] == UpperChar(s[i])
  {
    if s == [] then [] else [UpperChar(s[0])] + ToUpper(s[1..])
  }

  /** Lower-casing twice is lower-casing once, and leaves no upper-case ASCII letter. */
  lemma ToLowerIdempotent(s: string)
    ensures ToLower(ToLower(s)) == ToLower(s)
    ensures forall i :: 0 <= i < |s| ==> !('A' <= ToLower(s)[i] <= 'Z')
  {
    var t := ToLower(s);
    forall i | 0 <= i < |s|
      ensures !('A' <= t[i] <= 'Z') && LowerChar(t[i]) == t[i]
    {
      assert t[i] == LowerChar(s[i]);
    }
  }

  /** `s` has `pat` at offset `i`. */
  predicate MatchesAt(s: string, pat: string, i: nat) {
    i + |pat| <= |s| && s[i..i + |pat|] == pat
  }

  /** `s.indexOf(pat, from)`: the first offset at or after `from` where `pat` occurs. */
  function IndexFrom(s: string, pat: string, from: nat): (r: Option<nat>)
    requires from <= |s|
    decreases |s| - from
    ensures r.Some? ==> from <= r.value && MatchesAt(s, pat, r.value)
    ensures r.Some? ==> forall j :: from <= j < r.value ==> !MatchesAt(s, pat, j)
    ensures r.None? ==> forall j :: from <= j <= |s| ==> !MatchesAt(s, pat, j)
  {
    if MatchesAt(s, pat, from) then Some(from)
    else if from == |s| then None
    else IndexFrom(s, pat, from + 1)
  }

  /** `s.indexOf(pat)`, with `None` for JavaScript's -1. */
  function IndexOf(s: string, pat: string): Option<nat> {
    IndexFrom(s, pat, 0)
  }

  /** `s.includes(pat)`. */
  predicate Contains(s: string, pat: string) {
    IndexOf(s, pat).Some?
  }

  lemma ContainsIff(s: string, pat: string)
    ensures Contains(s, pat) <==> exists i: nat :: MatchesAt(s, pat, i)
  {
    if !Contains(s, pat) {
      forall i: nat ensures !MatchesAt(s, pat, i) {
        if i <= |s| { assert !MatchesAt(s, pat, i); }
      }
    }
  }

  /** `s.replace(pat, rep)` with a string pattern: only the first occurrence is replaced. */
  function ReplaceFirst(s: string, pat: string, rep: string): (r: string)
  {
    match IndexOf(s, pat)
    case None => s
    case Some(i) => s[..i] + rep + s[i + |pat|..]
  }

  lemma {:induction false} ReplaceFirstSpec(s: string, pat: string, rep: string)
    ensures !Contains(s, pat) ==> ReplaceFirst(s, pat, rep) == s
    ensures Contains(s, pat) ==>
      exists i: nat :: MatchesAt(s, pat, i)
        && (forall j :: 0 <= j < i ==> !MatchesAt(s, pat, j))
        && ReplaceFirst(s, pat, rep) == s[..i] + rep + s[i + |pat|..]
  {
    if Contains(s, pat) {
      var i := IndexOf(s, pat).value;
      assert MatchesAt(s, pat, i);
    }
  }

  /** `s.split(sep)` for a one-character separator; the empty string gives `[""]`. */
  function Split(s: string, sep: char): (parts: seq<string>)
    ensures |parts| >= 1
    ensures forall p :: p in parts ==> sep !in p
  {
    if s == [] then [""]
    else
      var rest := Split(s[1..], sep);
      if s[0] == sep then [""] + rest
      else [[s[0]] + rest[0]] + rest[1..]
  }

  /** `parts.join(sep)`. */
  function Join(parts: seq<string>, sep: string): string {
    if |parts| == 0 then ""
    else if |parts| == 1 then parts[0]
    else parts[0] + sep + Join(parts[1..], sep)
  }

  /** Joining the pieces of a split with the same separator gives back the string. */
  lemma {:induction false} JoinSplit(s: string, sep: char)
    ensures Join(Split(s, sep), [sep]) == s
  {
    if s != [] {
      var rest := Split(s[1..], sep);
      JoinSplit(s[1..], sep);
      if s[0] == sep {
        assert Split(s, sep) == [""] + rest;
        assert ([""] + rest)[1..] == rest;
        assert s == [sep] + s[1..];
      } else {
        var parts := [[s[0]] + rest[0]] + rest[1..];
        assert Split(s, sep) == parts;
        if |rest| == 1 {
          assert s == [s[0]] + rest[0];
        } else {
          assert parts[1..] == rest[1..];
          assert s == [s[0]] + (rest[0] + [sep] + Join(rest[1..], [sep]));
        }
      }
    }
  }

  /** A string without the separator is one piece. */
  lemma {:induction false} SplitNoSep(w: string, sep: char)
    requires sep !in w
    ensures Split(w, sep) == [w]
  {
    if w != [] {
      SplitNoSep(w[1..], sep);
      assert [w[0]] + w[1..] == w;
    }
  }

  /** A separator-free word followed by the separator is the first piece of the split. */
  lemma {:induction false} SplitAfterWord(w: string, sep: char, rest: string)
    requires sep !in w
    ensures Split(w + [sep] + rest, sep) == [w] + Split(rest, sep)
  {
    var s := w + [sep] + rest;
    if w == [] {
      assert s[1..] == rest;
    } else {
      assert s[1..] == w[1..] + [sep] + rest;
      SplitAfterWord(w[1..], sep, rest);
      assert [w[0]] + w[1..] == w;
    }
  }

  /** Upper-casing works piece by piece. */
  lemma ToUpperAppend(a: string, b: string)
    ensures ToUpper(a + b) == ToUpper(a) + ToUpper(b)
  {
  }

  /**
   * The white space that `String.prototype.trim` removes: the WhiteSpace and LineTerminator
   * characters of section 12.2 and 12.3 of ECMA-262 (tab, vertical tab, form feed, space,
   * no-break space, the byte order mark, the other space separators of Unicode category Zs,
   * line feed, carriage return, line and paragraph separators).
   */
  predicate IsSpace(c: char) {
    || c == '\t' || c == '\U{000B}' || c == '\U{000C}' || c == ' ' || c == '\U{00A0}' || c == '\U{FEFF}'
    || c == '\U{1680}' || ('\U{2000}' <= c <= '\U{200A}') || c == '\U{202F}' || c == '\U{205F}' || c == '\U{3000}'
    || c == '\n' || c == '\r' || c == '\U{2028}' || c == '\U{2029}'
  }

  /** Where `s` stops being white space, looking from `i` on. */
  function StartFrom(s: string, i: nat): (n: nat)
    requires i <= |s|
    requires forall k :: 0 <= k < i ==> IsSpace(s[k])
    ensures i <= n <= |s|
    ensures forall k :: 0 <= k < n ==> IsSpace(s[k])
    ensures n < |s| ==> !IsSpace(s[n])
    decreases |s| - i
  {
    if i < |s| && IsSpace(s[i]) then StartFrom(s, i + 1) else i
  }

  /** Where the trailing white space of `s` begins, looking back from `j` but not below `lo`. */
  function EndFrom(s: string, lo: nat, j: nat): (n: nat)
    requires lo <= j <= |s|
    requires forall k :: j <= k < |s| ==> IsSpace(s[k])
    ensures lo <= n <= j
    ensures forall k :: n <= k < |s| ==> IsSpace(s[k])
    ensures n > lo ==> !IsSpace(s[n - 1])
    decreases j
  {
    if j > lo && IsSpace(s[j - 1]) then EndFrom(s, lo, j - 1) else j
  }

  /** The index of the first character of `s` that is not white space (or `|s|`). */
  function TrimStartIndex(s: string): (i: nat)
    ensures i <= |s|
  {
    StartFrom(s, 0)
  }

  /** The index after the last character of `s` that is not white space (or the start index). */
  function TrimEndIndex(s: string): (j: nat)
    ensures TrimStartIndex(s) <= j <= |s|
  {
    EndFrom(s, TrimStartIndex(s), |s|)
  }

  /** `s.trim()`: `s` without its leading and its trailing white space. */
  function Trim(s: string): (r: string)
    ensures |r| <= |s|
    ensures r != [] ==> !IsSpace(r[0]) && !IsSpace(r[|r| - 1])
  {
    s[TrimStartIndex(s)..TrimEndIndex(s)]
  }

  /** The trimmed string is a slice of `s` with only white space before and after it. */
  lemma TrimSlice(s: string)
    ensures var i, j := TrimStartIndex(s), TrimEndIndex(s);
            && Trim(s) == s[i..j]
            && (forall k :: 0 <= k < i ==> IsSpace(s[k]))
            && (forall k :: j <= k < |s| ==> IsSpace(s[k]))
  {
  }

  /** Trimming only drops characters. */
  lemma TrimChars(s: string, c: char)
    ensures c in Trim(s) ==> c in s
  {
    var i, j := TrimStartIndex(s), TrimEndIndex(s);
    if c in Trim(s) {
      var k :| 0 <= k < j - i && Trim(s)[k] == c;
      assert s[i + k] == c;
    }
  }

  /** `!s.trim()`: nothing but white space. */
  predicate Blank(s: string) {
    Trim(s) == ""
  }

  /** A string trims to nothing exactly when every character of it is white space. */
  lemma TrimEmptyIff(s: string)
    ensures Trim(s) == "" <==> forall k :: 0 <= k < |s| ==> IsSpace(s[k])
  {
    if Trim(s) != "" {
      assert s[TrimStartIndex(s)] == Trim(s)[0];
    }
  }

  /** Vertical tab, form feed and no-break space are trimmed like any other white space. */
  lemma TrimControlSpaces()
    ensures Trim("\U{000B}\U{000C}") == ""
    ensures Trim(" a\U{000C}") == "a"
    ensures Trim("\U{00A0}b\U{000B}") == "b"
  {
    assert Trim("\U{000B}\U{000C}") == "";
  }

  /** The decimal digit `d`. */
  function DigitChar(d: nat): char
    requires d < 10
  {
    "0123456789"[d]
  }

  /** The value of a decimal digit character. */
  function DigitValue(c: char): nat {
    if '0' <= c <= '9' then c as nat - '0' as nat else 0
  }

  /** `String(n)` for a natural number: its decimal digits, no leading zero. */
  function NatText(n: nat): (r: string)
    ensures r != []
    ensures forall k :: 0 <= k < |r| ==> '0' <= r[k] <= '9'
    decreases n
  {
    if n < 10 then [DigitChar(n)] else NatText(n / 10) + [DigitChar(n % 10)]
  }

  /** `n.toString()` for an integer. */
  function IntText(n: int): (r: string)
    ensures r != []
  {
    if n < 0 then "-" + NatText(-n) else NatText(n)
  }

  /** Reading a string of decimal digits. */
  function ParseDigits(s: string): nat {
    if s == [] then 0 else ParseDigits(s[..|s| - 1]) * 10 + DigitValue(s[|s| - 1])
  }

  /** Reading back the decimal text of a number gives the number. */
  lemma {:induction false} NatTextRoundTrip(n: nat)
    ensures ParseDigits(NatText(n)) == n
    decreases n
  {
    var r := NatText(n);
    if n >= 10 {
      NatTextRoundTrip(n / 10);
      assert r[..|r| - 1] == NatText(n / 10);
    }
    assert DigitValue(DigitChar(n % 10)) == n % 10;
  }

  /** The text of an integer starts with '-' exactly when it is negative. */
  lemma IntTextSign(n: int)
    ensures (IntText(n)[0] == '-') <==> n < 0
  {
    if n >= 0 {
      var r := NatText(n);
      assert '0' <= r[0] <= '9';
    }
  }
}
