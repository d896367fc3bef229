/** The pieces of Go's `strings` package the server's parsers use. */
module Text {
  import opened Prelude

  /** `unicode.IsSpace`. */
  predicate IsSpace(c: char) {
    || '\U{9}' <= c <= '\U{d}' || c == ' ' || c == '\U{85}' || c == '\U{a0}' || c == '\U{1680}'
    || '\U{2000}' <= c <= '\U{200a}' || c == '\U{2028}' || c == '\U{2029}' || c == '\U{202f}'
    || c == '\U{205f}' || c == '\U{3000}'
  }

  /** `strings.TrimSpace`. */
  function TrimSpace(s: string): string
    decreases |s|
  {
    if s == [] then s
    else if IsSpace(s[0]) then TrimSpace(s[1..])
    else if IsSpace(s[|s| - 1]) then TrimSpace(s[..|s| - 1])
    else s
  }

  lemma TrimSpaceKeeps(s: string)
    requires s != [] ==> !IsSpace(s[0]) && !IsSpace(s[|s| - 1])
    ensures TrimSpace(s) == s
  {
  }

  /** What is left has no space at either end. */
  lemma {:induction false} TrimSpaceTrims(s: string)
    ensures TrimSpace(TrimSpace(s)) == TrimSpace(s)
    decreases |s|
  {
    if s != [] {
      if IsSpace(s[0]) { TrimSpaceTrims(s[1..]); } else if IsSpace(s[|s| - 1]) { TrimSpaceTrims(s[..|s| - 1]); }
    }
  }

  /** Trimming leaves a string alone exactly when neither end is a space. */
  lemma {:induction false} TrimmedIff(s: string)
    ensures |TrimSpace(s)| <= |s|
    ensures TrimSpace(s) == s <==> s == [] || (!IsSpace(s[0]) && !IsSpace(s[|s| - 1]))
    decreases |s|
  {
    if s != [] {
      if IsSpace(s[0]) { TrimmedIff(s[1..]); } else if IsSpace(s[|s| - 1]) { TrimmedIff(s[..|s| - 1]); }
    }
  }

  /** `strings.ToLower` on ASCII letters; other characters are left alone. */
  function LowerChar(c: char): char {
    if 'A' <= c <= 'Z' then c - 'A' + 'a' else c
  }

  function ToLower(s: string): (t: string)
    ensures |t| == |s|
    ensures forall i :: 0 <= i < |s| ==> t[i] == LowerChar(s[i])
  {
    if s == [] then [] else [LowerChar(s[0])] + ToLower(s[1..])
  }

  /** The alphabet, letter by letter, and nothing else. */
  lemma LowerTable(i: nat, c: char)
    requires i < 26
    ensures LowerChar("ABCDEFGHIJKLMNOPQRSTUVWXYZ"[i]) == "abcdefghijklmnopqrstuvwxyz"[i]
    ensures c !in "ABCDEFGHIJKLMNOPQRSTUVWXYZ" ==> LowerChar(c) == c
  {
    var t := "ABCDEFGHIJKLMNOPQRSTUVWXYZ";
    if 'A' <= c <= 'Z' { assert t[c as int - 'A' as int] == c; }
  }

  lemma ToLowerIdempotent(s: string)
    ensures ToLower(ToLower(s)) == ToLower(s)
  {
  }

  /** Position of the first `c` in `s`, or |s|. */
  function IndexOf(s: string, c: char): (i: nat)
    ensures i <= |s|
    ensures forall j :: 0 <= j < i ==> s[j] != c
    ensures i < |s| ==> s[i] == c
  {
    if s == [] then 0 else if s[0] == c then 0 else 1 + IndexOf(s[1..], c)
  }

  /** The first `c` after a prefix without one sits right behind that prefix. */
  lemma {:induction false} IndexOfAppend(a: string, c: char, b: string)
    requires c !in a
    ensures IndexOf(a + [c] + b, c) == |a|
  {
    if a == [] {
    } else {
      assert (a + [c] + b)[1..] == a[1..] + [c] + b;
      IndexOfAppend(a[1..], c, b);
    }
  }

  /** Bytes of the character in UTF-8. */
  function Width(c: char): nat {
    if c < '\U{80}' then 1 else if c < '\U{800}' then 2 else if c < '\U{10000}' then 3 else 4
  }

  /** Go's `len` of a string. */
  function ByteLength(s: string): (n: nat)
    ensures n >= |s|
  {
    if s == [] then 0 else ByteLength(s[..|s| - 1]) + Width(s[|s| - 1])
  }

  lemma {:induction false} AsciiLength(s: string)
    requires forall i :: 0 <= i < |s| ==> s[i] < '\U{80}'
    ensures ByteLength(s) == |s|
  {
    if s != [] { AsciiLength(s[..|s| - 1]); }
  }

  lemma ByteLengthSnoc(s: string, c: char)
    ensures ByteLength(s + [c]) == ByteLength(s) + Width(c)
  {
    assert (s + [c])[..|s|] == s;
  }

  /** Distinct names, by length. */
  function Tag(j: nat): string { if j == 0 then "x" else Tag(j - 1) + "x" }

  lemma {:induction false} TagLength(j: nat)
    ensures |Tag(j)| == j + 1
  {
    if j > 0 { TagLength(j - 1); }
  }
}
