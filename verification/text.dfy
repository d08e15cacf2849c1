/** Python string operations the index relies on: ASCII case mapping,
    `str.split()` on whitespace and `sep.join(parts)`. */
module Text {

  /** The characters Python's `str.split()` and the regular-expression class
      `\s` (without the UNICODE flag) treat as whitespace. */
  predicate IsSpace(c: char) {
    c == ' ' || c == '\t' || c == '\n' || c == '\r' || c as int == 11 || c as int == 12
  }

  function LowerChar(c: char): char {
    if 'A' <= c <= 'Z' then (c as int + 32) as char else c
  }

  function UpperChar(c: char): char {
    if 'a' <= c <= 'z' then (c as int - 32) as char else c
  }

  /** `s.lower()` on ASCII letters. */
  function Lower(s: string): string {
    seq(|s|, i requires 0 <= i < |s| => LowerChar(s[i]))
  }

  /** `s.upper()` on ASCII letters. */
  function Upper(s: string): string {
    seq(|s|, i requires 0 <= i < |s| => UpperChar(s[i]))
  }

  lemma LowerConcat(a: string, b: string)
    ensures Lower(a + b) == Lower(a) + Lower(b)
  {
  }

  /** `sep.join(parts)`. */
  function Join(sep: string, parts: seq<string>): string
    decreases |parts|
  {
    if |parts| == 0 then ""
    else if |parts| == 1 then parts[0]
    else parts[0] + sep + Join(sep, parts[1..])
  }

  /** `s.split()` scanning left to right, `cur` being the word read so far:
      runs of whitespace separate words and never produce empty words. */
  function SplitWords(s: string, cur: string): seq<string>
    decreases |s|
  {
    if |s| == 0 then (if |cur| == 0 then [] else [cur])
    else if IsSpace(s[0]) then
      (if |cur| == 0 then [] else [cur]) + SplitWords(s[1..], "")
    else SplitWords(s[1..], cur + [s[0]])
  }

  function Split(s: string): seq<string> {
    SplitWords(s, "")
  }

  /** The string holds no whitespace. */
  ghost predicate NoSpace(s: string) {
    forall i | 0 <= i < |s| :: !IsSpace(s[i])
  }

  /** Reading a whitespace-free stretch only extends the current word. */
  lemma {:induction false} SplitWordsAbsorb(w: string, rest: string, cur: string)
    requires NoSpace(w)
    ensures SplitWords(w + rest, cur) == SplitWords(rest, cur + w)
    decreases |w|
  {
    if |w| > 0 {
      assert (w + rest)[0] == w[0];
      assert (w + rest)[1..] == w[1..] + rest;
      SplitWordsAbsorb(w[1..], rest, cur + [w[0]]);
      assert cur + [w[0]] + w[1..] == cur + w;
    } else {
      assert w + rest == rest;
      assert cur + w == cur;
    }
  }

  /** Splitting at a whitespace character splits the word list there. */
  lemma {:induction false} SplitWordsAtSpace(a: string, c: char, b: string, cur: string)
    requires IsSpace(c)
    ensures SplitWords(a + [c] + b, cur) == SplitWords(a, cur) + SplitWords(b, "")
    decreases |a|
  {
    if |a| == 0 {
      assert a + [c] + b == [c] + b;
      assert ([c] + b)[1..] == b;
    } else {
      assert (a + [c] + b)[0] == a[0];
      assert (a + [c] + b)[1..] == a[1..] + [c] + b;
      if IsSpace(a[0]) {
        SplitWordsAtSpace(a[1..], c, b, "");
      } else {
        SplitWordsAtSpace(a[1..], c, b, cur + [a[0]]);
      }
    }
  }

  /** A single whitespace-free non-empty word splits to itself. */
  lemma SplitWord(w: string)
    requires |w| > 0 && NoSpace(w)
    ensures Split(w) == [w]
  {
    SplitWordsAbsorb(w, "", "");
    assert w + "" == w;
    assert "" + w == w;
  }

  /** Every word `SplitWords` produces is non-empty, holds no whitespace,
      and is made of characters of the input or of the pending word. */
  lemma {:induction false} SplitWordsShape(s: string, cur: string)
    requires NoSpace(cur)
    ensures forall w | w in SplitWords(s, cur) :: |w| > 0 && NoSpace(w)
    ensures forall w, k | w in SplitWords(s, cur) && 0 <= k < |w| :: w[k] in s || w[k] in cur
    decreases |s|
  {
    if |s| > 0 {
      if IsSpace(s[0]) {
        SplitWordsShape(s[1..], "");
      } else {
        SplitWordsShape(s[1..], cur + [s[0]]);
      }
    }
  }
}
