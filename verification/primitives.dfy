/** The pure helpers of the search index: the base-27 rank of a string, the
    phrase cleaner with its stop words, and the prefix expansion used for
    autocomplete (index.py:8, 33-60). */
module Primitives {
  import opened Text

  /** Words dropped by the phrase cleaner (index.py:8). */
  const StopWords: set<string> := {"a", "an", "of", "the"}

  /** Default number of characters `score_key` ranks (index.py:35). */
  const MaxSize: nat := 20

  function Pow(b: int, e: nat): int
    decreases e
  {
    if e == 0 then 1 else b * Pow(b, e - 1)
  }

  lemma PowPositive(e: nat)
    ensures Pow(27, e) > 0
  {
  }

  /** 27^20, the score base of key prefixes (index.py:33). */
  function Offset(): int {
    Pow(27, 20)
  }

  // ---------------------------------------------------------------------
  // score_key
  // ---------------------------------------------------------------------

  /** The digit position `i` of `k` contributes: 'a'..'z' map to 2..27, any
      other character and any position past the end map to 1. */
  function Digit(k: string, i: nat): (d: int)
    ensures 1 <= d <= 27
    ensures 'a' <= (if i < |k| then k[i] else ' ') <= 'z' ==> d == k[i] as int - 'a' as int + 2
    ensures i >= |k| ==> d == 1
  {
    if i < |k| then
      var c := (k[i] as int) - ('a' as int - 2);
      if c < 2 || c > 27 then 1 else c
    else 1
  }

  /** Digits of positions `i .. maxSize-1`, each weighted by 27^(maxSize - position). */
  function ScoreFrom(k: string, i: nat, maxSize: nat): int
    decreases maxSize - i
  {
    if i >= maxSize then 0
    else Digit(k, i) * Pow(27, maxSize - i) + ScoreFrom(k, i + 1, maxSize)
  }

  /** `score_key(k, max_size)`: the rank of `k` (index.py:35-48). */
  function ScoreKey(k: string, maxSize: nat := MaxSize): int {
    ScoreFrom(k, 0, maxSize)
  }

  /** The weight every digit would contribute if all were 1. */
  function MinTail(i: nat, maxSize: nat): int
    decreases maxSize - i
  {
    if i >= maxSize then 0 else Pow(27, maxSize - i) + MinTail(i + 1, maxSize)
  }

  lemma {:induction false} MinTailClosedForm(i: nat, maxSize: nat)
    requires i <= maxSize
    ensures 26 * MinTail(i, maxSize) == Pow(27, maxSize - i + 1) - 27
    decreases maxSize - i
  {
    if i < maxSize {
      MinTailClosedForm(i + 1, maxSize);
      assert Pow(27, maxSize - i + 1) == 27 * Pow(27, maxSize - i);
    }
  }

  /** Multiplying by a positive weight keeps a gap of at least one weight. */
  lemma MulGap(x: int, y: int, w: int)
    requires x < y && w > 0
    ensures x * w + w <= y * w
  {
    assert y * w - x * w == (y - x) * w;
    assert (y - x - 1) * w >= 0;
  }

  lemma {:induction false} ScoreFromBounds(k: string, i: nat, maxSize: nat)
    ensures MinTail(i, maxSize) <= ScoreFrom(k, i, maxSize) <= 27 * MinTail(i, maxSize)
    decreases maxSize - i
  {
    if i < maxSize {
      ScoreFromBounds(k, i + 1, maxSize);
      var d, w := Digit(k, i), Pow(27, maxSize - i);
      PowPositive(maxSize - i);
      if d > 1 {
        MulGap(1, d, w);
      }
      if d < 27 {
        MulGap(d, 27, w);
      }
      assert w <= d * w <= 27 * w;
    }
  }

  /** Two strings whose digits agree on positions `j .. i-1` gain the same amount there. */
  lemma {:induction false} ScoreFromSharedDigits(a: string, b: string, j: nat, i: nat, maxSize: nat)
    requires j <= i <= maxSize
    requires forall t | j <= t < i :: Digit(a, t) == Digit(b, t)
    ensures ScoreFrom(a, j, maxSize) - ScoreFrom(a, i, maxSize) == ScoreFrom(b, j, maxSize) - ScoreFrom(b, i, maxSize)
    decreases i - j
  {
    if j < i {
      ScoreFromSharedDigits(a, b, j + 1, i, maxSize);
    }
  }

  /** `score_key` orders strings by their first differing digit, because the
      positions after it cannot make up for one unit of its weight. */
  lemma ScoreKeyOrder(a: string, b: string, i: nat, maxSize: nat)
    requires i < maxSize
    requires forall t | 0 <= t < i :: Digit(a, t) == Digit(b, t)
    requires Digit(a, i) < Digit(b, i)
    ensures ScoreKey(a, maxSize) < ScoreKey(b, maxSize)
  {
    ScoreFromSharedDigits(a, b, 0, i, maxSize);
    ScoreFromBounds(a, i + 1, maxSize);
    ScoreFromBounds(b, i + 1, maxSize);
    MinTailClosedForm(i + 1, maxSize);
    var w := Pow(27, maxSize - i);
    PowPositive(maxSize - i);
    assert maxSize - (i + 1) + 1 == maxSize - i;
    var mt := MinTail(i + 1, maxSize);
    assert 26 * mt == w - 27;
    var ta, tb := ScoreFrom(a, i + 1, maxSize), ScoreFrom(b, i + 1, maxSize);
    assert ta <= 27 * mt && mt <= tb;
    var da, db := Digit(a, i), Digit(b, i);
    MulGap(da, db, w);
    assert ScoreFrom(a, i, maxSize) == da * w + ta;
    assert ScoreFrom(b, i, maxSize) == db * w + tb;
    assert ScoreFrom(a, i, maxSize) < ScoreFrom(b, i, maxSize);
  }

  /** The score of `k` only depends on its first `maxSize` characters. */
  lemma ScoreKeyTruncates(k: string, maxSize: nat)
    ensures ScoreKey(k, maxSize) == ScoreKey(k[..if |k| < maxSize then |k| else maxSize], maxSize)
  {
    var t := k[..if |k| < maxSize then |k| else maxSize];
    forall p | 0 <= p < maxSize
      ensures Digit(k, p) == Digit(t, p)
    {
    }
    ScoreFromSharedDigits(k, t, 0, maxSize, maxSize);
  }

  /** Equal characters on the ranked positions give equal scores. */
  lemma ScoreKeySamePrefix(a: string, b: string, maxSize: nat)
    requires |a| >= maxSize && |b| >= maxSize && a[..maxSize] == b[..maxSize]
    ensures ScoreKey(a, maxSize) == ScoreKey(b, maxSize)
  {
    ScoreKeyTruncates(a, maxSize);
    ScoreKeyTruncates(b, maxSize);
  }

  // ---------------------------------------------------------------------
  // autocomplete_keys
  // ---------------------------------------------------------------------

  /** `autocomplete_keys(w)`: `w[:1] .. w[:len(w)-1]` followed by `w` itself
      (index.py:57-60). */
  function AutocompleteKeys(w: string): (r: seq<string>)
    ensures |w| > 0 ==> |r| == |w| && forall i | 0 <= i < |r| :: r[i] == w[..i + 1]
    ensures |w| == 0 ==> r == [""]
    ensures |r| > 0 && r[|r| - 1] == w
  {
    var n := if |w| > 0 then |w| - 1 else 0;
    seq(n, i requires 0 <= i < n => w[..i + 1]) + [w]
  }

  /** The prefix expansion lists each prefix once. */
  lemma AutocompleteKeysDistinct(w: string)
    ensures forall i, j | 0 <= i < j < |AutocompleteKeys(w)| :: AutocompleteKeys(w)[i] != AutocompleteKeys(w)[j]
  {
    var r := AutocompleteKeys(w);
    forall i, j | 0 <= i < j < |r| ensures r[i] != r[j] {
      assert |r[i]| == i + 1 && |r[j]| == j + 1;
    }
  }

  /** `p` is among the prefixes `autocomplete_keys(w)` yields exactly when it
      is a non-empty prefix of `w`, or `w` itself when `w` is empty. */
  lemma AutocompleteKeysMembers(w: string, p: string)
    ensures p in AutocompleteKeys(w) <==> (p == w || (0 < |p| <= |w| && p == w[..|p|]))
  {
    var r := AutocompleteKeys(w);
    if 0 < |p| <= |w| && p == w[..|p|] {
      assert r[|p| - 1] == p;
    }
    if p in r && |w| > 0 {
      var i :| 0 <= i < |r| && r[i] == p;
      assert |p| == i + 1;
    }
  }

  // ---------------------------------------------------------------------
  // clean_phrase / create_key
  // ---------------------------------------------------------------------

  /** Characters a cleaned word may hold: `[a-z0-9_-]`. */
  predicate WordChar(c: char) {
    ('a' <= c <= 'z') || ('0' <= c <= '9') || c == '_' || c == '-'
  }

  /** The complement of the regular expression `[^a-z0-9_\-\s]` (index.py:51). */
  predicate Kept(c: char) {
    WordChar(c) || IsSpace(c)
  }

  /** `re.sub('[^a-z0-9_\-\s]', '', s)`: drops every character that is not kept. */
  function KeepChars(s: string): string
    decreases |s|
  {
    if |s| == 0 then "" else (if Kept(s[0]) then [s[0]] else "") + KeepChars(s[1..])
  }

  /** Drops stop words, keeping the order of the rest (index.py:52). */
  function DropStopWords(ws: seq<string>): seq<string>
    decreases |ws|
  {
    if |ws| == 0 then [] else (if ws[0] in StopWords then [] else [ws[0]]) + DropStopWords(ws[1..])
  }

  /** `clean_phrase(phrase)` (index.py:50-52). */
  function CleanPhrase(phrase: string): seq<string> {
    DropStopWords(Split(KeepChars(Lower(phrase))))
  }

  /** `create_key(phrase)`: the cleaned words joined by single spaces (index.py:54-55). */
  function CreateKey(phrase: string): string {
    Join(" ", CleanPhrase(phrase))
  }

  /** A word that survives cleaning unchanged. */
  ghost predicate CleanWord(w: string) {
    |w| > 0 && (forall k | 0 <= k < |w| :: WordChar(w[k])) && w !in StopWords
  }

  lemma {:induction false} KeepCharsConcat(a: string, b: string)
    ensures KeepChars(a + b) == KeepChars(a) + KeepChars(b)
    decreases |a|
  {
    if |a| == 0 {
      assert a + b == b;
    } else {
      assert (a + b)[0] == a[0];
      assert (a + b)[1..] == a[1..] + b;
      KeepCharsConcat(a[1..], b);
    }
  }

  lemma {:induction false} KeepCharsKept(s: string)
    ensures forall k | 0 <= k < |KeepChars(s)| :: Kept(KeepChars(s)[k])
    decreases |s|
  {
    if |s| > 0 {
      KeepCharsKept(s[1..]);
    }
  }

  lemma {:induction false} KeepCharsIdentity(s: string)
    requires forall k | 0 <= k < |s| :: Kept(s[k])
    ensures KeepChars(s) == s
    decreases |s|
  {
    if |s| > 0 {
      KeepCharsIdentity(s[1..]);
      assert s == [s[0]] + s[1..];
    }
  }

  lemma {:induction false} DropStopWordsConcat(a: seq<string>, b: seq<string>)
    ensures DropStopWords(a + b) == DropStopWords(a) + DropStopWords(b)
    decreases |a|
  {
    if |a| == 0 {
      assert a + b == b;
    } else {
      assert (a + b)[0] == a[0];
      assert (a + b)[1..] == a[1..] + b;
      DropStopWordsConcat(a[1..], b);
    }
  }

  lemma {:induction false} DropStopWordsMembers(ws: seq<string>)
    ensures forall w | w in DropStopWords(ws) :: w in ws && w !in StopWords
    decreases |ws|
  {
    if |ws| > 0 {
      DropStopWordsMembers(ws[1..]);
    }
  }

  /** Every cleaned word is non-empty, holds only `[a-z0-9_-]` and is not a
      stop word. */
  lemma CleanPhraseWords(phrase: string)
    ensures forall w | w in CleanPhrase(phrase) :: CleanWord(w)
  {
    var kept := KeepChars(Lower(phrase));
    KeepCharsKept(Lower(phrase));
    SplitWordsShape(kept, "");
    DropStopWordsMembers(Split(kept));
    forall w | w in CleanPhrase(phrase) ensures CleanWord(w) {
      assert w in Split(kept);
      forall k | 0 <= k < |w| ensures WordChar(w[k]) {
        assert w[k] in kept;
        var t :| 0 <= t < |kept| && kept[t] == w[k];
        assert Kept(kept[t]);
      }
    }
  }

  /** Cleaning a phrase made of two parts separated by a space cleans each
      part separately: surviving words keep their order. */
  lemma CleanPhraseConcat(p: string, q: string)
    ensures CleanPhrase(p + " " + q) == CleanPhrase(p) + CleanPhrase(q)
  {
    LowerConcat(p + " ", q);
    LowerConcat(p, " ");
    assert Lower(" ") == " ";
    var lp, lq := Lower(p), Lower(q);
    assert Lower(p + " " + q) == lp + " " + lq;
    KeepCharsConcat(lp + " ", lq);
    KeepCharsConcat(lp, " ");
    assert KeepChars(" ") == " ";
    var kp, kq := KeepChars(lp), KeepChars(lq);
    assert KeepChars(lp + " " + lq) == kp + [' '] + kq;
    SplitWordsAtSpace(kp, ' ', kq, "");
    DropStopWordsConcat(Split(kp), Split(kq));
  }

  /** A clean word cleans to itself. */
  lemma CleanPhraseOfCleanWord(w: string)
    requires CleanWord(w)
    ensures CleanPhrase(w) == [w]
  {
    assert forall k | 0 <= k < |w| :: Kept(w[k]) && !IsSpace(w[k]);
    assert Lower(w) == w;
    KeepCharsIdentity(w);
    SplitWord(w);
    assert KeepChars(Lower(w)) == w;
    assert DropStopWords([w]) == [w] + DropStopWords([]);
  }

  /** Joining clean words with spaces and cleaning again gives the words back. */
  lemma {:induction false} CleanPhraseOfJoin(ws: seq<string>)
    requires forall w | w in ws :: CleanWord(w)
    ensures CleanPhrase(Join(" ", ws)) == ws
    decreases |ws|
  {
    if |ws| == 0 {
      assert KeepChars(Lower("")) == "";
    } else if |ws| == 1 {
      CleanPhraseOfCleanWord(ws[0]);
    } else {
      CleanPhraseOfCleanWord(ws[0]);
      CleanPhraseOfJoin(ws[1..]);
      CleanPhraseConcat(ws[0], Join(" ", ws[1..]));
      assert ws == [ws[0]] + ws[1..];
    }
  }

  /** `clean_phrase(create_key(p)) == clean_phrase(p)`. */
  lemma CleanPhraseOfCreateKey(phrase: string)
    ensures CleanPhrase(CreateKey(phrase)) == CleanPhrase(phrase)
  {
    CleanPhraseWords(phrase);
    CleanPhraseOfJoin(CleanPhrase(phrase));
  }
}
