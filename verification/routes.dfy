/** The HTTP routes (app.py:43-71): how each one turns its path and query
    arguments into a call on the index. The one piece of real logic is the
    `limit` argument of `/search/key/<key>`, parsed as Python 2's `int`
    parses a string and clamped to [1, 50]. */
module Routes {
  import opened Wrappers
  import opened Text
  import opened Store
  import opened Indexer
  import opened Retrieval

  // ---------------------------------------------------------------------
  // int(str)
  // ---------------------------------------------------------------------

  predicate IsDigit(c: char) {
    '0' <= c <= '9'
  }

  predicate AllDigits(s: string) {
    forall i | 0 <= i < |s| :: IsDigit(s[i])
  }

  /** The number a run of decimal digits denotes, each digit weighing ten
      times its right neighbour. */
  function DigitsValue(ds: string): int
    decreases |ds|
  {
    if |ds| == 0 then 0
    else DigitsValue(ds[..|ds| - 1]) * 10 + (ds[|ds| - 1] as int - '0' as int)
  }

  /** `s.lstrip()` over the whitespace `int` skips. */
  function TrimStart(s: string): string
    decreases |s|
  {
    if |s| > 0 && IsSpace(s[0]) then TrimStart(s[1..]) else s
  }

  /** `s.rstrip()` over the whitespace `int` skips. */
  function TrimEnd(s: string): string
    decreases |s|
  {
    if |s| > 0 && IsSpace(s[|s| - 1]) then TrimEnd(s[..|s| - 1]) else s
  }

  /** One or more digits and nothing else, read as their value. */
  function ParseUnsigned(ds: string): Option<int> {
    if |ds| > 0 && AllDigits(ds) then Some(DigitsValue(ds)) else None
  }

  /** The stripped text `int` reads: an optional sign, whitespace after it,
      then the digits. */
  function ParseSigned(t: string): Option<int> {
    var signed := |t| > 0 && (t[0] == '-' || t[0] == '+');
    var digits := if signed then TrimStart(t[1..]) else t;
    match ParseUnsigned(digits)
    case None => None
    case Some(v) => Some(if signed && t[0] == '-' then -v else v)
  }

  /** Python 2's `int(s)` on a string, base 10: whitespace around, an
      optional sign that whitespace may follow, then one or more ASCII
      digits; `None` where `int` raises `ValueError`. */
  function ParseInt(s: string): Option<int> {
    ParseSigned(TrimEnd(TrimStart(s)))
  }

  // ---------------------------------------------------------------------
  // str(int)
  // ---------------------------------------------------------------------

  function DigitChar(d: nat): char
    requires d < 10
  {
    ('0' as int + d) as char
  }

  /** The decimal digits of a natural number, most significant first. */
  function ShowNat(n: nat): (r: string)
    ensures |r| > 0 && AllDigits(r)
    decreases n
  {
    if n < 10 then [DigitChar(n)] else ShowNat(n / 10) + [DigitChar(n % 10)]
  }

  /** `str(n)`: a minus sign before the digits of a negative number. */
  function Show(n: int): string {
    if n < 0 then Minus(ShowNat(-n)) else ShowNat(n)
  }

  /** A minus sign before a string of digits. */
  function Minus(ds: string): (r: string)
    ensures |r| == |ds| + 1 && r[0] == '-' && r[1..] == ds
  {
    ['-'] + ds
  }

  lemma {:induction false} ShowNatValue(n: nat)
    ensures DigitsValue(ShowNat(n)) == n
    decreases n
  {
    if n >= 10 {
      var s := ShowNat(n / 10) + [DigitChar(n % 10)];
      assert s[..|s| - 1] == ShowNat(n / 10);
      ShowNatValue(n / 10);
    }
  }

  /** Text that neither starts nor ends with whitespace is left as it is. */
  lemma TrimNothing(s: string)
    requires |s| > 0 && !IsSpace(s[0]) && !IsSpace(s[|s| - 1])
    ensures TrimEnd(TrimStart(s)) == s
  {
  }

  lemma TrimStartNoSpace(s: string)
    requires |s| > 0 && !IsSpace(s[0])
    ensures TrimStart(s) == s
  {
  }

  /** A run of digits reads as its value. */
  lemma ParseDigits(ds: string)
    requires |ds| > 0 && AllDigits(ds)
    ensures ParseInt(ds) == Some(DigitsValue(ds))
  {
    TrimNothing(ds);
  }

  /** A minus sign before a run of digits reads as the negated value. */
  lemma ParseNegative(ds: string)
    requires |ds| > 0 && AllDigits(ds)
    ensures ParseInt(Minus(ds)) == Some(-DigitsValue(ds))
  {
    var s := Minus(ds);
    assert s[|s| - 1] == ds[|ds| - 1];
    TrimNothing(s);
    assert IsDigit(ds[0]);
    TrimStartNoSpace(ds);
    NegativeSign(s, DigitsValue(ds));
    ParseTrimmed(s);
  }

  lemma ParseTrimmed(s: string)
    requires TrimEnd(TrimStart(s)) == s
    ensures ParseInt(s) == ParseSigned(s)
  {
  }

  lemma NegativeSign(t: string, v: int)
    requires |t| > 0 && t[0] == '-' && ParseUnsigned(TrimStart(t[1..])) == Some(v)
    ensures ParseSigned(t) == Some(-v)
  {
  }

  /** `int(str(n)) == n`: the parser reads back every number's decimal form. */
  lemma ParseShow(n: int)
    ensures ParseInt(Show(n)) == Some(n)
  {
    if n < 0 {
      var m: nat := -n;
      ShowNatValue(m);
      ParseNegative(ShowNat(m));
    } else {
      ShowNatValue(n);
      ParseDigits(ShowNat(n));
    }
  }

  // ---------------------------------------------------------------------
  // the routes
  // ---------------------------------------------------------------------

  /** The result cap of the search routes. */
  const MaxResults: int := 50

  /** The `limit` of `/search/key/<key>` (app.py:46-50): the argument read
      by `int`, clamped to [1, 50]; 50 when it is absent or `int` raises. */
  function ClampLimit(arg: Option<string>): (r: int)
    ensures 1 <= r <= MaxResults
    ensures arg.None? ==> r == MaxResults
    ensures arg.Some? && ParseInt(arg.value).None? ==> r == MaxResults
    ensures arg.Some? && ParseInt(arg.value).Some? ==>
      var n := ParseInt(arg.value).value;
      && (1 <= n <= MaxResults ==> r == n)
      && (n < 1 ==> r == 1)
      && (n > MaxResults ==> r == MaxResults)
  {
    var n := match arg
      case None => MaxResults
      case Some(s) => ParseInt(s).GetOr(MaxResults);
    if n < 1 then 1 else if n > MaxResults then MaxResults else n
  }

  /** A limit written in decimal is honoured when it lies in [1, 50] and
      pinned to the nearer end otherwise. */
  lemma ClampShown(n: int)
    ensures 1 <= n <= MaxResults ==> ClampLimit(Some(Show(n))) == n
    ensures n < 1 ==> ClampLimit(Some(Show(n))) == 1
    ensures n > MaxResults ==> ClampLimit(Some(Show(n))) == MaxResults
  {
    ParseShow(n);
  }

  /** `/search/key/<key>` (app.py:43-52): `search_by_key` on the lower-cased
      key with the clamped limit, reading the hash `full` selects. */
  function SearchKeyRoute(st: Store, key: string, full: bool, limitArg: Option<string>): (r: seq<Doc>)
    ensures |r| <= MaxResults
    ensures forall d | d in r ::
      exists m | m in Members(st, KeySet(Lower(key))) :: m in Payloads(st, SourceOf(full)) && Payloads(st, SourceOf(full))[m] == d
  {
    SearchByKey(st, Lower(key), Some(ClampLimit(limitArg)), SourceOf(full))
  }

  /** `/search/summary?q=...` (app.py:55-60): `search` of the phrase, at
      most 50 payloads from the hash `full` selects, or the error the search
      raised. */
  function SummaryRoute(st: Store, q: string, full: bool): (out: SearchOutcome)
    ensures SameIndex(out.store, st)
    ensures out.answer.Ok? ==> out.answer.value.Docs? && |out.answer.value.docs| <= MaxResults
  {
    Search(st, q, SourceOf(full), Some(MaxResults), map[], false, false)
  }

  /** `/issue/<key>` (app.py:63-71): the payload stored under the
      upper-cased key; `None` stands for the 404. */
  function IssueRoute(st: Store, key: string, full: bool): (r: Option<Doc>)
    ensures r.Some? <==> Upper(key) in Payloads(st, SourceOf(full))
  {
    GetByKey(st, Upper(key), SourceOf(full))
  }

  /** An indexed issue is served under its key written in any letter case,
      as long as the key itself is upper-case. */
  lemma IndexThenIssueRoute(st: Store, issue: Issue, key: string)
    requires Upper(key) == issue.key
    ensures IssueRoute(Index(st, issue), key, true) == Some(issue.raw)
    ensures IssueRoute(Index(st, issue), key, false) == Some(issue.small)
  {
    IndexThenGetByKey(st, issue);
  }
}
