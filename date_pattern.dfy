/** The one regular expression the reshaping uses, written out by hand:

      ^"(.*?)":[\s"]*([0-9]{4}/[0-9]{2}/[0-9]{2})["]*$

    applied with Python's `re.search` to a str, with no flags. So `^` only
    matches at position 0, `.` matches anything but a newline, `\s` is the
    Unicode-aware class of Python 3 str patterns, and `$` matches at the end
    or just before a newline that ends the string. */
module DatePattern {
  import opened Wrappers

  /** A check-item that carried a date: group 1 and group 2 of the match. */
  datatype DatedItem = DatedItem(text: string, date: string)

  predicate IsDigit(c: char) {
    '0' <= c <= '9'
  }

  /** `\s` for a str pattern: the characters for which str.isspace() holds.
      It takes in the ASCII separators and none of the characters the rest
      of the pattern is built from. */
  function IsSpace(c: char): (r: bool)
    ensures c == ' ' || c == '\t' || c == '\n' || c == '\r' ==> r
    ensures r ==> !IsDigit(c) && c != '"' && c != '/' && c != ':'
  {
    var n := c as int;
    (0x09 <= n <= 0x0D) || (0x1C <= n <= 0x20) || n == 0x85 || n == 0xA0 ||
    n == 0x1680 || (0x2000 <= n <= 0x200A) || n == 0x2028 || n == 0x2029 ||
    n == 0x202F || n == 0x205F || n == 0x3000
  }

  /** `[\s"]` */
  predicate IsSpaceOrQuote(c: char) {
    IsSpace(c) || c == '"'
  }

  /** `[\s"]*` matches all of w. */
  predicate AllSpaceOrQuote(w: string) {
    forall i :: 0 <= i < |w| ==> IsSpaceOrQuote(w[i])
  }

  /** `[0-9]{4}/[0-9]{2}/[0-9]{2}` matches all of d. */
  predicate IsDate(d: string) {
    |d| == 10 && d[4] == '/' && d[7] == '/' &&
    forall i :: 0 <= i < 10 && i != 4 && i != 7 ==> IsDigit(d[i])
  }

  predicate AllQuotes(q: string) {
    forall i :: 0 <= i < |q| ==> q[i] == '"'
  }

  /** `["]*$` matches all of u: quotes, then the end or a final newline. */
  predicate QuotesToEnd(u: string) {
    AllQuotes(u) || (|u| > 0 && u[|u| - 1] == '\n' && AllQuotes(u[..|u| - 1]))
  }

  /** `[\s"]*(date)["]*$` matches all of t, with `date` as group 2. */
  ghost predicate TailMatches(t: string, date: string) {
    exists w: string, q: string ::
      AllSpaceOrQuote(w) && IsDate(date) && QuotesToEnd(q) && t == w + date + q
  }

  /** The whole pattern matches name with a group 1 of k characters and
      `date` as group 2. */
  ghost predicate MatchesWith(name: string, k: nat, date: string) {
    3 + k <= |name| && name[0] == '"' && '\n' !in name[1..1 + k] &&
    name[1 + k..3 + k] == "\":" && TailMatches(name[3 + k..], date)
  }

  /** The length of the longest run of `[\s"]` characters at the start of t. */
  function SpaceRun(t: string): (j: nat)
    ensures j <= |t|
    ensures forall i :: 0 <= i < j ==> IsSpaceOrQuote(t[i])
    ensures j == |t| || !IsSpaceOrQuote(t[j])
  {
    if t == [] || !IsSpaceOrQuote(t[0]) then 0
    else
      var j := 1 + SpaceRun(t[1..]);
      assert forall i :: 1 <= i < j ==> t[i] == t[1..][i - 1];
      j
  }

  /** Indexing into a slice, stated without a precondition so that it can be
      used anywhere. */
  lemma SliceIndex(s: string, lo: int, hi: int, i: int)
    ensures 0 <= lo <= i < hi <= |s| ==> s[lo..hi][i - lo] == s[i] && s[i] in s[lo..hi]
    ensures 0 <= lo <= i < |s| ==> s[lo..][i - lo] == s[i]
  {
  }

  /** Where the three parts of t == w + d + q sit in t. */
  lemma SplitIndex(t: string, w: string, d: string, q: string)
    ensures t == w + d + q ==>
      (forall i :: 0 <= i < |w| ==> t[i] == w[i]) &&
      (forall i :: 0 <= i < |d| ==> t[|w| + i] == d[i]) &&
      (forall i :: 0 <= i < |q| ==> t[|w| + |d| + i] == q[i]) &&
      t[|w|..|w| + |d|] == d && t[|w| + |d|..] == q
  {
  }

  /** Characters that no `[\s"]` run can contain. */
  lemma DateCharsAreNotSpace(d: string)
    requires IsDate(d)
    ensures !IsSpaceOrQuote(d[0])
  {
  }

  /** Matching `[\s"]*(...)["]*$` against t: the `[\s"]*` run can only be
      the longest leading run (a date starts with a digit), so at most one
      date is possible, and this function finds it. */
  function MatchTail(t: string): (r: Option<string>)
    ensures r.Some? ==> TailMatches(t, r.value)
    ensures forall d :: TailMatches(t, d) ==> r == Some(d)
  {
    var j := SpaceRun(t);
    var r := if j + 10 <= |t| && IsDate(t[j..j + 10]) && QuotesToEnd(t[j + 10..])
             then Some(t[j..j + 10]) else None;
    assert r.Some? ==> t == t[..j] + t[j..j + 10] + t[j + 10..];
    assert AllSpaceOrQuote(t[..j]);
    TailUnique(t, j);
    r
  }

  lemma TailUnique(t: string, j: nat)
    requires j <= |t| && (forall i :: 0 <= i < j ==> IsSpaceOrQuote(t[i]))
    requires j == |t| || !IsSpaceOrQuote(t[j])
    ensures forall d :: TailMatches(t, d) ==>
      j + 10 <= |t| && d == t[j..j + 10] && QuotesToEnd(t[j + 10..])
  {
    forall d | TailMatches(t, d)
      ensures j + 10 <= |t| && d == t[j..j + 10] && QuotesToEnd(t[j + 10..])
    {
      var w, q :| AllSpaceOrQuote(w) && IsDate(d) && QuotesToEnd(q) && t == w + d + q;
      DateCharsAreNotSpace(d);
      SplitIndex(t, w, d, q);
      assert j == |w|;
    }
  }

  /** No character of a matched tail is a colon. */
  lemma TailHasNoColon(t: string, d: string)
    requires TailMatches(t, d)
    ensures forall i :: 0 <= i < |t| ==> t[i] != ':'
  {
    var w, q :| AllSpaceOrQuote(w) && IsDate(d) && QuotesToEnd(q) && t == w + d + q;
    SplitIndex(t, w, d, q);
    forall i | 0 <= i < |t|
      ensures t[i] != ':'
    {
      if |w| + 10 <= i {
        var n := i - |w| - 10;
        assert t[i] == q[n];
        if !AllQuotes(q) && n < |q| - 1 {
          assert q[..|q| - 1][n] == q[n];
        }
      }
    }
  }

  /** The pattern splits a name in at most one way: the label that `"(.*?)":`
      captures cannot end at any later `":`, because the rest of the pattern
      admits no colon. So the lazy group gives the same answer a greedy one
      would. */
  lemma {:induction false} SplitIsUnique(name: string, k1: nat, d1: string, k2: nat, d2: string)
    requires MatchesWith(name, k1, d1) && MatchesWith(name, k2, d2)
    ensures k1 == k2 && d1 == d2
  {
    if k1 < k2 {
      TailHasNoColon(name[3 + k1..], d1);
      SliceIndex(name, 1 + k2, 3 + k2, 2 + k2);
      SliceIndex(name, 3 + k1, |name|, 2 + k2);
    } else if k2 < k1 {
      TailHasNoColon(name[3 + k2..], d2);
      SliceIndex(name, 1 + k1, 3 + k1, 2 + k1);
      SliceIndex(name, 3 + k2, |name|, 2 + k1);
    } else {
      var t := name[3 + k1..];
      assert MatchTail(t) == Some(d1) && MatchTail(t) == Some(d2);
    }
  }

  /** The backtracking search of the lazy group `(.*?)`: try a label of k
      characters, and if the rest does not match, one more character, as
      long as that character is not a newline. */
  function LazyLabel(name: string, k: nat): (r: Option<DatedItem>)
    requires 1 + k <= |name| && name[0] == '"' && '\n' !in name[1..1 + k]
    decreases |name| - k
    ensures r.Some? ==>
      var n := |r.value.text|;
      k <= n && MatchesWith(name, n, r.value.date) && r.value.text == name[1..1 + n]
    ensures forall k', d :: k <= k' && MatchesWith(name, k', d) ==>
      r.Some? && |r.value.text| <= k'
  {
    var tail := if 3 + k <= |name| && name[1 + k..3 + k] == "\":" then MatchTail(name[3 + k..]) else None;
    LabelAt(name, k, tail);
    if tail.Some? then
      Some(DatedItem(name[1..1 + k], tail.value))
    else if 1 + k < |name| && name[1 + k] != '\n' then
      LabelGrows(name, k);
      var r := LazyLabel(name, k + 1);
      LabelSkips(name, k, r);
      r
    else
      LabelStops(name, k);
      None
  }

  /** What trying a label of exactly k characters decides. */
  lemma LabelAt(name: string, k: nat, tail: Option<string>)
    requires 1 + k <= |name| && name[0] == '"' && '\n' !in name[1..1 + k]
    requires tail == if 3 + k <= |name| && name[1 + k..3 + k] == "\":" then MatchTail(name[3 + k..]) else None
    ensures tail.Some? ==> MatchesWith(name, k, tail.value)
    ensures forall d :: MatchesWith(name, k, d) ==> tail == Some(d)
  {
  }

  /** A label one character longer is still free of newlines. */
  lemma LabelGrows(name: string, k: nat)
    requires 1 + k < |name| && '\n' !in name[1..1 + k] && name[1 + k] != '\n'
    ensures '\n' !in name[1..2 + k]
  {
    assert name[1..2 + k] == name[1..1 + k] + [name[1 + k]];
  }

  /** When no label of k characters fits, the answer for labels of at
      least k + 1 characters is the answer for labels of at least k. */
  lemma LabelSkips(name: string, k: nat, r: Option<DatedItem>)
    requires forall d :: !MatchesWith(name, k, d)
    requires forall k', d :: k + 1 <= k' && MatchesWith(name, k', d) ==> r.Some? && |r.value.text| <= k'
    ensures forall k', d :: k <= k' && MatchesWith(name, k', d) ==> r.Some? && |r.value.text| <= k'
  {
  }

  /** At a newline, or at the end of the name, no longer label exists. */
  lemma LabelStops(name: string, k: nat)
    requires 1 + k <= |name|
    requires 1 + k == |name| || name[1 + k] == '\n'
    ensures forall k': nat, d :: MatchesWith(name, k', d) ==> k' <= k
  {
    forall k': nat, d | MatchesWith(name, k', d)
      ensures k' <= k
    {
      SliceIndex(name, 1, 1 + k', 1 + k);
    }
  }

  /** `re.search(pattern, name)`, returning groups 1 and 2 when it matches.
      The match exists exactly when some split of the name fits the pattern;
      group 1 is the shortest label that fits (the only one, by
      SplitIsUnique) and group 2 the date that goes with it, ten characters
      in `YYYY/MM/DD` shape. Group 2 is never missing from a match. */
  function MatchDated(name: string): (r: Option<DatedItem>)
    ensures r.Some? ==>
      var n := |r.value.text|;
      MatchesWith(name, n, r.value.date) && r.value.text == name[1..1 + n] &&
      IsDate(r.value.date)
    ensures forall k, d :: MatchesWith(name, k, d) ==> r.Some? && |r.value.text| <= k
  {
    if |name| >= 1 && name[0] == '"' then LazyLabel(name, 0) else None
  }

  /** A matched tail holds a digit: the first character of its date. */
  lemma TailHasDigit(t: string, d: string)
    requires TailMatches(t, d)
    ensures exists i :: 0 <= i < |t| && IsDigit(t[i])
  {
    var w, q :| AllSpaceOrQuote(w) && IsDate(d) && QuotesToEnd(q) && t == w + d + q;
    SplitIndex(t, w, d, q);
    assert IsDigit(t[|w|]);
  }

  /** Only a name that holds a digit can match. */
  lemma MatchHasDigit(name: string)
    ensures MatchDated(name).Some? ==> exists i :: 0 <= i < |name| && IsDigit(name[i])
  {
    if MatchDated(name).Some? {
      var n := |MatchDated(name).value.text|;
      var t := name[3 + n..];
      TailHasDigit(t, MatchDated(name).value.date);
      var i :| 0 <= i < |t| && IsDigit(t[i]);
      SliceIndex(name, 3 + n, |name|, 3 + n + i);
    }
  }

  /** A quoted label without a newline, a colon, a space and a date: the
      match gives back exactly that label and that date, whatever the label
      holds, since the split is unique. */
  lemma LabelledDate(text: string, d: string)
    requires '\n' !in text && IsDate(d)
    ensures MatchDated(['"'] + text + ['"', ':', ' '] + d) == Some(DatedItem(text, d))
  {
    var name := ['"'] + text + ['"', ':', ' '] + d;
    var k := |text|;
    assert name[1..1 + k] == text;
    assert name[1 + k..3 + k] == "\":";
    assert name[3 + k..] == " " + d + "";
    assert AllSpaceOrQuote(" ") && QuotesToEnd("");
    assert MatchesWith(name, k, d);
    var r := MatchDated(name);
    SplitIsUnique(name, |r.value.text|, r.value.date, k, d);
  }

  /** Scenario: a filled-in consent date is captured with its label. */
  lemma ConsentFormDated()
    ensures MatchDated("\"Consent Form\": 2023/04/01") == Some(DatedItem("Consent Form", "2023/04/01"))
  {
    assert "\"Consent Form\": 2023/04/01" == ['"'] + "Consent Form" + ['"', ':', ' '] + "2023/04/01";
    LabelledDate("Consent Form", "2023/04/01");
  }

  /** A name without a digit never matches. */
  lemma NoDigitNoMatch(name: string)
    requires forall i :: 0 <= i < |name| ==> !IsDigit(name[i])
    ensures MatchDated(name) == None
  {
    MatchHasDigit(name);
  }

  /** An unfilled `YYYY/MM/DD` template after a label without digits
      gives no match: the pattern has no placeholder alternative. */
  lemma PlaceholderDoesNotMatch(text: string)
    requires forall i :: 0 <= i < |text| ==> !IsDigit(text[i])
    ensures MatchDated(['"'] + text + ['"', ':', ' '] + "YYYY/MM/DD") == None
  {
    var name := ['"'] + text + ['"', ':', ' '] + "YYYY/MM/DD";
    forall i | 0 <= i < |name|
      ensures !IsDigit(name[i])
    {
      if 1 <= i < 1 + |text| {
        assert name[i] == text[i - 1];
      }
    }
    NoDigitNoMatch(name);
  }

  /** Scenarios: a name in no quoted form, and the consent template whose
      date was never filled in, give no match. */
  lemma UndatedNamesDoNotMatch()
    ensures MatchDated("Reviewed by PI") == None
    ensures MatchDated("\"Consent Form\": YYYY/MM/DD") == None
  {
    assert "\"Consent Form\": YYYY/MM/DD" == ['"'] + "Consent Form" + ['"', ':', ' '] + "YYYY/MM/DD";
    PlaceholderDoesNotMatch("Consent Form");
  }
}
