/** Reading the planner's reported execution time back out of its console output: the
    pattern `execTime:.(\d*\.*\d*)` searched line by line, the first line with a match winning. */
module ExecTime {
  import opened Wrappers
  import opened Decimal

  /** The literal text the pattern starts with. */
  const Key: string := "execTime:"

  /** The message the harness stops with when no line carries a time. */
  const NoTimeMessage: string := "Could not extract the execution time"

  /** The pattern's literal part matches at index p and is followed by the one character
      that `.` consumes (any character but a line feed). */
  predicate MatchesAt(l: string, p: nat)
  {
    p + |Key| < |l| && l[p..p + |Key|] == Key && l[p + |Key|] != '\n'
  }

  /** The end of the run of dots starting at k: every character before it is a dot, and the
      one at it (if any) is not. */
  function DotsEnd(s: string, k: nat): (e: nat)
    requires k <= |s|
    ensures k <= e <= |s|
    ensures forall j :: k <= j < e ==> s[j] == '.'
    ensures e == |s| || s[e] != '.'
    decreases |s| - k
  {
    if k < |s| && s[k] == '.' then DotsEnd(s, k + 1) else k
  }

  /** A run of dots from i that stops at j is the one DotsEnd finds. */
  lemma {:induction false} DotsEndAt(s: string, i: nat, j: nat)
    requires i <= j <= |s|
    requires forall k :: i <= k < j ==> s[k] == '.'
    requires j == |s| || s[j] != '.'
    ensures DotsEnd(s, i) == j
    decreases j - i
  {
    if i < j {
      DotsEndAt(s, i + 1, j);
    }
  }

  /** The group `\d*\.*\d*` from index q: the greedy digits, then dots, then digits. */
  function NumberToken(l: string, q: nat): (t: string)
    requires q <= |l|
    ensures q + |t| <= |l| && t == l[q..q + |t|]
    ensures q + |t| == |l| || !IsDigit(l[q + |t|])
  {
    var a := DigitsEnd(l, q);
    var b := DotsEnd(l, a);
    l[q..DigitsEnd(l, b)]
  }

  /** re.search from index p on: the group of the leftmost match, or None. */
  function SearchFrom(l: string, p: nat): (r: Option<string>)
    ensures r.None? <==> forall q: nat :: p <= q ==> !MatchesAt(l, q)
    decreases |l| - p
  {
    if |l| <= p + |Key| then None
    else if MatchesAt(l, p) then Some(NumberToken(l, p + |Key| + 1))
    else SearchFrom(l, p + 1)
  }

  /** re.search over a whole line. */
  function Search(l: string): (r: Option<string>)
    ensures r.None? <==> forall q: nat :: !MatchesAt(l, q)
  {
    SearchFrom(l, 0)
  }

  /** The search reports the group of the leftmost match. */
  lemma {:induction false} SearchFromLeftmost(l: string, p: nat)
    ensures SearchFrom(l, p).Some? ==>
      exists m :: p <= m && MatchesAt(l, m) && (forall q :: p <= q < m ==> !MatchesAt(l, q)) &&
        SearchFrom(l, p).value == NumberToken(l, m + |Key| + 1)
    decreases |l| - p
  {
    if |l| <= p + |Key| {
    } else if MatchesAt(l, p) {
      assert MatchesAt(l, p);
    } else {
      SearchFromLeftmost(l, p + 1);
      if SearchFrom(l, p + 1).Some? {
        var m :| p + 1 <= m && MatchesAt(l, m) && (forall q :: p + 1 <= q < m ==> !MatchesAt(l, q)) &&
          SearchFrom(l, p + 1).value == NumberToken(l, m + |Key| + 1);
        assert forall q :: p <= q < m ==> !MatchesAt(l, q);
      }
    }
  }

  predicate AllDigits(s: string)
  {
    forall k :: 0 <= k < |s| ==> IsDigit(s[k])
  }

  predicate AllDots(s: string)
  {
    forall k :: 0 <= k < |s| ==> s[k] == '.'
  }

  /** The group is a run of digits, then a run of dots, then a run of digits. */
  lemma TokenShape(l: string, q: nat)
    requires q <= |l|
    ensures exists whole, dots, fraction ::
              NumberToken(l, q) == whole + dots + fraction &&
              AllDigits(whole) && AllDots(dots) && AllDigits(fraction)
  {
    var a := DigitsEnd(l, q);
    var b := DotsEnd(l, a);
    var c := DigitsEnd(l, b);
    assert l[q..c] == l[q..a] + l[a..b] + l[b..c];
    assert AllDigits(l[q..a]) && AllDots(l[a..b]) && AllDigits(l[b..c]);
  }

  /** A time written as digits, one dot and digits, and not followed by a further digit, is
      the whole group: the greedy runs take all of it. */
  lemma NumberTokenReadsTime(l: string, q: nat, whole: string, frac: string)
    requires whole != [] && frac != [] && AllDigits(whole) && AllDigits(frac)
    requires q + |whole| + 1 + |frac| <= |l|
    requires l[q..q + |whole| + 1 + |frac|] == whole + "." + frac
    requires q + |whole| + 1 + |frac| == |l| || !IsDigit(l[q + |whole| + 1 + |frac|])
    ensures NumberToken(l, q) == whole + "." + frac
  {
    var a := q + |whole|;
    var c := a + 1 + |frac|;
    assert forall k :: q <= k < a ==> l[k] == whole[k - q];
    assert l[a] == '.';
    assert forall k :: a + 1 <= k < c ==> l[k] == frac[k - a - 1];
    DigitsEndAt(l, q, a);
    DotsEndAt(l, a, a + 1);
    DigitsEndAt(l, a + 1, c);
  }

  /** A line that starts with the key, one character other than a line feed, and such a time
      yields that time. */
  lemma LineReadsTime(c: char, whole: string, frac: string, rest: string)
    requires c != '\n'
    requires whole != [] && frac != [] && AllDigits(whole) && AllDigits(frac)
    requires rest == [] || !IsDigit(rest[0])
    ensures Search(Key + [c] + whole + "." + frac + rest) == Some(whole + "." + frac)
  {
    var l := Key + [c] + whole + "." + frac + rest;
    var q := |Key| + 1;
    assert l[..|Key|] == Key;
    assert MatchesAt(l, 0);
    assert l[q..q + |whole| + 1 + |frac|] == whole + "." + frac;
    NumberTokenReadsTime(l, q, whole, frac);
  }

  /** The one character after the colon is always consumed, so a time written with no space
      loses its first digit. */
  lemma FirstDigitSwallowed()
    ensures Search("execTime:12") == Some("2")
  {
    var l := "execTime:12";
    assert MatchesAt(l, 0) by { assert l[0..9] == Key; }
    assert DigitsEnd(l, 10) == 11;
    assert DotsEnd(l, 11) == 11;
    assert l[10..11] == "2";
  }

  /** With the usual separating space, the whole time is read. */
  lemma SpacedTimeRead()
    ensures Search("execTime: 12.34") == Some("12.34")
  {
    var l := "execTime: 12.34";
    assert MatchesAt(l, 0) by { assert l[0..9] == Key; }
    DigitsEndAt(l, 10, 12);
    assert DotsEnd(l, 12) == 13;
    DigitsEndAt(l, 13, 15);
    assert l[10..15] == "12.34";
  }

  /** The token of the first line, in order, on which the pattern matches. */
  function FirstExecTime(lines: seq<string>): (r: Option<string>)
    ensures r.None? <==> forall k :: 0 <= k < |lines| ==> Search(lines[k]).None?
    ensures r.Some? ==> exists k :: 0 <= k < |lines| && Search(lines[k]) == r
  {
    if lines == [] then None
    else if Search(lines[0]).Some? then Search(lines[0])
    else FirstExecTime(lines[1..])
  }

  /** extractExecTime: the first line, in order, on which the pattern matches gives the
      token; when none does, the harness fails with its message. Converting the token to a
      number is left to the caller. */
  method ExtractExecTime(lines: seq<string>) returns (res: Result<string, string>)
    ensures res.Ok? ==>
              exists k :: 0 <= k < |lines| && Search(lines[k]) == Some(res.value) &&
                          forall k' :: 0 <= k' < k ==> Search(lines[k']).None?
    ensures res.Err? ==> res.error == NoTimeMessage && forall k :: 0 <= k < |lines| ==> Search(lines[k]).None?
    ensures res == if FirstExecTime(lines).Some? then Ok(FirstExecTime(lines).value) else Err(NoTimeMessage)
  {
    var k := 0;
    while k < |lines|
      invariant 0 <= k <= |lines|
      invariant forall k' :: 0 <= k' < k ==> Search(lines[k']).None?
      invariant FirstExecTime(lines[k..]) == FirstExecTime(lines)
    {
      var m := Search(lines[k]);
      if m.Some? {
        return Ok(m.value);
      }
      assert lines[k..][1..] == lines[k + 1..];
      k := k + 1;
    }
    return Err(NoTimeMessage);
  }
}
