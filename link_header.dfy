/** The commit-count heuristic of the repository enhancement
    (src/app/api/github/route.ts:95-102): one commit is requested per page,
    so the page number of the `rel="last"` link in the Web Linking header
    (RFC 8288, section 3) approximates the number of commits. The source
    reads it with the regular expression `page=(\d+)>; rel="last"`. */
module LinkHeader {
  import opened Wrappers
  import opened Text

  const PagePrefix := "page="
  const LastSuffix := ">; rel=\"last\""

  /** The capture group of the expression when a match starts at `i`. Since
      `>` is not a digit, a match must take the whole run of digits after
      `page=`, so the greedy `\d+` never has to give any back. */
  function MatchAt(s: string, i: nat): Option<string>
    requires i <= |s|
  {
    if !StartsWith(s[i..], PagePrefix) then None
    else
      var digits := DigitRun(s[i + 5..]);
      if digits != [] && StartsWith(s[i + 5 + |digits|..], LastSuffix) then Some(digits) else None
  }

  /** The regular expression's own meaning: `page=`, then one or more digits
      ending at `j`, then `>; rel="last"`. */
  ghost predicate RegexMatch(s: string, i: nat, j: nat) {
    && i + 5 < j <= |s|
    && s[i..i + 5] == PagePrefix
    && AllDigits(s[i + 5..j])
    && StartsWith(s[j..], LastSuffix)
  }

  /** MatchAt finds a match exactly where the expression matches, and
      captures what the expression captures. */
  lemma MatchAtIsRegexMatch(s: string, i: nat)
    requires i <= |s|
    ensures MatchAt(s, i).Some? <==> exists j: nat :: RegexMatch(s, i, j)
    ensures forall j: nat :: RegexMatch(s, i, j) ==> MatchAt(s, i) == Some(s[i + 5..j])
  {
    var rest := s[i..];
    if i + 5 <= |s| {
      var tail := s[i + 5..];
      DigitRunIsLongestDigitPrefix(tail);
      var d := DigitRun(tail);
      forall j: nat | RegexMatch(s, i, j)
        ensures MatchAt(s, i) == Some(s[i + 5..j])
      {
        assert s[i..][..5] == s[i..i + 5];
        var c := s[i + 5..j];
        assert tail == c + s[j..];
        assert s[j..][0] == '>';
        DigitRunOfDigitsThen(c, s[j..]);
        assert i + 5 + |d| == j;
      }
      if MatchAt(s, i).Some? {
        assert s[i..][..5] == s[i..i + 5];
        assert s[i + 5..i + 5 + |d|] == d;
        assert RegexMatch(s, i, i + 5 + |d|);
      }
    }
  }

  /** The leftmost match at or after `i`. */
  function FirstMatch(s: string, i: nat): Option<string>
    requires i <= |s|
    decreases |s| - i
  {
    if MatchAt(s, i).Some? then MatchAt(s, i)
    else if i == |s| then None
    else FirstMatch(s, i + 1)
  }

  lemma {:induction false} FirstMatchIsLeftmost(s: string, i: nat)
    requires i <= |s|
    ensures FirstMatch(s, i).None? ==> forall k :: i <= k <= |s| ==> MatchAt(s, k).None?
    ensures FirstMatch(s, i).Some? ==>
              exists k :: i <= k <= |s| && MatchAt(s, k) == FirstMatch(s, i)
                          && forall m :: i <= m < k ==> MatchAt(s, m).None?
    decreases |s| - i
  {
    if MatchAt(s, i).None? && i < |s| {
      FirstMatchIsLeftmost(s, i + 1);
      if FirstMatch(s, i).Some? {
        var k :| i + 1 <= k <= |s| && MatchAt(s, k) == FirstMatch(s, i + 1)
                 && forall m :: i + 1 <= m < k ==> MatchAt(s, m).None?;
        assert forall m :: i <= m < k ==> MatchAt(s, m).None?;
      }
    }
  }

  /** The leftmost match of the expression is what the search returns, and
      when the expression matches nowhere the search finds nothing. */
  lemma FirstMatchIsRegexCapture(s: string)
    ensures (forall i: nat, j: nat :: !RegexMatch(s, i, j)) ==> FirstMatch(s, 0).None?
    ensures forall i: nat, j: nat ::
              RegexMatch(s, i, j) && (forall m: nat, k: nat :: m < i ==> !RegexMatch(s, m, k)) ==>
                FirstMatch(s, 0) == Some(s[i + 5..j])
  {
    FirstMatchIsLeftmost(s, 0);
    if FirstMatch(s, 0).Some? {
      var k :| 0 <= k <= |s| && MatchAt(s, k) == FirstMatch(s, 0) && forall m :: 0 <= m < k ==> MatchAt(s, m).None?;
      MatchAtIsRegexMatch(s, k);
    }
    forall i: nat, j: nat | RegexMatch(s, i, j) && (forall m: nat, k: nat :: m < i ==> !RegexMatch(s, m, k))
      ensures FirstMatch(s, 0) == Some(s[i + 5..j])
    {
      MatchAtIsRegexMatch(s, i);
      forall m | 0 <= m < i
        ensures MatchAt(s, m).None?
      {
        MatchAtIsRegexMatch(s, m);
      }
      assert FirstMatch(s, 0).Some?;
      var k :| 0 <= k <= |s| && MatchAt(s, k) == FirstMatch(s, 0) && forall m :: 0 <= m < k ==> MatchAt(s, m).None?;
      assert k == i;
    }
  }

  /** `commitsCount`: the decimal value captured by the leftmost match in the
      `link` header of a successful reply, and 0 when the reply failed, the
      header is absent or nothing matches. */
  function CommitsCount(ok: bool, link: Option<string>): (c: nat)
    ensures !ok || link.None? ==> c == 0
    ensures ok && link.Some? && (forall i: nat, j: nat :: !RegexMatch(link.value, i, j)) ==> c == 0
    ensures ok && link.Some? ==>
              forall i: nat, j: nat ::
                RegexMatch(link.value, i, j) && (forall m: nat, k: nat :: m < i ==> !RegexMatch(link.value, m, k)) ==>
                  c == DecimalValue(link.value[i + 5..j])
  {
    if !ok || link.None? then 0
    else
      FirstMatchIsRegexCapture(link.value);
      match FirstMatch(link.value, 0)
      case None => 0
      case Some(digits) => DecimalValue(digits)
  }

  /** The count reads back the page number of the first `rel="last"` link. */
  lemma CommitsCountOfLastLink(before: string, n: nat, after: string)
    requires var h := before + PagePrefix + NatToString(n) + LastSuffix + after;
             forall k :: 0 <= k < |before| ==> MatchAt(h, k).None?
    ensures CommitsCount(true, Some(before + PagePrefix + NatToString(n) + LastSuffix + after)) == n
  {
    var digits := NatToString(n);
    var h := before + PagePrefix + digits + LastSuffix + after;
    var i := |before|;
    assert h[i..] == PagePrefix + digits + LastSuffix + after;
    assert h[i + 5..] == digits + (LastSuffix + after);
    DigitRunOfDigitsThen(digits, LastSuffix + after);
    assert h[i + 5 + |digits|..] == LastSuffix + after;
    assert MatchAt(h, i) == Some(digits);
    FirstMatchIsLeftmost(h, 0);
  }
}
