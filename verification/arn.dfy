/** Region extraction from a Lambda function ARN (lambda/index.py:11-16).

    The source runs the regular expression `arn:aws:lambda:([^:]+):` with a
    leftmost search and returns the captured group, or "us-east-1" when the
    expression matches nowhere. Here a match is stated declaratively
    (IsMatch), the search is a scan over start positions, and the lemmas show
    that the scan finds the leftmost match and that this match is unique. */
module Arn {
  import opened Common

  const LambdaPrefix: string := "arn:aws:lambda:"
  const DefaultRegion: string := "us-east-1"

  /** The expression matches `s` at start position `i` with group `r`: the
      text `LambdaPrefix + r + ":"` occurs at `i`, and `r` is a non-empty run
      of non-colon characters. */
  ghost predicate IsMatch(s: string, i: nat, r: string) {
    |r| > 0 && ':' !in r &&
    i + |LambdaPrefix| + |r| + 1 <= |s| &&
    s[i .. i + |LambdaPrefix| + |r| + 1] == LambdaPrefix + r + ":"
  }

  /** `re.search` reports the match with the smallest start position. */
  ghost predicate IsLeftmostMatch(s: string, i: nat, r: string) {
    IsMatch(s, i, r) && forall j: nat, q :: j < i ==> !IsMatch(s, j, q)
  }

  /** `arn:aws:lambda:` occurs at position `i`. */
  ghost predicate PrefixAt(s: string, i: nat) {
    i + |LambdaPrefix| <= |s| && s[i .. i + |LambdaPrefix|] == LambdaPrefix
  }

  ghost predicate HasMatch(s: string) {
    exists i: nat, r :: IsMatch(s, i, r)
  }

  /** End of the run of non-colon characters that starts at `k`: the index
      of the first colon at or after `k`, or `|s|` if there is none. This is
      what the greedy `[^:]+` consumes. */
  function RunEnd(s: string, k: nat): (e: nat)
    requires k <= |s|
    ensures k <= e <= |s|
    ensures forall p :: k <= p < e ==> s[p] != ':'
    ensures e < |s| ==> s[e] == ':'
    decreases |s| - k
  {
    if k == |s| || s[k] == ':' then k else RunEnd(s, k + 1)
  }

  /** The match attempt at one start position: the prefix, then a maximal
      non-empty run of non-colon characters, then a colon. Backtracking into
      a shorter run never helps, since the character after a shorter run is
      not a colon. */
  function MatchAt(s: string, i: nat): (m: Option<string>)
    ensures forall r :: IsMatch(s, i, r) <==> m == Some(r)
  {
    var k := i + |LambdaPrefix|;
    assert forall q :: IsMatch(s, i, q) ==>
        k <= |s| && s[i .. k] == LambdaPrefix && k < RunEnd(s, k) < |s| && q == s[k .. RunEnd(s, k)] by {
      forall q | IsMatch(s, i, q)
        ensures k <= |s| && s[i .. k] == LambdaPrefix && k < RunEnd(s, k) < |s| && q == s[k .. RunEnd(s, k)]
      {
        MatchedRunIsMaximal(s, i, q);
      }
    }
    if k <= |s| && s[i .. k] == LambdaPrefix then
      var e := RunEnd(s, k);
      if k < e < |s| then
        var r := s[k .. e];
        assert s[i .. e + 1] == LambdaPrefix + r + ":" by {
          assert s[i .. e + 1] == s[i .. k] + s[k .. e] + s[e .. e + 1];
        }
        assert ':' !in r by {
          forall c | c in r ensures c != ':' {
            var p :| 0 <= p < |r| && r[p] == c;
            assert s[k + p] == c;
          }
        }
        Some(r)
      else
        None
    else
      None
  }

  /** Any group that matches at `i` is exactly the run that RunEnd measures. */
  lemma MatchedRunIsMaximal(s: string, i: nat, r: string)
    requires IsMatch(s, i, r)
    ensures i + |LambdaPrefix| <= |s| && s[i .. i + |LambdaPrefix|] == LambdaPrefix
    ensures RunEnd(s, i + |LambdaPrefix|) == i + |LambdaPrefix| + |r| < |s|
    ensures r == s[i + |LambdaPrefix| .. i + |LambdaPrefix| + |r|]
  {
    var k := i + |LambdaPrefix|;
    var whole := LambdaPrefix + r + ":";
    assert s[i .. k] == whole[.. |LambdaPrefix|];
    assert s[k .. k + |r|] == whole[|LambdaPrefix| .. |LambdaPrefix| + |r|];
    assert s[k + |r|] == whole[|LambdaPrefix| + |r|];
    assert forall p :: k <= p < k + |r| ==> s[p] != ':' by {
      forall p | k <= p < k + |r| ensures s[p] != ':' {
        assert s[p] == r[p - k];
      }
    }
  }

  /** The leftmost-match scan of `re.search`, from start position `from` on. */
  function Search(s: string, from: nat): (m: Option<(nat, string)>)
    ensures m.Some? ==> from <= m.value.0 && IsMatch(s, m.value.0, m.value.1)
    ensures m.Some? ==> forall j: nat, q :: from <= j < m.value.0 ==> !IsMatch(s, j, q)
    ensures m.None? ==> forall j: nat, q :: from <= j ==> !IsMatch(s, j, q)
    decreases |s| - from
  {
    if from >= |s| then
      None
    else
      match MatchAt(s, from)
      case Some(r) => Some((from, r))
      case None => Search(s, from + 1)
  }

  /** `extract_region_from_arn`: the group of the leftmost match, or the
      default region when there is none. */
  function ExtractRegionFromArn(arn: string): (region: string)
    ensures |region| > 0 && ':' !in region
    ensures HasMatch(arn) ==> exists i: nat :: IsLeftmostMatch(arn, i, region)
    ensures !HasMatch(arn) ==> region == DefaultRegion
  {
    match Search(arn, 0)
    case Some((i, r)) =>
      assert IsLeftmostMatch(arn, i, r);
      r
    case None => DefaultRegion
  }

  /** Two leftmost matches are the same match: the region the source returns
      is determined by the input alone. */
  lemma LeftmostMatchUnique(s: string, i: nat, r: string, j: nat, q: string)
    requires IsLeftmostMatch(s, i, r) && IsLeftmostMatch(s, j, q)
    ensures i == j && r == q
  {
    assert i == j;
    MatchedRunIsMaximal(s, i, r);
    MatchedRunIsMaximal(s, i, q);
  }

  /** An ARN that starts with `arn:aws:lambda:<region>:` yields that region,
      whatever follows it (the account id, "function", the function name). */
  lemma RegionOfLambdaArn(region: string, rest: string)
    requires |region| > 0 && ':' !in region
    ensures ExtractRegionFromArn(LambdaPrefix + region + ":" + rest) == region
  {
    var head := LambdaPrefix + region + ":";
    var s := head + rest;
    assert s[0 .. |head|] == head;
    assert IsLeftmostMatch(s, 0, region);
    var found := ExtractRegionFromArn(s);
    var i: nat :| IsLeftmostMatch(s, i, found);
    LeftmostMatchUnique(s, 0, region, i, found);
  }

  /** Where `arn:aws:lambda:` occurs nowhere, the default region is returned,
      whatever else the text holds. */
  lemma DefaultWhenPrefixAbsent(s: string)
    requires forall i: nat :: !PrefixAt(s, i)
    ensures ExtractRegionFromArn(s) == DefaultRegion
  {
    forall i: nat, r | IsMatch(s, i, r) ensures PrefixAt(s, i) {
      MatchedRunIsMaximal(s, i, r);
    }
  }
}
