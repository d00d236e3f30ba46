/** The wildcard matcher of src-core/src/cost.rs:49-78: one pass with a single remembered star. */
module Glob {
  import opened Basics
  import opened Bytes

  const STAR: byte := 42

  /** Whether pattern[i..] matches value[j..]: a star stands for any bytes, any other byte
      for itself. */
  predicate Matches(pattern: seq<byte>, value: seq<byte>, i: nat, j: nat)
    requires i <= |pattern| && j <= |value|
    decreases |pattern| - i, |value| - j
  {
    if i == |pattern| then j == |value|
    else if pattern[i] == STAR then Matches(pattern, value, i + 1, j) || (j < |value| && Matches(pattern, value, i, j + 1))
    else j < |value| && pattern[i] == value[j] && Matches(pattern, value, i + 1, j + 1)
  }

  predicate OnlyStars(pattern: seq<byte>, i: nat) { forall k :: i <= k < |pattern| ==> pattern[k] == STAR }

  /** Where the loop stands: the last star it met and the value position that star's
      current attempt began at. */
  predicate Standing(pattern: seq<byte>, value: seq<byte>, i: nat, j: nat, star: Option<nat>, retry: nat) {
    i <= |pattern| && j <= |value| && (star.Some? ==> star.value < i && pattern[star.value] == STAR && retry <= j)
  }

  /** The loop's answer from a standing. A byte that equals the pattern's is taken before the
      pattern's byte is looked at as a star. */
  predicate Greedy(pattern: seq<byte>, value: seq<byte>, i: nat, j: nat, star: Option<nat>, retry: nat)
    requires Standing(pattern, value, i, j, star, retry)
    decreases if star.Some? then |pattern| - star.value else |pattern| + 1,
              if star.Some? then |value| - retry else 0, |pattern| - i + |value| - j
  {
    if j == |value| then OnlyStars(pattern, i)
    else if i < |pattern| && pattern[i] == value[j] then Greedy(pattern, value, i + 1, j + 1, star, retry)
    else if i < |pattern| && pattern[i] == STAR then Greedy(pattern, value, i + 1, j, Some(i), j)
    else if star.Some? then Greedy(pattern, value, star.value + 1, retry + 1, star, retry + 1)
    else false
  }

  method GlobMatches(pattern: seq<byte>, value: seq<byte>) returns (matched: bool)
    ensures matched == Greedy(pattern, value, 0, 0, None, 0)
  {
    var i: nat, j: nat, retry: nat := 0, 0, 0;
    var star: Option<nat> := None;
    while j < |value|
      invariant Standing(pattern, value, i, j, star, retry)
      invariant Greedy(pattern, value, i, j, star, retry) == Greedy(pattern, value, 0, 0, None, 0)
      decreases if star.Some? then |pattern| - star.value else |pattern| + 1,
                if star.Some? then |value| - retry else 0, |pattern| - i + |value| - j
    {
      if i < |pattern| && pattern[i] == value[j] {
        i := i + 1;
        j := j + 1;
      } else if i < |pattern| && pattern[i] == STAR {
        star := Some(i);
        i := i + 1;
        retry := j;
      } else if star.Some? {
        i := star.value + 1;
        retry := retry + 1;
        j := retry;
      } else {
        return false;
      }
    }
    ghost var from := i;
    while i < |pattern| && pattern[i] == STAR
      invariant from <= i <= |pattern| && forall k :: from <= k < i ==> pattern[k] == STAR
    {
      i := i + 1;
    }
    return i == |pattern|;
  }

  // --------------------------------------------------------------- soundness

  lemma {:induction false} StarsMatchNothing(pattern: seq<byte>, value: seq<byte>, i: nat)
    requires i <= |pattern|
    ensures Matches(pattern, value, i, |value|) <==> OnlyStars(pattern, i)
    decreases |pattern| - i
  {
    if i < |pattern| { StarsMatchNothing(pattern, value, i + 1); }
  }

  /** A star also takes everything before what it takes. */
  lemma {:induction false} StarAbsorbs(pattern: seq<byte>, value: seq<byte>, i: nat, j: nat, k: nat)
    requires i < |pattern| && pattern[i] == STAR && j <= k <= |value| && Matches(pattern, value, i, k)
    ensures Matches(pattern, value, i, j)
    decreases |value| - j
  {
    if j < k { StarAbsorbs(pattern, value, i, j + 1, k); }
  }

  /** The loop says yes only to matches, whatever the value holds. */
  lemma {:induction false} GreedyIsSound(pattern: seq<byte>, value: seq<byte>, i: nat, j: nat, star: Option<nat>, retry: nat)
    requires Standing(pattern, value, i, j, star, retry) && Greedy(pattern, value, i, j, star, retry)
    ensures Matches(pattern, value, i, j) || (star.Some? && Matches(pattern, value, star.value, retry))
    decreases if star.Some? then |pattern| - star.value else |pattern| + 1,
              if star.Some? then |value| - retry else 0, |pattern| - i + |value| - j
  {
    if j == |value| {
      StarsMatchNothing(pattern, value, i);
    } else if i < |pattern| && pattern[i] == value[j] {
      GreedyIsSound(pattern, value, i + 1, j + 1, star, retry);
      if pattern[i] == STAR && Matches(pattern, value, i + 1, j + 1) { assert Matches(pattern, value, i, j + 1); }
    } else if i < |pattern| && pattern[i] == STAR {
      GreedyIsSound(pattern, value, i + 1, j, Some(i), j);
    } else {
      GreedyIsSound(pattern, value, star.value + 1, retry + 1, star, retry + 1);
      if Matches(pattern, value, star.value + 1, retry + 1) { assert Matches(pattern, value, star.value, retry + 1); }
    }
  }

  // ------------------------------------------------------------ completeness

  /** The value holds no star, except perhaps as its last byte. */
  predicate NoInnerStar(value: seq<byte>) { forall j :: 0 <= j < |value| - 1 ==> value[j] != STAR }

  predicate StarFree(pattern: seq<byte>, lo: nat, hi: nat) {
    hi <= |pattern| && forall k :: lo <= k < hi ==> pattern[k] != STAR
  }

  /** Bytes between stars are matched in one piece. */
  lemma {:induction false} LiteralsTake(pattern: seq<byte>, value: seq<byte>, i: nat, to: nat, j: nat)
    requires i <= to && StarFree(pattern, i, to) && j <= |value| && Matches(pattern, value, i, j)
    ensures j + (to - i) <= |value| && Matches(pattern, value, to, j + (to - i))
    decreases |pattern| - i
  {
    if i < to { LiteralsTake(pattern, value, i + 1, to, j + 1); }
  }

  /** A star and the bytes after it use up at least those bytes. */
  lemma {:induction false} AfterLiterals(pattern: seq<byte>, value: seq<byte>, s: nat, to: nat, j: nat) returns (k: nat)
    requires s < to && to <= |pattern| && pattern[s] == STAR && StarFree(pattern, s + 1, to)
    requires j <= |value| && Matches(pattern, value, s, j)
    ensures j + (to - s - 1) <= k <= |value| && Matches(pattern, value, to, k)
    decreases |value| - j
  {
    if Matches(pattern, value, s + 1, j) {
      LiteralsTake(pattern, value, s + 1, to, j);
      k := j + (to - s - 1);
    } else {
      k := AfterLiterals(pattern, value, s, to, j + 1);
    }
  }

  /** A pattern that matches a lone star matches nothing as well. */
  lemma {:induction false} LoneStarIsNothing(pattern: seq<byte>, value: seq<byte>, i: nat)
    requires i <= |pattern| && value != [] && value[|value| - 1] == STAR && Matches(pattern, value, i, |value| - 1)
    ensures Matches(pattern, value, i, |value|)
    decreases |pattern| - i
  {
    if i < |pattern| && Matches(pattern, value, i + 1, |value| - 1) { LoneStarIsNothing(pattern, value, i + 1); }
  }

  /** The attempt behind the last star has matched its bytes one by one; only the value's
      last byte may have been a star taken for itself. */
  predicate Attempt(pattern: seq<byte>, value: seq<byte>, i: nat, j: nat, star: Option<nat>, retry: nat)
    requires Standing(pattern, value, i, j, star, retry)
  {
    star.Some? ==>
      && i - star.value - 1 == j - retry
      && (StarFree(pattern, star.value + 1, i)
          || (j == |value| && i > star.value + 1 && pattern[i - 1] == STAR && StarFree(pattern, star.value + 1, i - 1)))
  }

  /** Giving the last star one more byte. */
  predicate Longer(pattern: seq<byte>, value: seq<byte>, star: Option<nat>, retry: nat)
  {
    star.Some? && star.value < |pattern| && retry < |value| && Matches(pattern, value, star.value, retry + 1)
  }

  /** When the attempt reaches the end of the value, a longer star cannot help. */
  lemma EndSettles(pattern: seq<byte>, value: seq<byte>, i: nat, star: Option<nat>, retry: nat)
    requires Standing(pattern, value, i, |value|, star, retry) && Attempt(pattern, value, i, |value|, star, retry)
    ensures Longer(pattern, value, star, retry) ==> Matches(pattern, value, i, |value|)
  {
    if Longer(pattern, value, star, retry) && !StarFree(pattern, star.value + 1, i) {
      var k := AfterLiterals(pattern, value, star.value, i - 1, retry + 1);
      assert k == |value|;
    } else if Longer(pattern, value, star, retry) {
      var k := AfterLiterals(pattern, value, star.value, i, retry + 1);
      assert false;
    }
  }

  /** At a new star the old one can be forgotten. */
  lemma NewStarSettles(pattern: seq<byte>, value: seq<byte>, i: nat, j: nat, star: Option<nat>, retry: nat)
    requires Standing(pattern, value, i, j, star, retry) && Attempt(pattern, value, i, j, star, retry)
    requires i < |pattern| && pattern[i] == STAR && j < |value|
    ensures Longer(pattern, value, star, retry) ==> Matches(pattern, value, i, j)
  {
    if Longer(pattern, value, star, retry) {
      var k := AfterLiterals(pattern, value, star.value, i, retry + 1);
      StarAbsorbs(pattern, value, i, j, k);
    }
  }

  lemma {:induction false} GreedyDecides(pattern: seq<byte>, value: seq<byte>, i: nat, j: nat, star: Option<nat>, retry: nat)
    requires NoInnerStar(value)
    requires Standing(pattern, value, i, j, star, retry) && Attempt(pattern, value, i, j, star, retry)
    ensures Greedy(pattern, value, i, j, star, retry)
        <==> Matches(pattern, value, i, j) || Longer(pattern, value, star, retry)
    decreases if star.Some? then |pattern| - star.value else |pattern| + 1,
              if star.Some? then |value| - retry else 0, |pattern| - i + |value| - j
  {
    if j == |value| {
      StarsMatchNothing(pattern, value, i);
      EndSettles(pattern, value, i, star, retry);
    } else if i < |pattern| && pattern[i] == value[j] {
      GreedyDecides(pattern, value, i + 1, j + 1, star, retry);
      if pattern[i] == STAR && Matches(pattern, value, i + 1, j) { LoneStarIsNothing(pattern, value, i + 1); }
    } else if i < |pattern| && pattern[i] == STAR {
      GreedyDecides(pattern, value, i + 1, j, Some(i), j);
      NewStarSettles(pattern, value, i, j, star, retry);
    } else if star.Some? {
      GreedyDecides(pattern, value, star.value + 1, retry + 1, star, retry + 1);
    }
  }

  // --------------------------------------------------- exactly when it is right

  lemma {:induction false} LiteralPrefixWalk(pattern: seq<byte>, value: seq<byte>, k: nat, n: nat)
    requires k <= n <= |pattern| && n <= |value|
    requires forall x :: 0 <= x < n ==> pattern[x] == value[x] && pattern[x] != STAR
    ensures Greedy(pattern, value, k, k, None, 0) == Greedy(pattern, value, n, n, None, 0)
    ensures Matches(pattern, value, k, k) == Matches(pattern, value, n, n)
    decreases |pattern| - k
  {
    if k < n { LiteralPrefixWalk(pattern, value, k + 1, n); }
  }

  /** The value "..*x..." against the pattern "..*": the star is spent on its namesake. */
  lemma InnerStarDefeats(value: seq<byte>, n: nat) returns (pattern: seq<byte>)
    requires n < |value| - 1 && value[n] == STAR && forall x :: 0 <= x < n ==> value[x] != STAR
    ensures Matches(pattern, value, 0, 0) && !Greedy(pattern, value, 0, 0, None, 0)
  {
    pattern := value[..n] + [STAR];
    LiteralPrefixWalk(pattern, value, 0, n);
    StarsMatchNothing(pattern, value, n);
    StarAbsorbs(pattern, value, n, n, |value|);
    assert !Greedy(pattern, value, n + 1, n + 1, None, 0);
  }

  lemma FirstStar(value: seq<byte>) returns (n: nat)
    requires !NoInnerStar(value)
    ensures n < |value| - 1 && value[n] == STAR && forall x :: 0 <= x < n ==> value[x] != STAR
  {
    n := 0;
    while value[n] != STAR
      invariant n < |value| - 1 && forall x :: 0 <= x < n ==> value[x] != STAR
      decreases |value| - n
    {
      var j :| 0 <= j < |value| - 1 && value[j] == STAR;
      n := n + 1;
    }
  }

  /** The matcher decides every pattern correctly on a value exactly when the value has no
      star before its last byte. */
  lemma RightExactlyWithoutInnerStar(value: seq<byte>)
    ensures NoInnerStar(value) <==>
      forall pattern: seq<byte> :: Greedy(pattern, value, 0, 0, None, 0) == Matches(pattern, value, 0, 0)
  {
    if NoInnerStar(value) {
      forall pattern: seq<byte> ensures Greedy(pattern, value, 0, 0, None, 0) == Matches(pattern, value, 0, 0) {
        GreedyDecides(pattern, value, 0, 0, None, 0);
      }
    } else {
      var n := FirstStar(value);
      var pattern := InnerStarDefeats(value, n);
    }
  }
}
