/** The quorum arithmetic on which the vote machine rests. */
module Quorum {
  import opened Basics

  /** Votes needed in a committee of `n`. */
  function RequiredVotes(n: nat): nat {
    if n <= 1 then 1 else 2 * n / 3 + 1
  }

  /** The number of arbitrary members a committee of `n` is built to survive. */
  function MaxFaulty(n: nat): nat
    requires n >= 1
  {
    (n - 1) / 3
  }

  /** The quorum is the largest one that the correct members can fill on their
      own, and two quorums overlap in more members than can be faulty. */
  lemma RequiredVotesBalances(n: nat)
    requires n >= 1
    ensures RequiredVotes(n) == n - MaxFaulty(n)
    ensures 2 * RequiredVotes(n) - n >= MaxFaulty(n) + 1
  {
    if n >= 2 {
      var k, r := n / 3, n % 3;
      assert n == 3 * k + r;
      if r == 0 {
        assert 2 * n / 3 == 2 * k && (n - 1) / 3 == k - 1;
      } else if r == 1 {
        assert 2 * n / 3 == 2 * k && (n - 1) / 3 == k;
      } else {
        assert 2 * n / 3 == 2 * k + 1 && (n - 1) / 3 == k;
      }
    }
  }

  /** Removing the faulty members from a set of members leaves the rest. */
  lemma CorrectPart<T>(s: set<T>, faulty: set<T>)
    ensures |s - faulty| >= |s| - |faulty|
  {
    SubsetSize(s * faulty, faulty);
    assert s == (s - faulty) + (s * faulty);
  }

  /** Any two quorums of one committee share a correct-majority witness set. */
  lemma QuorumsIntersect<T>(members: set<T>, a: set<T>, b: set<T>)
    requires members != {}
    requires a <= members && b <= members
    requires |a| >= RequiredVotes(|members|) && |b| >= RequiredVotes(|members|)
    ensures |a * b| >= MaxFaulty(|members|) + 1
  {
    RequiredVotesBalances(|members|);
    SubsetSize(a + b, members);
    assert |a + b| == |a| + |b| - |a * b|;
  }
}
