/** What the checks of the goraft handlers mean for two logs: whose log may be voted for, and when the logs of a leader and
    a follower agree after a request. */
module GoraftAgree {
  import opened GoraftDisk
  import opened GoraftMerge
  import opened GoraftServer

  // ---------------------------------------------------------------------------------------
  // Votes

  function LastTerm(log: Log): Word
    requires log != []
  {
    log[|log| - 1].term
  }

  /** The request of a candidate with this log. */
  function VoteRequestOf(log: Log, term: Word, id: Word): VoteRequest
    requires log != []
  {
    VoteRequest(term, id, |log| - 1, LastTerm(log))
  }

  /** A voter with the first log lets a candidate with the second one pass. */
  predicate LetsPass(voter: Log, candidate: Log)
    requires voter != [] && candidate != []
  {
    LogOk(voter, VoteRequestOf(candidate, 0, 0))
  }

  /** A vote is granted for a log only if its last entry is of no earlier term than the voter's, and it is no shorter if the
      terms are the same; and then nothing in the logs stands in the way. */
  lemma VoteNeedsLog(voter: Log, candidate: Log, term: Word, id: Word)
    requires voter != [] && candidate != []
    ensures LogOk(voter, VoteRequestOf(candidate, term, id)) <==>
              && LastTerm(voter) <= LastTerm(candidate)
              && (LastTerm(voter) == LastTerm(candidate) ==> |voter| <= |candidate|)
  {
  }

  /** Of two logs one can be voted for by the other, and both can only if last term and length agree. */
  lemma OneOfTwo(a: Log, b: Log)
    requires a != [] && b != []
    ensures LetsPass(a, b) || LetsPass(b, a)
    ensures LetsPass(a, b) && LetsPass(b, a) <==> LastTerm(a) == LastTerm(b) && |a| == |b|
  {
    VoteNeedsLog(a, b, 0, 0);
    VoteNeedsLog(b, a, 0, 0);
  }

  lemma PassTrans(a: Log, b: Log, c: Log)
    requires a != [] && b != [] && c != [] && LetsPass(a, b) && LetsPass(b, c)
    ensures LetsPass(a, c)
  {
    VoteNeedsLog(a, b, 0, 0);
    VoteNeedsLog(b, c, 0, 0);
    VoteNeedsLog(a, c, 0, 0);
  }

  /** So among any logs there is one that all the others let pass. */
  lemma {:induction false} SomeoneCanWin(logs: seq<Log>) returns (w: nat)
    requires logs != [] && forall i :: 0 <= i < |logs| ==> logs[i] != []
    ensures w < |logs| && forall i :: 0 <= i < |logs| ==> LetsPass(logs[i], logs[w])
  {
    var n := |logs| - 1;
    w := n;
    OneOfTwo(logs[n], logs[n]);
    if n > 0 {
      var v := SomeoneCanWin(logs[..n]);
      OneOfTwo(logs[v], logs[n]);
      if LetsPass(logs[n], logs[v]) {
        w := v;
      }
      forall i | 0 <= i < |logs|
        ensures LetsPass(logs[i], logs[w])
      {
        if i < n {
          assert LetsPass(logs[..n][i], logs[..n][v]);
          if w == n {
            PassTrans(logs[i], logs[v], logs[n]);
          }
        }
      }
    }
  }

  // ---------------------------------------------------------------------------------------
  // Requests of a leader

  /** The logs agree up to every index at which they have the same term. The first entry is the same dummy in all logs. */
  ghost predicate Matching(a: Log, b: Log) {
    && a != [] && b != [] && a[0] == b[0]
    && forall i :: 0 <= i < |a| && i < |b| && a[i].term == b[i].term ==> a[..i + 1] == b[..i + 1]
  }

  /** The request that a leader with this log sends to a peer that it takes to be at `next`, with `n` entries. */
  function AppendRequestOf(log: Log, term: Word, next: nat, n: nat, commit: nat): AppendRequest
    requires 1 <= next && next + n <= |log|
  {
    AppendRequest(term, next - 1, log[next - 1].term, log[next..next + n], commit)
  }

  /** A follower accepts the previous entry of a request if and only if it has the leader's log up to there. */
  lemma AcceptsIff(leader: Log, follower: Log, term: Word, next: nat, n: nat, commit: nat)
    requires 1 <= next && next + n <= |leader| && Matching(leader, follower)
    ensures ValidPrevious(follower, AppendRequestOf(leader, term, next, n, commit)) <==>
              next <= |follower| && follower[..next] == leader[..next]
  {
    if next <= |follower| && follower[..next] == leader[..next] {
      assert follower[..next][next - 1] == leader[..next][next - 1];
    }
  }

  lemma HasIsSame(leader: Log, follower: Log, next: nat, n: nat)
    requires next + n <= |leader| && Matching(leader, follower)
    ensures SameWhereTermsMatch(follower, next, leader[next..next + n])
  {
    var entries := leader[next..next + n];
    forall k | 0 <= k < |entries| && Has(follower, next, entries, k)
      ensures follower[next + k] == entries[k]
    {
      assert entries[k] == leader[next + k];
      assert leader[..next + k + 1][next + k] == follower[..next + k + 1][next + k];
    }
  }

  /** After an accepted request the follower has the leader's log as far as the request goes. What it has beyond that it had
      before, and only if it had the whole of the request as well. */
  lemma AcceptedAgrees(leader: Log, follower: Log, term: Word, next: nat, n: nat, commit: nat)
    requires 1 <= next && next + n <= |leader| && Matching(leader, follower)
    requires ValidPrevious(follower, AppendRequestOf(leader, term, next, n, commit))
    ensures next <= |follower|
    ensures var r := Merged(follower, next, leader[next..next + n]);
            && |r| >= next + n && r[..next + n] == leader[..next + n]
            && (|r| > next + n ==> r == follower)
  {
    AcceptsIff(leader, follower, term, next, n, commit);
    HasIsSame(leader, follower, next, n);
    var entries := leader[next..next + n];
    MergedMeaning(follower, next, entries);
    var r := Merged(follower, next, entries);
    assert r[..next + n] == r[..next] + r[next..next + n];
    assert leader[..next + n] == leader[..next] + entries;
  }

  /** And the two logs still agree wherever they have the same term. */
  lemma MatchingStays(leader: Log, follower: Log, term: Word, next: nat, n: nat, commit: nat)
    requires 1 <= next && next + n <= |leader| && Matching(leader, follower)
    requires ValidPrevious(follower, AppendRequestOf(leader, term, next, n, commit))
    ensures next <= |follower| && Matching(leader, Merged(follower, next, leader[next..next + n]))
  {
    AcceptedAgrees(leader, follower, term, next, n, commit);
    var r := Merged(follower, next, leader[next..next + n]);
    if |r| == next + n {
      forall i | 0 <= i < |leader| && i < |r| && leader[i].term == r[i].term
        ensures leader[..i + 1] == r[..i + 1]
      {
        assert r[..next + n][..i + 1] == r[..i + 1] && leader[..next + n][..i + 1] == leader[..i + 1];
      }
      assert leader[..1][0] == r[..1][0];
    }
  }

  // ---------------------------------------------------------------------------------------
  // Counting and committing

  /** The commit index falls only if the log has become shorter than what was committed; it moves only for a leader that
      has committed more, and then as far as that leader and the log allow. */
  lemma CommitMoves(commitIndex: nat, leaderCommit: nat, len: nat)
    requires len >= 1
    ensures var r := Committed(commitIndex, leaderCommit, len);
            && (r < commitIndex <==> leaderCommit > commitIndex && len - 1 < commitIndex)
            && (r != commitIndex ==> leaderCommit > commitIndex && r <= leaderCommit && r < len)
            && (leaderCommit > commitIndex ==> r == leaderCommit || r == len - 1)
            && (commitIndex < len ==> commitIndex <= r < len)
  {
  }

  function Voters(votes: seq<Word>, id: Word): set<nat> {
    set i: nat | i < |votes| && votes[i] == id
  }

  /** The count of votes is the number of members that voted for the server. */
  lemma {:induction false} VotesAreVoters(votes: seq<Word>, id: Word)
    ensures VotesFor(votes, id) == |Voters(votes, id)|
  {
    if votes != [] {
      var n := |votes| - 1;
      VotesAreVoters(votes[..n], id);
      assert Voters(votes, id) == Voters(votes[..n], id) + if votes[n] == id then {n} else {};
    }
  }
}
