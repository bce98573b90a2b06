/** The bully election's decision: among the node itself and every record
    refreshed since the round began, the earliest start time wins; the
    comparison is strict, so a tie never displaces the node itself and among
    other records the first in iteration order wins. */
module Election {
  import opened Protocol
  import opened Membership

  /** The record at position `i` was refreshed at or after the round's start:
      it is a candidate of the round (the `select` of do_election). */
  predicate Live(t: Table, est: int, i: int): (b: bool)
    ensures b ==> 0 <= i < |t.names| && t.names[i] in t.recs
  {
    0 <= i < |t.names| && t.names[i] in t.recs && t.recs[t.names[i]].lastModified >= est
  }

  function StartAt(t: Table, i: int): int
    requires 0 <= i < |t.names| && t.names[i] in t.recs
  {
    t.recs[t.names[i]].startTime
  }

  /** No candidate started earlier than the node itself. */
  ghost predicate SelfIsSenior(t: Table, est: int, selfStart: int)
  {
    forall i | Live(t, est, i) :: selfStart <= StartAt(t, i)
  }

  /** Position `j` holds the earliest start time among the candidates, and no
      candidate before it in iteration order ties with it. */
  ghost predicate EarliestCandidate(t: Table, est: int, j: int)
  {
    && Live(t, est, j)
    && (forall i | Live(t, est, i) :: StartAt(t, j) <= StartAt(t, i))
    && (forall i | 0 <= i < j && Live(t, est, i) :: StartAt(t, j) < StartAt(t, i))
  }

  /** `w` is the winner of a round that began at `est`, seen from node `self`
      whose own start time is `selfStart`. */
  ghost predicate IsElectionWinner(t: Table, est: int, self: Name, selfStart: int, w: Name)
  {
    if SelfIsSenior(t, est, selfStart) then w == self
    else exists j :: EarliestCandidate(t, est, j) && w == t.names[j]
  }

  /** The loop of do_election after its first `n` iterations: the selected
      leader and the best start time so far. */
  function Scan(t: Table, est: int, self: Name, selfStart: int, n: nat): (r: (Name, int))
    requires n <= |t.names| && t.Valid()
    ensures r.1 <= selfStart
    ensures forall i | 0 <= i < n && Live(t, est, i) :: r.1 <= StartAt(t, i)
    ensures r.1 == selfStart ==> r.0 == self
    ensures r.1 < selfStart ==> exists j :: (0 <= j < n && Live(t, est, j) && r.0 == t.names[j] && StartAt(t, j) == r.1
      && forall i | 0 <= i < j && Live(t, est, i) :: r.1 < StartAt(t, i))
    decreases n
  {
    if n == 0 then (self, selfStart)
    else
      var prev := Scan(t, est, self, selfStart, n - 1);
      if Live(t, est, n - 1) && StartAt(t, n - 1) < prev.1 then (t.names[n - 1], StartAt(t, n - 1))
      else prev
  }

  /** The leader do_election selects. */
  function ElectionWinner(t: Table, est: int, self: Name, selfStart: int): (w: Name)
    requires t.Valid()
    ensures IsElectionWinner(t, est, self, selfStart, w)
    ensures SelfIsSenior(t, est, selfStart) ==> w == self
    ensures !SelfIsSenior(t, est, selfStart) ==> exists j :: (Live(t, est, j) && t.names[j] == w
      && StartAt(t, j) < selfStart && forall i | Live(t, est, i) :: StartAt(t, j) <= StartAt(t, i))
  {
    var r := Scan(t, est, self, selfStart, |t.names|);
    if r.1 == selfStart then
      assert SelfIsSenior(t, est, selfStart);
      r.0
    else
      var j :| 0 <= j < |t.names| && Live(t, est, j) && r.0 == t.names[j] && StartAt(t, j) == r.1
        && forall i | 0 <= i < j && Live(t, est, i) :: r.1 < StartAt(t, i);
      assert !SelfIsSenior(t, est, selfStart);
      assert EarliestCandidate(t, est, j);
      r.0
  }

  /** A round has exactly one winner. */
  lemma WinnerUnique(t: Table, est: int, self: Name, selfStart: int, w1: Name, w2: Name)
    requires t.Valid()
    requires IsElectionWinner(t, est, self, selfStart, w1) && IsElectionWinner(t, est, self, selfStart, w2)
    ensures w1 == w2
  {
    if !SelfIsSenior(t, est, selfStart) {
      var j1 :| EarliestCandidate(t, est, j1) && w1 == t.names[j1];
      var j2 :| EarliestCandidate(t, est, j2) && w2 == t.names[j2];
      assert !(j1 < j2) && !(j2 < j1);
    }
  }

  /** Three fresh candidates with start times A:100, B:50, C:75: B wins,
      seen from A as well as from C. */
  lemma SeniorityExample(now: int)
    ensures var t := Table(["A", "B", "C"], map["A" := UserRecord(100, false, now),
                                             "B" := UserRecord(50, false, now),
                                             "C" := UserRecord(75, false, now)]);
      && ElectionWinner(t, now, "A", 100) == "B"
      && ElectionWinner(t, now, "C", 75) == "B"
      && ElectionWinner(t, now, "B", 50) == "B"
  {
    var t := Table(["A", "B", "C"], map["A" := UserRecord(100, false, now),
                                      "B" := UserRecord(50, false, now),
                                      "C" := UserRecord(75, false, now)]);
    assert t.names[1] == "B";
    assert t.Valid() by {
      assert forall n :: n in t.recs <==> n in t.names;
    }
    assert Scan(t, now, "A", 100, 3) == ("B", 50);
    assert Scan(t, now, "C", 75, 3) == ("B", 50);
    assert Scan(t, now, "B", 50, 3) == ("B", 50);
  }
}
