/** The users hash of a node: who is in the group and who is leader.
    A Ruby Hash iterates in insertion order, overwriting a key keeps its slot
    and deleting a key removes it; `names` records that order. */
module Membership {
  import opened Protocol

  predicate Distinct(s: seq<Name>)
  {
    forall i, j | 0 <= i < j < |s| :: s[i] != s[j]
  }

  datatype Table = Table(names: seq<Name>, recs: map<Name, UserRecord>)
  {
    /** `names` lists each key of `recs` exactly once. */
    ghost predicate Valid()
    {
      && Distinct(names)
      && (forall n :: n in recs <==> n in names)
    }
  }

  function Empty(): (t: Table)
    ensures t.Valid() && t.names == [] && t.recs == map[]
  {
    Table([], map[])
  }

  /** `users.keys.size == 0` is the same as an empty table. */
  lemma NoNamesIffEmpty(t: Table)
    requires t.Valid()
    ensures t.names == [] <==> t.recs == map[]
  {
    if t.names != [] {
      assert t.names[0] in t.recs;
    }
  }

  /** add_to_users: the whole record of `n` is replaced (never merged); a new
      key goes to the end of the iteration order, an old key keeps its slot. */
  function Upsert(t: Table, n: Name, r: UserRecord): (u: Table)
    requires t.Valid()
    ensures u.Valid()
    ensures n in u.recs && u.recs[n] == r
    ensures forall m | m != n :: (m in u.recs <==> m in t.recs) && (m in t.recs ==> u.recs[m] == t.recs[m])
    ensures n in t.recs ==> u.names == t.names
    ensures n !in t.recs ==> u.names == t.names + [n]
  {
    if n in t.recs then Table(t.names, t.recs[n := r])
    else Table(t.names + [n], t.recs[n := r])
  }

  /** The iteration order with `n` deleted. */
  function Without(names: seq<Name>, n: Name): (r: seq<Name>)
    ensures forall m :: m in r <==> m in names && m != n
    ensures Distinct(names) ==> Distinct(r)
    ensures n !in names ==> r == names
  {
    if names == [] then []
    else if names[0] == n then Without(names[1..], n)
    else
      var rest := Without(names[1..], n);
      assert Distinct(names) ==> names[0] !in names[1..] && Distinct(names[1..]);
      [names[0]] + rest
  }

  /** Hash#delete keeps the other keys in their order: deleting the key at
      position k splices it out. */
  lemma {:induction false} WithoutKeepsOrder(names: seq<Name>, k: nat)
    requires Distinct(names) && k < |names|
    ensures Without(names, names[k]) == names[..k] + names[k + 1..]
  {
    var n, tail := names[k], names[1..];
    if k == 0 {
      assert n !in tail;
    } else {
      assert names[0] != n;
      assert Distinct(tail) && tail[k - 1] == n;
      WithoutKeepsOrder(tail, k - 1);
      assert names[..k] == [names[0]] + tail[..k - 1];
      assert names[k + 1..] == tail[k..];
    }
  }

  /** remove_from_users: deletes the key `n`; deleting an absent key changes nothing. */
  function Remove(t: Table, n: Name): (u: Table)
    requires t.Valid()
    ensures u.Valid()
    ensures n !in u.recs
    ensures forall m | m != n :: (m in u.recs <==> m in t.recs) && (m in t.recs ==> u.recs[m] == t.recs[m])
    ensures n !in t.recs ==> u == t
    ensures u.names == Without(t.names, n)
  {
    Table(Without(t.names, n), t.recs - {n})
  }

  /** The victory handler's in-place write `users[n][:is_leader] = true`. */
  function MarkLeader(t: Table, n: Name): (u: Table)
    requires t.Valid() && n in t.recs
    ensures u.Valid() && u.names == t.names && u.recs.Keys == t.recs.Keys
    ensures u.recs[n].isLeader
    ensures u.recs[n].startTime == t.recs[n].startTime && u.recs[n].lastModified == t.recs[n].lastModified
    ensures forall m | m in t.recs && m != n :: u.recs[m] == t.recs[m]
  {
    Table(t.names, t.recs[n := t.recs[n].(isLeader := true)])
  }

  /** The key at position `i` of the iteration order is flagged leader. */
  predicate LeaderAt(t: Table, i: int)
  {
    0 <= i < |t.names| && t.names[i] in t.recs && t.recs[t.names[i]].isLeader
  }

  /** `r` is what current_leader returns: the first key, in iteration order,
      whose record is flagged leader, or none if no record is. */
  ghost predicate IsFirstLeader(t: Table, r: Option<Name>)
  {
    match r
    case None => forall i :: !LeaderAt(t, i)
    case Some(n) => exists i :: LeaderAt(t, i) && t.names[i] == n && forall j | 0 <= j < i :: !LeaderAt(t, j)
  }

  function FirstLeaderFrom(t: Table, i: nat): (r: Option<Name>)
    requires i <= |t.names|
    ensures r.None? <==> forall j | i <= j < |t.names| :: !LeaderAt(t, j)
    ensures r.Some? ==> exists j :: i <= j && LeaderAt(t, j) && t.names[j] == r.value && forall k | i <= k < j :: !LeaderAt(t, k)
    decreases |t.names| - i
  {
    if i == |t.names| then None
    else if LeaderAt(t, i) then
      assert forall k | i <= k < i :: !LeaderAt(t, k);
      Some(t.names[i])
    else FirstLeaderFrom(t, i + 1)
  }

  /** current_leader as a function of the table. */
  function FirstLeader(t: Table): (r: Option<Name>)
    requires t.Valid()
    ensures IsFirstLeader(t, r)
    ensures r.None? <==> forall n | n in t.recs :: !t.recs[n].isLeader
    ensures r.Some? ==> r.value in t.recs && t.recs[r.value].isLeader
  {
    var r := FirstLeaderFrom(t, 0);
    assert r.None? ==> forall n | n in t.recs :: !t.recs[n].isLeader by {
      if r.None? {
        forall n | n in t.recs ensures !t.recs[n].isLeader {
          var i :| 0 <= i < |t.names| && t.names[i] == n;
          assert !LeaderAt(t, i);
        }
      }
    }
    r
  }

  /** Only one answer fits the description of current_leader. */
  lemma FirstLeaderUnique(t: Table, r1: Option<Name>, r2: Option<Name>)
    requires IsFirstLeader(t, r1) && IsFirstLeader(t, r2)
    ensures r1 == r2
  {
    if r1.Some? && r2.Some? {
      var i1 :| LeaderAt(t, i1) && t.names[i1] == r1.value && forall j | 0 <= j < i1 :: !LeaderAt(t, j);
      var i2 :| LeaderAt(t, i2) && t.names[i2] == r2.value && forall j | 0 <= j < i2 :: !LeaderAt(t, j);
      assert !(i1 < i2) && !(i2 < i1);
    }
  }

  /** sent_by_leader?: the sender has a record and that record is flagged leader. */
  function SentByLeader(t: Table, sender: Option<Name>): (b: bool)
    requires t.Valid()
    ensures sender.None? ==> !b
    ensures b ==> FirstLeader(t).Some?
  {
    sender.Some? && sender.value in t.recs && t.recs[sender.value].isLeader
  }

  /** Replaying refreshes one after another, oldest first. */
  function UpsertAll(t: Table, refreshes: seq<(Name, UserRecord)>): (u: Table)
    requires t.Valid()
    ensures u.Valid()
    decreases |refreshes|
  {
    if refreshes == [] then t
    else
      var last := refreshes[|refreshes| - 1];
      Upsert(UpsertAll(t, refreshes[..|refreshes| - 1]), last.0, last.1)
  }

  /** The last refresh of `n` in the sequence, if any. */
  function LastRefresh(refreshes: seq<(Name, UserRecord)>, n: Name): Option<UserRecord>
    decreases |refreshes|
  {
    if refreshes == [] then None
    else if refreshes[|refreshes| - 1].0 == n then Some(refreshes[|refreshes| - 1].1)
    else LastRefresh(refreshes[..|refreshes| - 1], n)
  }

  /** Overwrite, no merge: after any replay each name holds exactly its last
      refresh, and a name never refreshed keeps what it had. */
  lemma {:induction false} ReplayKeepsLastRefresh(t: Table, refreshes: seq<(Name, UserRecord)>, n: Name)
    requires t.Valid()
    ensures var u := UpsertAll(t, refreshes);
      match LastRefresh(refreshes, n)
      case Some(r) => n in u.recs && u.recs[n] == r
      case None => (n in u.recs <==> n in t.recs) && (n in t.recs ==> u.recs[n] == t.recs[n])
    decreases |refreshes|
  {
    if refreshes != [] {
      ReplayKeepsLastRefresh(t, refreshes[..|refreshes| - 1], n);
    }
  }

  /** Re-delivering the same refresh changes nothing more. */
  lemma UpsertIdempotent(t: Table, n: Name, r: UserRecord)
    requires t.Valid()
    ensures Upsert(Upsert(t, n, r), n, r) == Upsert(t, n, r)
  {
  }
}
