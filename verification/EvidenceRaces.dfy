/**
  The evidence pool again, cut at every access to its store (evidence/pool.go). No lock is held from one access to the
  next, so that other threads come in between, and an item can end up both pending and committed. This says when.
*/
module EvidenceRaces {
  import opened EvidenceKeys

  /** A thread that adds an item; it is cleared once the item was seen not to be committed. */
  datatype Adder = Adder(key: Key, cleared: bool)

  /** Where the thread that marks the evidence of a block is. */
  datatype Marker = Idle | Looked(key: Key, found: bool) | Deleted(key: Key)

  datatype State = State(pending: set<Key>, committed: set<Key>, adders: map<nat, Adder>, marker: Marker)

  /** One access to the store. */
  datatype Access =
    | SeekPending(t: nat, key: Key)     // a thread begins, and stops if the item is pending
    | Recheck(t: nat, key: Key)         // a thread begins with an item about a light client, pending or not
    | SeekCommitted(t: nat, key: Key)   // it goes on unless the item is committed
    | GiveUp(t: nat)                    // the item does not verify
    | Put(t: nat, key: Key)
    | MarkSeeks(key: Key)               // the marker looks whether the item is pending
    | MarkDeletes(key: Key)
    | MarkCommits(key: Key)
    | Expires(key: Key)

  predicate Enabled(s: State, a: Access) {
    match a
    case SeekPending(t, _) => t !in s.adders
    case Recheck(t, _) => t !in s.adders
    case SeekCommitted(t, k) => t in s.adders && s.adders[t] == Adder(k, false)
    case GiveUp(t) => t in s.adders
    case Put(t, k) => t in s.adders && s.adders[t] == Adder(k, true)
    case MarkSeeks(_) => s.marker == Idle
    case MarkDeletes(k) => s.marker == Looked(k, true)
    case MarkCommits(k) => s.marker == Looked(k, false) || s.marker == Deleted(k)
    case Expires(_) => s.marker == Idle
  }

  function After(s: State, a: Access): State {
    match a
    case SeekPending(t, k) => if k in s.pending then s else s.(adders := s.adders[t := Adder(k, false)])
    case Recheck(t, k) => s.(adders := s.adders[t := Adder(k, false)])
    case SeekCommitted(t, k) =>
      s.(adders := if k in s.committed then s.adders - {t} else s.adders[t := Adder(k, true)])
    case GiveUp(t) => s.(adders := s.adders - {t})
    case Put(t, k) => s.(pending := s.pending + {k}, adders := s.adders - {t})
    case MarkSeeks(k) => s.(marker := Looked(k, k in s.pending))
    case MarkDeletes(k) => s.(pending := s.pending - {k}, marker := Deleted(k))
    case MarkCommits(k) => s.(committed := s.committed + {k}, marker := Idle)
    case Expires(k) => s.(pending := s.pending - {k})
  }

  /** Any interleaving of accesses, from a store where nothing is both and no thread is on its way. */
  ghost predicate IsRun(run: seq<State>, acts: seq<Access>) {
    && |run| == |acts| + 1
    && run[0].pending !! run[0].committed && run[0].adders == map[] && run[0].marker == Idle
    && forall i :: 0 <= i < |acts| ==> Enabled(run[i], acts[i]) && run[i + 1] == After(run[i], acts[i])
  }

  predicate Removes(a: Access, k: Key) {
    a == MarkDeletes(k) || a == Expires(k)
  }

  ghost predicate NoneRemoves(acts: seq<Access>, from: nat, to: nat, k: Key) {
    forall i :: from <= i < to && i < |acts| ==> !Removes(acts[i], k)
  }

  /** What is pending was put and not removed since, or was there from the start. */
  lemma {:induction false} PendingSince(run: seq<State>, acts: seq<Access>, n: nat, k: Key) returns (put: int, t: nat)
    requires IsRun(run, acts) && n < |run| && k in run[n].pending
    ensures -1 <= put < n && NoneRemoves(acts, put + 1, n, k)
    ensures if put == -1 then k in run[0].pending else acts[put] == Put(t, k)
  {
    if n == 0 {
      return -1, 0;
    }
    assert run[n] == After(run[n - 1], acts[n - 1]);
    if acts[n - 1].Put? && acts[n - 1].key == k {
      return n - 1, acts[n - 1].t;
    }
    put, t := PendingSince(run, acts, n - 1, k);
  }

  lemma {:induction false} StaysPending(run: seq<State>, acts: seq<Access>, from: nat, n: nat, k: Key)
    requires IsRun(run, acts) && from <= n < |run| && k in run[from].pending && NoneRemoves(acts, from, n, k)
    ensures k in run[n].pending
  {
    if from < n {
      StaysPending(run, acts, from, n - 1, k);
      assert run[n] == After(run[n - 1], acts[n - 1]);
    }
  }

  lemma {:induction false} StaysCommitted(run: seq<State>, acts: seq<Access>, from: nat, n: nat, k: Key)
    requires IsRun(run, acts) && from <= n < |run| && k in run[from].committed
    ensures k in run[n].committed
  {
    if from < n {
      StaysCommitted(run, acts, from, n - 1, k);
      assert run[n] == After(run[n - 1], acts[n - 1]);
    }
  }

  /** A cleared thread has seen that its item was not committed. */
  lemma {:induction false} ClearedSince(run: seq<State>, acts: seq<Access>, n: nat, t: nat) returns (seen: nat)
    requires IsRun(run, acts) && n < |run| && t in run[n].adders && run[n].adders[t].cleared
    ensures seen < n && acts[seen] == SeekCommitted(t, run[n].adders[t].key)
    ensures run[n].adders[t].key !in run[seen].committed
    decreases n
  {
    if n == 0 {
      assert false;
    } else {
      assert run[n] == After(run[n - 1], acts[n - 1]);
      if acts[n - 1] == SeekCommitted(t, run[n].adders[t].key) {
        return n - 1;
      }
      seen := ClearedSince(run, acts, n - 1, t);
    }
  }

  /** What is committed was marked, or was there from the start. */
  lemma {:induction false} CommittedSince(run: seq<State>, acts: seq<Access>, n: nat, k: Key) returns (marked: int)
    requires IsRun(run, acts) && n < |run| && k in run[n].committed
    ensures -1 <= marked < n && if marked == -1 then k in run[0].committed else acts[marked] == MarkCommits(k)
  {
    if n == 0 {
      return -1;
    }
    assert run[n] == After(run[n - 1], acts[n - 1]);
    if acts[n - 1] == MarkCommits(k) {
      return n - 1;
    }
    marked := CommittedSince(run, acts, n - 1, k);
  }

  /** The marker has looked for its item; it had it removed if it was there. */
  lemma {:induction false} MarkerSince(run: seq<State>, acts: seq<Access>, n: nat) returns (look: nat)
    requires IsRun(run, acts) && n < |run| && run[n].marker != Idle
    ensures look < n && acts[look] == MarkSeeks(run[n].marker.key)
    ensures match run[n].marker
      case Looked(k, found) => found == (k in run[look].pending)
      case Deleted(k) => !NoneRemoves(acts, look, n, k)
  {
    if n == 0 {
      assert false;
    } else {
      assert run[n] == After(run[n - 1], acts[n - 1]);
      if acts[n - 1].MarkSeeks? {
        return n - 1;
      }
      look := MarkerSince(run, acts, n - 1);
      if acts[n - 1].MarkDeletes? {
        assert Removes(acts[n - 1], run[n].marker.key);
      }
    }
  }

  /**
    Some thread saw the item not to be committed before it was, and put it after the marker had looked for it; and
    it was not removed again.
  */
  ghost predicate Raced(acts: seq<Access>, k: Key, t: nat, seen: nat, put: nat, look: nat, marked: nat) {
    && seen < put < |acts| && look < marked < |acts|
    && acts[seen] == SeekCommitted(t, k) && acts[put] == Put(t, k)
    && acts[look] == MarkSeeks(k) && acts[marked] == MarkCommits(k)
    && seen < marked && look < put && NoneRemoves(acts, put, |acts|, k)
  }

  /** An item that is both pending and committed has raced. */
  lemma BothHasRaced(run: seq<State>, acts: seq<Access>, k: Key)
    returns (t: nat, seen: nat, put: nat, look: nat, marked: nat)
    requires IsRun(run, acts) && k in run[|acts|].pending && k in run[|acts|].committed
    ensures Raced(acts, k, t, seen, put, look, marked)
  {
    var p, m;
    p, t := PendingSince(run, acts, |acts|, k);
    m := CommittedSince(run, acts, |acts|, k);
    marked := if m == -1 then 0 else m;
    if m == -1 {
      // committed from the start: a thread that is cleared saw otherwise
      NotPutOnceCommitted(run, acts, p, t, k);
      assert false;
    }
    look := MarkerSince(run, acts, marked);
    if p < look {
      StaysPending(run, acts, p + 1, look, k);
      assert false;
    }
    put := p;
    seen := ClearedSince(run, acts, put, t);
    if marked <= seen {
      StaysCommitted(run, acts, marked + 1, seen, k);
      assert false;
    }
  }

  lemma NotPutOnceCommitted(run: seq<State>, acts: seq<Access>, put: int, t: nat, k: Key)
    requires IsRun(run, acts) && -1 <= put < |acts| && k in run[0].committed
    ensures if put == -1 then k !in run[0].pending else acts[put] != Put(t, k)
  {
    if put >= 0 && acts[put] == Put(t, k) {
      var seen := ClearedSince(run, acts, put, t);
      StaysCommitted(run, acts, 0, seen, k);
    }
  }

  /** And one that has raced is both. */
  lemma RacedIsBoth(run: seq<State>, acts: seq<Access>, k: Key, t: nat, seen: nat, put: nat, look: nat, marked: nat)
    requires IsRun(run, acts) && Raced(acts, k, t, seen, put, look, marked)
    ensures k in run[|acts|].pending && k in run[|acts|].committed
  {
    assert run[put + 1] == After(run[put], acts[put]) && run[marked + 1] == After(run[marked], acts[marked]);
    StaysPending(run, acts, put + 1, |acts|, k);
    StaysCommitted(run, acts, marked + 1, |acts|, k);
  }

  /** In any run an item ends up both pending and committed if and only if adding it has raced with marking it. */
  lemma BothExactly(run: seq<State>, acts: seq<Access>, k: Key)
    requires IsRun(run, acts)
    ensures k in run[|acts|].pending && k in run[|acts|].committed <==>
      exists t, seen, put, look, marked :: Raced(acts, k, t, seen, put, look, marked)
  {
    hide IsRun, Raced;
    RunLength(run, acts);
    if k in run[|acts|].pending && k in run[|acts|].committed {
      var t, seen, put, look, marked := BothHasRaced(run, acts, k);
    }
    if t, seen, put, look, marked :| Raced(acts, k, t, seen, put, look, marked) {
      RacedIsBoth(run, acts, k, t, seen, put, look, marked);
    }
  }

  lemma RunLength(run: seq<State>, acts: seq<Access>)
    requires IsRun(run, acts)
    ensures |run| == |acts| + 1
  {
  }

  /** It does happen: a block with an item is marked while another thread is about to add the item. */
  lemma RaceHappens(k: Key) returns (run: seq<State>, acts: seq<Access>)
    ensures IsRun(run, acts) && k in run[|acts|].pending && k in run[|acts|].committed
  {
    var none: map<nat, Adder> := map[];
    acts := [SeekPending(0, k), SeekCommitted(0, k), MarkSeeks(k), MarkCommits(k), Put(0, k)];
    run := [
      State({}, {}, none, Idle),
      State({}, {}, map[0 := Adder(k, false)], Idle),
      State({}, {}, map[0 := Adder(k, true)], Idle),
      State({}, {}, map[0 := Adder(k, true)], Looked(k, false)),
      State({}, {k}, map[0 := Adder(k, true)], Idle),
      State({k}, {k}, none, Idle)];
    assert map[0 := Adder(k, true)] - {0} == none;
  }
}
