/** The pool of block requests and peers of block sync: blocksync/pool.go. */
module BlockPool {
  import opened Power

  type PeerID = nat

  const MAX_REQUESTERS := 40
  const MIN_RECV_RATE := 128 * 1024
  const BAN_SECONDS := 60

  datatype Block = Block(height: int, data: nat)

  datatype Peer = Peer(base: int, height: int, pending: int, didTimeout: bool, curRate: int)

  /** A request for one height: the peer being asked, all peers ever asked, and the block when it is there. */
  datatype Requester = Requester(
    current: Option<PeerID>, requestedFrom: set<PeerID>, block: Option<Block>, gotBlockFrom: Option<PeerID>)

  const NEW_REQUESTER := Requester(None, {}, None, None)

  //---------------------------------------------------------------------------
  // The highest peer

  /** Peers whose blocks start beyond the height that is needed next do not count. */
  predicate Counts(p: Peer, height: int) {
    !(height > 0 && p.base > height)
  }

  /** The greatest height of a peer that counts, or 0. */
  ghost predicate IsMaxHeight(peers: map<PeerID, Peer>, height: int, max: int) {
    && max >= 0
    && (forall id :: id in peers && Counts(peers[id], height) ==> peers[id].height <= max)
    && (max == 0 || exists id :: id in peers && Counts(peers[id], height) && peers[id].height == max)
  }

  /** Moving the height up keeps the maximum if and only if no higher peer comes into range. */
  lemma MaxHeightMoves(peers: map<PeerID, Peer>, from: int, to: int, max: int)
    requires IsMaxHeight(peers, from, max) && 0 < from <= to
    ensures IsMaxHeight(peers, to, max) <==>
      forall id :: id in peers && from < peers[id].base <= to ==> peers[id].height <= max
  {
    if max != 0 {
      var id :| id in peers && Counts(peers[id], from) && peers[id].height == max;
      assert Counts(peers[id], to);
    }
  }

  /** So a height that is set without looking at the peers can leave a wrong maximum behind. */
  lemma MaxHeightStale(peers: map<PeerID, Peer>)
    requires peers == map[1 := Peer(5, 10, 0, false, 0)]
    ensures IsMaxHeight(peers, 1, 0) && !IsMaxHeight(peers, 7, 0) && IsMaxHeight(peers, 7, 10)
  {
    assert 1 in peers && Counts(peers[1], 7);
  }

  //---------------------------------------------------------------------------
  // The list of peers

  ghost predicate Distinct(s: seq<PeerID>) {
    forall i, j :: 0 <= i < j < |s| ==> s[i] != s[j]
  }

  function IndexOf(s: seq<PeerID>, id: PeerID): (i: nat)
    requires id in s
    ensures i < |s| && s[i] == id && id !in s[..i]
  {
    if s[0] == id then 0 else 1 + IndexOf(s[1..], id)
  }

  function Without(s: seq<PeerID>, id: PeerID): (r: seq<PeerID>)
    requires id in s
    ensures |r| == |s| - 1
    ensures Distinct(s) ==> Distinct(r) && forall x :: x in r <==> x in s && x != id
  {
    var i := IndexOf(s, id);
    s[..i] + s[i + 1..]
  }

  ghost predicate ByRate(peers: map<PeerID, Peer>, s: seq<PeerID>)
    requires forall id :: id in s ==> id in peers
  {
    forall i, j :: 0 <= i < j < |s| ==> peers[s[i]].curRate >= peers[s[j]].curRate
  }

  function InsertByRate(peers: map<PeerID, Peer>, s: seq<PeerID>, id: PeerID): (r: seq<PeerID>)
    requires id in peers && forall x :: x in s ==> x in peers
    ensures forall x :: x in r <==> x == id || x in s
  {
    if s == [] || peers[id].curRate >= peers[s[0]].curRate then [id] + s
    else
      assert s == [s[0]] + s[1..];
      [s[0]] + InsertByRate(peers, s[1..], id)
  }

  lemma {:induction false} InsertInOrder(peers: map<PeerID, Peer>, s: seq<PeerID>, id: PeerID)
    requires id in peers && id !in s && forall x :: x in s ==> x in peers
    requires Distinct(s) && ByRate(peers, s)
    ensures var r := InsertByRate(peers, s, id); Distinct(r) && ByRate(peers, r)
    decreases |s|
  {
    var r := InsertByRate(peers, s, id);
    if s != [] && peers[id].curRate < peers[s[0]].curRate {
      var rest := InsertByRate(peers, s[1..], id);
      InsertInOrder(peers, s[1..], id);
      forall k | 0 <= k < |rest| ensures rest[k] != s[0] && peers[rest[k]].curRate <= peers[s[0]].curRate {
        assert rest[k] in rest;
        if rest[k] != id {
          var j :| 0 <= j < |s[1..]| && s[1..][j] == rest[k];
          assert s[j + 1] == rest[k];
        }
      }
    }
  }

  function SortByRate(peers: map<PeerID, Peer>, s: seq<PeerID>): (r: seq<PeerID>)
    requires forall x :: x in s ==> x in peers
    ensures forall x :: x in r <==> x in s
  {
    if s == [] then [] else
    assert s == [s[0]] + s[1..];
    InsertByRate(peers, SortByRate(peers, s[1..]), s[0])
  }

  lemma {:induction false} SortInOrder(peers: map<PeerID, Peer>, s: seq<PeerID>)
    requires Distinct(s) && forall x :: x in s ==> x in peers
    ensures var r := SortByRate(peers, s); Distinct(r) && ByRate(peers, r)
    decreases |s|
  {
    if s != [] {
      SortInOrder(peers, s[1..]);
      InsertInOrder(peers, SortByRate(peers, s[1..]), s[0]);
    }
  }

  //---------------------------------------------------------------------------
  // The pool

  predicate IsSlow(p: Peer, rate: int) {
    !p.didTimeout && p.pending > 0 && rate != 0 && rate < MIN_RECV_RATE
  }

  function OneLessPending(peers: map<PeerID, Peer>, id: PeerID): map<PeerID, Peer> {
    if id in peers && peers[id].pending > 0 then peers[id := peers[id].(pending := peers[id].pending - 1)] else peers
  }

  /** The request no longer waits for a peer that has answered. */
  function Answered(bpr: Requester, id: PeerID): Requester {
    if bpr.current == Some(id) then bpr.(current := None) else bpr
  }

  predicate Eligible(p: Peer, height: int, limit: int) {
    !p.didTimeout && p.pending < limit && p.base <= height <= p.height
  }

  function SweepOne(peers: map<PeerID, Peer>, id: PeerID, rate: int): map<PeerID, Peer>
    requires id in peers
  {
    if peers[id].didTimeout || IsSlow(peers[id], rate) then peers - {id}
    else if peers[id].pending > 0 then peers[id := peers[id].(curRate := rate)]
    else peers
  }

  /**
    Of the peers not still to do, exactly those are gone that timed out or are too slow; the rates of the others are
    noted.
  */
  ghost predicate Swept(before: map<PeerID, Peer>, peers: map<PeerID, Peer>, todo: set<PeerID>, rate: PeerID -> int) {
    && todo <= peers.Keys <= before.Keys
    && (forall id :: id in todo ==> peers[id] == before[id])
    && (forall id :: id in before && id !in todo ==>
      (id in peers <==> !before[id].didTimeout && !IsSlow(before[id], rate(id))))
    && (forall id :: id in peers && id !in todo ==>
          peers[id] == if before[id].pending > 0 then before[id].(curRate := rate(id)) else before[id])
  }

  lemma SweepStarts(before: map<PeerID, Peer>, rate: PeerID -> int)
    ensures Swept(before, before, before.Keys, rate)
  {
  }

  lemma SweepStep(before: map<PeerID, Peer>, peers: map<PeerID, Peer>, todo: set<PeerID>, rate: PeerID -> int,
                  id: PeerID)
    requires Swept(before, peers, todo, rate) && id in todo
    ensures id in peers && Swept(before, SweepOne(peers, id, rate(id)), todo - {id}, rate)
  {
  }

  ghost predicate NoneTimedOut(peers: map<PeerID, Peer>) {
    forall id :: id in peers ==> !peers[id].didTimeout
  }

  /** Only peers that timed out are gone. */
  ghost predicate Pruned(before: map<PeerID, Peer>, after: map<PeerID, Peer>) {
    && (forall id :: id in after ==> id in before && after[id] == before[id])
    && (forall id :: id in before && id !in after ==> before[id].didTimeout)
  }

  /** The peer picked can serve the height and has one more request pending; only peers that timed out are gone. */
  ghost predicate Taken(before: map<PeerID, Peer>, after: map<PeerID, Peer>, h: int, ignore: Option<PeerID>, limit: int,
                        r: Option<PeerID>) {
    && (forall id :: id in after ==> id in before)
    && (forall id :: id in before && id !in after ==> before[id].didTimeout)
    && (forall id :: id in after ==>
          after[id] == if r == Some(id) then before[id].(pending := before[id].pending + 1) else before[id])
    && (r.Some? ==> r != ignore && r.value in after && Eligible(before[r.value], h, limit))
  }

  /** Taking a peer out of the list moves the later ones up in the array; its end stays as it was. */
  function Shift(slots: seq<PeerID>, listed: nat, j: nat): (r: seq<PeerID>)
    requires j < listed <= |slots|
    ensures |r| == |slots|
    ensures forall k :: 0 <= k < |r| ==> r[k] == slots[if j <= k < listed - 1 then k + 1 else k]
  {
    slots[..j] + slots[j + 1..listed] + slots[listed - 1..]
  }

  /** The pick from position i of the array on: peers that timed out go from the list, and the array shifts. */
  function PickFrom(peers: map<PeerID, Peer>, list: seq<PeerID>, slots: seq<PeerID>, i: nat, h: int,
                    ignore: Option<PeerID>, prev: Option<PeerID>, limit: int, fallback: Option<PeerID>): Option<PeerID>
    requires |list| <= |slots| && forall k :: 0 <= k < |slots| ==> slots[k] in peers
    decreases |slots| - i
  {
    if i >= |slots| then fallback
    else
      var id := slots[i];
      if Some(id) == ignore then PickFrom(peers, list, slots, i + 1, h, ignore, prev, limit, fallback)
      else if peers[id].didTimeout then
        if id in list then
          var shifted := Shift(slots, |list|, IndexOf(list, id));
          PickFrom(peers, Without(list, id), shifted, i + 1, h, ignore, prev, limit, fallback)
        else PickFrom(peers, list, slots, i + 1, h, ignore, prev, limit, fallback)
      else if !Eligible(peers[id], h, limit) then PickFrom(peers, list, slots, i + 1, h, ignore, prev, limit, fallback)
      else if Some(id) == prev then PickFrom(peers, list, slots, i + 1, h, ignore, prev, limit, Some(id))
      else Some(id)
  }

  /** A peer right behind one that timed out is passed over, even if it is the only one that can serve the height. */
  lemma PassedOverByMistake(peers: map<PeerID, Peer>)
    requires peers == map[1 := Peer(1, 9, 0, true, 0), 2 := Peer(1, 9, 0, false, 0), 3 := Peer(1, 2, 0, false, 0)]
    ensures Eligible(peers[2], 5, 10) && PickFrom(peers, [1, 2, 3], [1, 2, 3], 0, 5, None, None, 10, None) == None
  {
    hide PickFrom, IndexOf, Without, Shift;
    var list, slots := [2, 3], [2, 3, 3];
    FirstRemoved();
    PickFromGoes(peers, [1, 2, 3], [1, 2, 3], 0, 5, None, None, 10, None);
    PickFromStays(peers, list, slots, 1, 5, None, None, 10, None);
    PickFromStays(peers, list, slots, 2, 5, None, None, 10, None);
    PickFromEnds(peers, list, slots, 3, 5, None, None, 10, None);
  }

  lemma FirstRemoved()
    ensures IndexOf([1, 2, 3], 1) == 0
    ensures Without([1, 2, 3], 1) == [2, 3] && Shift([1, 2, 3], 3, 0) == [2, 3, 3]
  {
    assert IndexOf([1, 2, 3], 1) == 0;
    hide IndexOf, Distinct;
    assert [1, 2, 3][..0] + [1, 2, 3][1..] == [2, 3];
    assert [1, 2, 3][..0] + [1, 2, 3][1..3] + [1, 2, 3][2..] == [2, 3, 3];
  }

  lemma PickFromEnds(peers: map<PeerID, Peer>, rest: seq<PeerID>, slots: seq<PeerID>, i: nat, h: int,
                     ignore: Option<PeerID>, prev: Option<PeerID>, limit: int, fallback: Option<PeerID>)
    requires |rest| <= |slots| <= i && forall k :: 0 <= k < |slots| ==> slots[k] in peers
    ensures PickFrom(peers, rest, slots, i, h, ignore, prev, limit, fallback) == fallback
  {
  }

  /** The array begins with the list; what comes after may have timed out and be gone. */
  ghost predicate Viewed(before: map<PeerID, Peer>, peers: map<PeerID, Peer>, list: seq<PeerID>, slots: seq<PeerID>) {
    && |list| <= |slots| && (forall k :: 0 <= k < |list| ==> slots[k] == list[k])
    && forall k :: 0 <= k < |slots| ==> slots[k] in before && (slots[k] in peers || before[slots[k]].didTimeout)
  }

  lemma ViewShifts(before: map<PeerID, Peer>, peers: map<PeerID, Peer>, list: seq<PeerID>, slots: seq<PeerID>,
                   id: PeerID)
    requires Viewed(before, peers, list, slots) && id in list && id in before && before[id].didTimeout
    ensures Viewed(before, peers - {id}, Without(list, id), Shift(slots, |list|, IndexOf(list, id)))
  {
    hide Shift, IndexOf;
    var j := IndexOf(list, id);
    var shifted, rest := Shift(slots, |list|, j), Without(list, id);
    forall k | 0 <= k < |rest| ensures shifted[k] == rest[k] {
      assert rest[k] == if j <= k then list[k + 1] else list[k];
    }
    forall k | 0 <= k < |shifted| ensures shifted[k] in before &&
      (shifted[k] in peers - {id} || before[shifted[k]].didTimeout) {
      var from := if j <= k < |list| - 1 then k + 1 else k;
      assert shifted[k] == slots[from];
    }
  }

  lemma ViewStarts(peers: map<PeerID, Peer>, list: seq<PeerID>)
    requires forall id :: id in list ==> id in peers
    ensures Viewed(peers, peers, list, list)
  {
  }

  lemma ViewedAt(before: map<PeerID, Peer>, peers: map<PeerID, Peer>, list: seq<PeerID>, slots: seq<PeerID>, i: nat)
    requires Viewed(before, peers, list, slots) && i < |slots|
    ensures |list| <= |slots|
    ensures slots[i] in before && (slots[i] in peers || before[slots[i]].didTimeout)
  {
  }

  ghost predicate IsFallback(before: map<PeerID, Peer>, peers: map<PeerID, Peer>, h: int, ignore: Option<PeerID>,
                             prev: Option<PeerID>, limit: int, fallback: Option<PeerID>) {
    fallback.Some? ==>
      && fallback == prev && fallback != ignore
      && fallback.value in peers && fallback.value in before && Eligible(before[fallback.value], h, limit)
  }

  lemma TakenOne(before: map<PeerID, Peer>, peers: map<PeerID, Peer>, h: int, ignore: Option<PeerID>, limit: int,
                 r: PeerID)
    requires Pruned(before, peers) && r in peers && r in before && Eligible(before[r], h, limit) && Some(r) != ignore
    ensures Taken(before, peers[r := before[r].(pending := before[r].pending + 1)], h, ignore, limit, Some(r))
  {
  }

  lemma TakenNone(before: map<PeerID, Peer>, peers: map<PeerID, Peer>, h: int, ignore: Option<PeerID>, limit: int)
    requires Pruned(before, peers)
    ensures Taken(before, peers, h, ignore, limit, None)
  {
  }

  //---------------------------------------------------------------------------
  // Which peer the shifting slots lead to

  /** The peer at a position will be removed when it is come across. */
  predicate GoesAt(peers: map<PeerID, Peer>, list: seq<PeerID>, k: nat, ignore: Option<PeerID>) {
    k < |list| && list[k] in peers && peers[list[k]].didTimeout && Some(list[k]) != ignore
  }

  /** How many peers that will be removed stand directly before a position. */
  function RunBefore(peers: map<PeerID, Peer>, list: seq<PeerID>, k: nat, ignore: Option<PeerID>): nat {
    if k > 0 && GoesAt(peers, list, k - 1, ignore) then 1 + RunBefore(peers, list, k - 1, ignore) else 0
  }

  /** A position is passed over behind an odd number of peers that are removed, unless it is the last. */
  predicate Skipped(peers: map<PeerID, Peer>, list: seq<PeerID>, k: nat, ignore: Option<PeerID>) {
    k < |list| - 1 && RunBefore(peers, list, k, ignore) % 2 == 1
  }

  predicate Serves(peers: map<PeerID, Peer>, id: PeerID, h: int, ignore: Option<PeerID>, limit: int) {
    id in peers && Some(id) != ignore && Eligible(peers[id], h, limit)
  }

  /** A position whose peer serves, and which is come across. */
  predicate Open(peers: map<PeerID, Peer>, list: seq<PeerID>, k: nat, h: int, ignore: Option<PeerID>, limit: int,
                 skips: bool) {
    k < |list| && Serves(peers, list[k], h, ignore, limit) && !(skips && Skipped(peers, list, k, ignore))
  }

  /** The first of the open positions from the k-th on, the one to avoid only for want of another. */
  function PickOpen(peers: map<PeerID, Peer>, list: seq<PeerID>, k: nat, h: int, ignore: Option<PeerID>,
                    prev: Option<PeerID>, limit: int, fallback: Option<PeerID>, skips: bool): Option<PeerID>
    decreases |list| - k
  {
    if k >= |list| then fallback
    else if !Open(peers, list, k, h, ignore, limit, skips) then
      PickOpen(peers, list, k + 1, h, ignore, prev, limit, fallback, skips)
    else if Some(list[k]) == prev then PickOpen(peers, list, k + 1, h, ignore, prev, limit, prev, skips)
    else Some(list[k])
  }

  /** The list is in front of the slots, and has this peer at its end if at all. */
  ghost predicate EndsWith(rest: seq<PeerID>, slots: seq<PeerID>, last: PeerID) {
    && |rest| <= |slots| && (forall j :: 0 <= j < |rest| ==> rest[j] == slots[j])
    && forall j :: 0 <= j < |rest| - 1 ==> rest[j] != last
  }

  ghost predicate SlotsHold(list: seq<PeerID>, slots: seq<PeerID>, i: nat, gone: nat)
    requires list != [] && |slots| == |list|
  {
    forall j :: i <= j < |list| ==> slots[j] == if j + gone < |list| then list[j + gone] else list[|list| - 1]
  }

  lemma SlotsShift(list: seq<PeerID>, slots: seq<PeerID>, i: nat, gone: nat)
    requires list != [] && |slots| == |list| && i + gone < |list| && SlotsHold(list, slots, i, gone)
    ensures SlotsHold(list, Shift(slots, |list| - gone, i), i + 1, gone + 1)
  {
    hide Shift;
    var shifted := Shift(slots, |list| - gone, i);
    forall j | i + 1 <= j < |list|
      ensures shifted[j] == if j + (gone + 1) < |list| then list[j + (gone + 1)] else list[|list| - 1]
    {
      assert shifted[j] == if j < |list| - gone - 1 then slots[j + 1] else slots[j];
    }
  }

  /**
    After `gone` removals, the slots from position i on hold the rest of the list, and then its last peer over and over.
  */
  ghost predicate Aligned(list: seq<PeerID>, rest: seq<PeerID>, slots: seq<PeerID>, i: nat, gone: nat) {
    && list != [] && |slots| == |list| && gone + |rest| == |list| && i <= |list|
    && Distinct(rest) && EndsWith(rest, slots, list[|list| - 1]) && SlotsHold(list, slots, i, gone)
  }

  lemma LastAtEnd(rest: seq<PeerID>, slots: seq<PeerID>, last: PeerID)
    requires EndsWith(rest, slots, last) && last in rest
    ensures rest != [] && rest[|rest| - 1] == last && IndexOf(rest, last) == |rest| - 1
  {
  }

  lemma DropsEnd(rest: seq<PeerID>, slots: seq<PeerID>, last: PeerID)
    requires EndsWith(rest, slots, last) && last in rest
    ensures IndexOf(rest, last) == |rest| - 1 && Shift(slots, |rest|, |rest| - 1) == slots
    ensures EndsWith(Without(rest, last), slots, last)
  {
    hide IndexOf, Distinct;
    LastAtEnd(rest, slots, last);
    var less := Without(rest, last);
    assert less == rest[..|rest| - 1];
  }

  /** Once only the last peer is left in the slots, the pick is that peer if it serves. */
  lemma {:induction false} PickFromTail(peers: map<PeerID, Peer>, rest: seq<PeerID>, slots: seq<PeerID>, i: nat, h: int,
                                        ignore: Option<PeerID>, prev: Option<PeerID>, limit: int,
                                        fallback: Option<PeerID>, last: PeerID)
    requires EndsWith(rest, slots, last) && (forall k :: 0 <= k < |slots| ==> slots[k] in peers)
    requires forall k :: i <= k < |slots| ==> slots[k] == last
    ensures PickFrom(peers, rest, slots, i, h, ignore, prev, limit, fallback) ==
      if i < |slots| && Serves(peers, last, h, ignore, limit) then Some(last) else fallback
    decreases |slots| - i
  {
    if i < |slots| {
      assert slots[i] == last;
      if GoesAt(peers, slots, i, ignore) {
        PickFromDrops(peers, rest, slots, i, h, ignore, prev, limit, fallback, last);
        hide EndsWith, PickFrom;
        var less := if last in rest then Without(rest, last) else rest;
        PickFromTail(peers, less, slots, i + 1, h, ignore, prev, limit, fallback, last);
      } else {
        PickFromStays(peers, rest, slots, i, h, ignore, prev, limit, fallback);
        hide EndsWith, PickFrom, GoesAt;
        PickFromTail(peers, rest, slots, i + 1, h, ignore, prev, limit, fallback, last);
        PickFromTail(peers, rest, slots, i + 1, h, ignore, prev, limit, prev, last);
      }
    }
  }

  lemma PickFromDrops(peers: map<PeerID, Peer>, rest: seq<PeerID>, slots: seq<PeerID>, i: nat, h: int,
                      ignore: Option<PeerID>, prev: Option<PeerID>, limit: int, fallback: Option<PeerID>, last: PeerID)
    requires EndsWith(rest, slots, last) && (forall k :: 0 <= k < |slots| ==> slots[k] in peers)
    requires GoesAt(peers, slots, i, ignore) && slots[i] == last
    ensures var less := if last in rest then Without(rest, last) else rest;
      && EndsWith(less, slots, last)
      && PickFrom(peers, rest, slots, i, h, ignore, prev, limit, fallback) ==
         PickFrom(peers, less, slots, i + 1, h, ignore, prev, limit, fallback)
  {
    if last in rest {
      DropsEnd(rest, slots, last);
    }
    hide Shift, Without, IndexOf, EndsWith;
  }

  lemma AlignedStarts(list: seq<PeerID>)
    requires Distinct(list) && list != []
    ensures Aligned(list, list, list, 0, 0)
  {
  }

  /** Taking out the element at a position where it comes up first. */
  lemma WithoutAt(rest: seq<PeerID>, i: nat)
    requires i < |rest| && IndexOf(rest, rest[i]) == i
    ensures Without(rest, rest[i]) == rest[..i] + rest[i + 1..]
  {
    hide IndexOf, Distinct;
  }

  lemma IndexAt(rest: seq<PeerID>, i: nat)
    requires Distinct(rest) && i < |rest|
    ensures IndexOf(rest, rest[i]) == i
  {
    var p := IndexOf(rest, rest[i]);
    assert p == i;
  }

  lemma EndsWithRemoves(rest: seq<PeerID>, slots: seq<PeerID>, last: PeerID, i: nat)
    requires Distinct(rest) && EndsWith(rest, slots, last) && i < |rest|
    ensures EndsWith(Without(rest, rest[i]), Shift(slots, |rest|, i), last)
  {
    hide Shift, IndexOf, Distinct, Without;
    IndexAt(rest, i);
    WithoutAt(rest, i);
    var less, shifted := Without(rest, rest[i]), Shift(slots, |rest|, i);
    forall j | 0 <= j < |less| ensures less[j] == shifted[j] && (j < |less| - 1 ==> less[j] != last) {
      var from := if j < i then j else j + 1;
      assert less[j] == rest[from] == slots[from] == shifted[j];
    }
  }

  lemma AlignedRemoves(list: seq<PeerID>, rest: seq<PeerID>, slots: seq<PeerID>, i: nat, gone: nat)
    requires Aligned(list, rest, slots, i, gone) && i + gone < |list|
    ensures i < |rest| && IndexOf(rest, slots[i]) == i
    ensures Aligned(list, Without(rest, slots[i]), Shift(slots, |rest|, i), i + 1, gone + 1)
  {
    EndsAt(rest, slots, list[|list| - 1], i);
    hide Shift, Without, IndexOf, Distinct, EndsWith, SlotsHold;
    IndexAt(rest, i);
    WithoutAt(rest, i);
    WithoutDistinct(rest, i);
    EndsWithRemoves(rest, slots, list[|list| - 1], i);
    SlotsShift(list, slots, i, gone);
  }

  lemma EndsAt(rest: seq<PeerID>, slots: seq<PeerID>, last: PeerID, i: nat)
    requires EndsWith(rest, slots, last) && i < |rest|
    ensures |rest| <= |slots| && rest[i] == slots[i]
  {
  }

  lemma WithoutDistinct(rest: seq<PeerID>, i: nat)
    requires Distinct(rest) && i < |rest|
    ensures Distinct(Without(rest, rest[i]))
  {
  }

  lemma RunGrows(peers: map<PeerID, Peer>, list: seq<PeerID>, k: nat, ignore: Option<PeerID>)
    ensures RunBefore(peers, list, k + 1, ignore) ==
      if GoesAt(peers, list, k, ignore) then 1 + RunBefore(peers, list, k, ignore) else 0
  {
  }

  lemma SlotsInPeers(peers: map<PeerID, Peer>, slots: seq<PeerID>, listed: nat, j: nat)
    requires j < listed <= |slots| && forall k :: 0 <= k < |slots| ==> slots[k] in peers
    ensures forall k :: 0 <= k < |slots| ==> Shift(slots, listed, j)[k] in peers
  {
  }

  /** One step of the walk, at a peer that is removed. */
  lemma PickFromGoes(peers: map<PeerID, Peer>, rest: seq<PeerID>, slots: seq<PeerID>, i: nat, h: int,
                     ignore: Option<PeerID>, prev: Option<PeerID>, limit: int, fallback: Option<PeerID>)
    requires |rest| <= |slots| && i < |slots| && forall k :: 0 <= k < |slots| ==> slots[k] in peers
    requires i < |rest| && rest[i] == slots[i] && IndexOf(rest, slots[i]) == i && GoesAt(peers, slots, i, ignore)
    ensures forall k :: 0 <= k < |slots| ==> Shift(slots, |rest|, i)[k] in peers
    ensures PickFrom(peers, rest, slots, i, h, ignore, prev, limit, fallback) ==
      PickFrom(peers, Without(rest, slots[i]), Shift(slots, |rest|, i), i + 1, h, ignore, prev, limit, fallback)
  {
    hide Shift, Without, IndexOf;
    SlotsInPeers(peers, slots, |rest|, i);
  }

  /** One step of the walk, at a peer that is not removed. */
  lemma PickFromStays(peers: map<PeerID, Peer>, rest: seq<PeerID>, slots: seq<PeerID>, i: nat, h: int,
                      ignore: Option<PeerID>, prev: Option<PeerID>, limit: int, fallback: Option<PeerID>)
    requires |rest| <= |slots| && i < |slots| && forall k :: 0 <= k < |slots| ==> slots[k] in peers
    requires !GoesAt(peers, slots, i, ignore)
    ensures PickFrom(peers, rest, slots, i, h, ignore, prev, limit, fallback) ==
      if !Serves(peers, slots[i], h, ignore, limit)
      then PickFrom(peers, rest, slots, i + 1, h, ignore, prev, limit, fallback)
      else if Some(slots[i]) == prev then PickFrom(peers, rest, slots, i + 1, h, ignore, prev, limit, prev)
      else Some(slots[i])
  {
  }

  lemma PickOpenStep(peers: map<PeerID, Peer>, list: seq<PeerID>, k: nat, h: int, ignore: Option<PeerID>,
                     prev: Option<PeerID>, limit: int, fallback: Option<PeerID>)
    requires k < |list|
    ensures PickOpen(peers, list, k, h, ignore, prev, limit, fallback, true) ==
      if !Serves(peers, list[k], h, ignore, limit) || Skipped(peers, list, k, ignore)
      then PickOpen(peers, list, k + 1, h, ignore, prev, limit, fallback, true)
      else if Some(list[k]) == prev then PickOpen(peers, list, k + 1, h, ignore, prev, limit, prev, true)
      else Some(list[k])
  {
  }

  lemma GoesServesNot(peers: map<PeerID, Peer>, list: seq<PeerID>, k: nat, h: int, ignore: Option<PeerID>, limit: int)
    requires GoesAt(peers, list, k, ignore)
    ensures !Serves(peers, list[k], h, ignore, limit)
  {
  }

  /** The walk over the shifting slots comes across exactly the positions that are not skipped, in order. */
  lemma {:induction false} PickAligned(peers: map<PeerID, Peer>, list: seq<PeerID>, rest: seq<PeerID>,
                                       slots: seq<PeerID>, i: nat, gone: nat, h: int, ignore: Option<PeerID>,
                                       prev: Option<PeerID>, limit: int, fallback: Option<PeerID>)
    requires Aligned(list, rest, slots, i, gone) && i + gone < |list| &&
      RunBefore(peers, list, i + gone, ignore) % 2 == 0
    requires |rest| <= |slots| && forall k :: 0 <= k < |slots| ==> slots[k] in peers
    ensures PickFrom(peers, rest, slots, i, h, ignore, prev, limit, fallback) ==
      PickOpen(peers, list, i + gone, h, ignore, prev, limit, fallback, true)
    decreases |list| - i
  {
    hide Aligned, Shift, Without, IndexOf, Distinct, EndsWith, PickFrom, PickOpen, Serves, GoesAt, RunBefore;
    var pos, last := i + gone, list[|list| - 1];
    AlignedAt(list, rest, slots, i, gone);
    GoesSame(peers, slots, list, i, pos, ignore);
    RunGrows(peers, list, pos, ignore);
    RunGrows(peers, list, pos + 1, ignore);
    PickOpenStep(peers, list, pos, h, ignore, prev, limit, fallback);
    if GoesAt(peers, list, pos, ignore) {
      GoesServesNot(peers, list, pos, h, ignore, limit);
      AlignedRemoves(list, rest, slots, i, gone);
      PickFromGoes(peers, rest, slots, i, h, ignore, prev, limit, fallback);
      var less, shifted := Without(rest, slots[i]), Shift(slots, |rest|, i);
      if pos + 2 < |list| {
        PickOpenStep(peers, list, pos + 1, h, ignore, prev, limit, fallback);
        PickAligned(peers, list, less, shifted, i + 1, gone + 1, h, ignore, prev, limit, fallback);
      } else {
        UnskippedLast(peers, list, h, ignore, prev, limit, fallback);
        AlignedTail(list, less, shifted, i + 1, gone + 1);
        PickFromTail(peers, less, shifted, i + 1, h, ignore, prev, limit, fallback, last);
      }
    } else {
      AlignedNext(list, rest, slots, i, gone);
      PickFromStays(peers, rest, slots, i, h, ignore, prev, limit, fallback);
      var next := if Serves(peers, slots[i], h, ignore, limit) then prev else fallback;
      if pos + 1 < |list| {
        PickAligned(peers, list, rest, slots, i + 1, gone, h, ignore, prev, limit, next);
      } else {
        UnskippedLast(peers, list, h, ignore, prev, limit, next);
        AlignedTail(list, rest, slots, i + 1, gone);
        PickFromTail(peers, rest, slots, i + 1, h, ignore, prev, limit, next, last);
      }
    }
  }

  lemma GoesSame(peers: map<PeerID, Peer>, s: seq<PeerID>, t: seq<PeerID>, i: nat, j: nat, ignore: Option<PeerID>)
    requires i < |s| && j < |t| && s[i] == t[j]
    ensures GoesAt(peers, s, i, ignore) == GoesAt(peers, t, j, ignore)
  {
  }

  lemma UnskippedLast(peers: map<PeerID, Peer>, list: seq<PeerID>, h: int, ignore: Option<PeerID>, prev: Option<PeerID>,
                      limit: int, fallback: Option<PeerID>)
    requires list != []
    ensures PickOpen(peers, list, |list|, h, ignore, prev, limit, fallback, true) == fallback
    ensures PickOpen(peers, list, |list| - 1, h, ignore, prev, limit, fallback, true) ==
      if Serves(peers, list[|list| - 1], h, ignore, limit) then Some(list[|list| - 1]) else fallback
  {
    assert PickOpen(peers, list, |list|, h, ignore, prev, limit, prev, true) == prev;
  }

  lemma AlignedAt(list: seq<PeerID>, rest: seq<PeerID>, slots: seq<PeerID>, i: nat, gone: nat)
    requires Aligned(list, rest, slots, i, gone) && i + gone < |list|
    ensures |slots| == |list| && i < |rest| <= |slots| && rest[i] == slots[i] == list[i + gone]
  {
  }

  lemma AlignedNext(list: seq<PeerID>, rest: seq<PeerID>, slots: seq<PeerID>, i: nat, gone: nat)
    requires Aligned(list, rest, slots, i, gone) && i < |list|
    ensures Aligned(list, rest, slots, i + 1, gone)
  {
  }

  lemma AlignedTail(list: seq<PeerID>, rest: seq<PeerID>, slots: seq<PeerID>, i: nat, gone: nat)
    requires Aligned(list, rest, slots, i, gone) && i + gone >= |list|
    ensures |slots| == |list| && EndsWith(rest, slots, list[|list| - 1])
    ensures forall k :: i <= k < |slots| ==> slots[k] == list[|list| - 1]
  {
  }

  /** What a choice among the open positions is, without saying how it is found. */
  ghost predicate IsChoice(peers: map<PeerID, Peer>, list: seq<PeerID>, k: nat, h: int, ignore: Option<PeerID>,
                           prev: Option<PeerID>, limit: int, fallback: Option<PeerID>, skips: bool, r: Option<PeerID>)
  {
    if r == None || r == prev then
      && (forall j: nat :: k <= j && Open(peers, list, j, h, ignore, limit, skips) ==> Some(list[j]) == prev)
      && (r == None <==> fallback == None && forall j: nat :: k <= j ==> !Open(peers, list, j, h, ignore, limit, skips))
    else
      exists j: nat :: k <= j && Open(peers, list, j, h, ignore, limit, skips) && r == Some(list[j]) &&
        forall m: nat :: k <= m < j && Open(peers, list, m, h, ignore, limit, skips) ==> Some(list[m]) == prev
  }

  lemma {:induction false} PickOpenIsChoice(peers: map<PeerID, Peer>, list: seq<PeerID>, k: nat, h: int,
                                            ignore: Option<PeerID>, prev: Option<PeerID>, limit: int,
                                            fallback: Option<PeerID>, skips: bool)
    requires fallback == None || fallback == prev
    ensures IsChoice(peers, list, k, h, ignore, prev, limit, fallback, skips,
                     PickOpen(peers, list, k, h, ignore, prev, limit, fallback, skips))
    decreases |list| - k
  {
    hide Open, IsChoice;
    if k >= |list| {
      ChoiceEnds(peers, list, k, h, ignore, prev, limit, fallback, skips);
    } else if !Open(peers, list, k, h, ignore, limit, skips) {
      PickOpenIsChoice(peers, list, k + 1, h, ignore, prev, limit, fallback, skips);
      ChoiceBack(peers, list, k, h, ignore, prev, limit, fallback, fallback, skips,
                 PickOpen(peers, list, k + 1, h, ignore, prev, limit, fallback, skips));
    } else if Some(list[k]) == prev {
      PickOpenIsChoice(peers, list, k + 1, h, ignore, prev, limit, prev, skips);
      ChoiceBack(peers, list, k, h, ignore, prev, limit, fallback, prev, skips,
                 PickOpen(peers, list, k + 1, h, ignore, prev, limit, prev, skips));
    } else {
      ChoiceNow(peers, list, k, h, ignore, prev, limit, fallback, skips);
    }
  }

  lemma ChoiceEnds(peers: map<PeerID, Peer>, list: seq<PeerID>, k: nat, h: int, ignore: Option<PeerID>,
                   prev: Option<PeerID>, limit: int, fallback: Option<PeerID>, skips: bool)
    requires k >= |list| && (fallback == None || fallback == prev)
    ensures IsChoice(peers, list, k, h, ignore, prev, limit, fallback, skips, fallback)
  {
    NoneBeyond(peers, list, h, ignore, limit, skips);
    hide Open;
  }

  lemma ChoiceNow(peers: map<PeerID, Peer>, list: seq<PeerID>, k: nat, h: int, ignore: Option<PeerID>,
                  prev: Option<PeerID>, limit: int, fallback: Option<PeerID>, skips: bool)
    requires k < |list| && Open(peers, list, k, h, ignore, limit, skips) && Some(list[k]) != prev
    ensures IsChoice(peers, list, k, h, ignore, prev, limit, fallback, skips, Some(list[k]))
  {
    hide Open;
  }

  /** A choice from the next position on is one from here on, if here is not open or only the peer to avoid. */
  lemma ChoiceBack(peers: map<PeerID, Peer>, list: seq<PeerID>, k: nat, h: int, ignore: Option<PeerID>,
                   prev: Option<PeerID>, limit: int, fallback: Option<PeerID>, fallback': Option<PeerID>, skips: bool,
                   r: Option<PeerID>)
    requires k < |list| && IsChoice(peers, list, k + 1, h, ignore, prev, limit, fallback', skips, r)
    requires if Open(peers, list, k, h, ignore, limit, skips) then Some(list[k]) == prev == fallback'
      else fallback' == fallback
    ensures IsChoice(peers, list, k, h, ignore, prev, limit, fallback, skips, r)
  {
    hide Open;
  }

  lemma NoneBeyond(peers: map<PeerID, Peer>, list: seq<PeerID>, h: int, ignore: Option<PeerID>, limit: int, skips: bool)
    ensures forall j: nat :: j >= |list| ==> !Open(peers, list, j, h, ignore, limit, skips)
  {
  }

  /**
    The pick over the shifting slots is the best peer if and only if that one is not skipped:
    it is the last in the list, or an even number of peers that are removed stand directly before it.
  */
  lemma PickIsBest(peers: map<PeerID, Peer>, list: seq<PeerID>, h: int, ignore: Option<PeerID>, prev: Option<PeerID>,
                   limit: int)
    requires Distinct(list) && forall k :: 0 <= k < |list| ==> list[k] in peers
    ensures var best := PickOpen(peers, list, 0, h, ignore, prev, limit, None, false);
      && IsChoice(peers, list, 0, h, ignore, prev, limit, None, false, best)
      && (PickFrom(peers, list, list, 0, h, ignore, prev, limit, None) == best <==>
          forall k: nat :: k < |list| && best == Some(list[k]) ==> !Skipped(peers, list, k, ignore))
  {
    var best := PickOpen(peers, list, 0, h, ignore, prev, limit, None, false);
    var r := PickOpen(peers, list, 0, h, ignore, prev, limit, None, true);
    PickOpenIsChoice(peers, list, 0, h, ignore, prev, limit, None, false);
    PickOpenIsChoice(peers, list, 0, h, ignore, prev, limit, None, true);
    if list != [] {
      AlignedStarts(list);
      PickAligned(peers, list, list, list, 0, 0, h, ignore, prev, limit, None);
    }
    ChoicesAgree(peers, list, h, ignore, prev, limit, best, r);
  }

  lemma ChoicesAgree(peers: map<PeerID, Peer>, list: seq<PeerID>, h: int, ignore: Option<PeerID>, prev: Option<PeerID>,
                     limit: int, best: Option<PeerID>, r: Option<PeerID>)
    requires Distinct(list)
    requires IsChoice(peers, list, 0, h, ignore, prev, limit, None, false, best)
    requires IsChoice(peers, list, 0, h, ignore, prev, limit, None, true, r)
    ensures r == best <==> forall k: nat :: k < |list| && best == Some(list[k]) ==> !Skipped(peers, list, k, ignore)
  {
    hide Serves, Skipped;
    assert forall j: nat :: Open(peers, list, j, h, ignore, limit, true) ==>
      Open(peers, list, j, h, ignore, limit, false);
    if best == None {
      assert forall j: nat :: !Open(peers, list, j, h, ignore, limit, true);
    } else {
      var j: nat :| Open(peers, list, j, h, ignore, limit, false) && best == Some(list[j]);
      assert forall k: nat :: k < |list| && best == Some(list[k]) ==> k == j;
      if Skipped(peers, list, j, ignore) {
        assert forall k: nat :: Open(peers, list, k, h, ignore, limit, true) ==> list[k] != list[j];
      } else {
        assert Open(peers, list, j, h, ignore, limit, true);
      }
    }
  }

  /** Without peers that timed out nothing is skipped. */
  lemma NothingSkipped(peers: map<PeerID, Peer>, list: seq<PeerID>, k: nat, ignore: Option<PeerID>)
    requires NoneTimedOut(peers)
    ensures !Skipped(peers, list, k, ignore)
  {
  }

  /** While none has timed out, a peer is picked exactly if one other than the one to ignore can serve the height. */
  lemma PickedIfServed(peers: map<PeerID, Peer>, list: seq<PeerID>, h: int, ignore: Option<PeerID>,
                       prev: Option<PeerID>, limit: int)
    requires Distinct(list) && NoneTimedOut(peers) && (forall id :: id in list <==> id in peers)
    ensures PickFrom(peers, list, list, 0, h, ignore, prev, limit, None).Some? <==>
      exists id :: id in peers && Some(id) != ignore && peers[id].base <= h <= peers[id].height &&
        peers[id].pending < limit
  {
    hide PickFrom, PickOpen, Skipped;
    PickIsBest(peers, list, h, ignore, prev, limit);
    var best := PickOpen(peers, list, 0, h, ignore, prev, limit, None, false);
    forall k: nat ensures !Skipped(peers, list, k, ignore) {
      NothingSkipped(peers, list, k, ignore);
    }
    if best.Some? {
      var j: nat :| Open(peers, list, j, h, ignore, limit, false);
      assert list[j] in peers;
    } else {
      forall id | id in peers ensures !Serves(peers, id, h, ignore, limit) {
        var j :| 0 <= j < |list| && list[j] == id;
        assert !Open(peers, list, j, h, ignore, limit, false);
      }
    }
  }

  //---------------------------------------------------------------------------
  // Adding blocks

  datatype AddOutcome =
    | Added | Duplicate                             // accepted
    | HeightMismatch | Unexpected | NotRequested    // the peer is reported
    | AlreadyCommitted | FromBanned                 // ignored

  class Pool {
    const startHeight: int
    var height: int
    var requesters: map<int, Requester>
    var peers: map<PeerID, Peer>
    var banned: map<Option<PeerID>, int>   // None is the empty id, which no peer has
    var sortedPeers: seq<PeerID>
    var maxPeerHeight: int

    /** Requests are out for a run of heights without a gap, from the next height needed. */
    ghost predicate Contiguous()
      reads this
    {
      forall h :: h in requesters <==> height <= h < height + |requesters|
    }

    /** A block is kept with the request for its height, from a peer that was asked. */
    ghost predicate BlocksMatch()
      reads this
    {
      forall h :: h in requesters && requesters[h].block.Some? ==>
        && requesters[h].block.value.height == h
        && requesters[h].gotBlockFrom.Some? && requesters[h].gotBlockFrom.value in requesters[h].requestedFrom
    }

    ghost predicate Listed()
      reads this
    {
      Distinct(sortedPeers) && forall id :: id in sortedPeers <==> id in peers
    }

    ghost predicate Valid()
      reads this
    {
      Contiguous() && BlocksMatch() && Listed()
    }

    /** The cached maximum is the one that its definition gives. */
    ghost predicate MaxIsExact()
      reads this
    {
      IsMaxHeight(peers, height, maxPeerHeight)
    }

    constructor (start: int)
      ensures Valid() && MaxIsExact() && startHeight == height == start && requesters == map[] && peers == map[]
    {
      startHeight := start;
      height := start;
      requesters, peers, banned, sortedPeers := map[], map[], map[], [];
      maxPeerHeight := 0;
    }

    method UpdateMaxPeerHeight()
      modifies this`maxPeerHeight
      ensures MaxIsExact()
    {
      var max := 0;
      var todo := peers.Keys;
      while todo != {}
        invariant todo <= peers.Keys && max >= 0
        invariant forall id :: id in peers && id !in todo && Counts(peers[id], height) ==> peers[id].height <= max
        invariant max == 0 || exists id :: id in peers && Counts(peers[id], height) && peers[id].height == max
        decreases todo
      {
        var id :| id in todo;
        todo := todo - {id};
        if Counts(peers[id], height) && peers[id].height > max {
          max := peers[id].height;
        }
      }
      maxPeerHeight := max;
    }

    predicate IsBanned(id: PeerID, now: int)
      reads this
    {
      Some(id) in banned && now - banned[Some(id)] < BAN_SECONDS
    }

    /** Takes a peer out; the maximum is recomputed only if this peer had it. */
    method RemovePeer(id: PeerID)
      requires Listed()
      modifies this`peers, this`sortedPeers, this`maxPeerHeight
      ensures Listed() && peers == old(peers) - {id}
      ensures sortedPeers == if id in old(peers) then Without(old(sortedPeers), id) else old(sortedPeers)
      ensures old(MaxIsExact()) ==> MaxIsExact()
    {
      if id in peers {
        var peer := peers[id];
        peers := peers - {id};
        sortedPeers := Without(sortedPeers, id);
        if peer.height == maxPeerHeight {
          UpdateMaxPeerHeight();
        }
      }
    }

    /** A peer reports its range; one that contradicts itself or its earlier report is dropped and banned. */
    method SetPeerRange(id: PeerID, base: int, top: int, now: int)
      requires Listed()
      modifies this`peers, this`sortedPeers, this`maxPeerHeight, this`banned
      ensures Listed()
      ensures old(MaxIsExact()) ==> MaxIsExact()
      ensures var bad := base > top ||
        (id in old(peers) && (base < old(peers)[id].base || top < old(peers)[id].height));
        if bad then
          && peers == old(peers) - {id} && banned == old(banned)[Some(id) := now]
          && (forall t :: IsBanned(id, t) <==> t < now + 60)
        else
          && banned == old(banned)
          && if id in old(peers)
             then peers == old(peers)[id := old(peers)[id].(base := base, height := top)] && MaxIsExact()
             else if old(IsBanned(id, now)) then peers == old(peers)
             else
               && peers == old(peers)[id := Peer(base, top, 0, false, 0)]
               && sortedPeers == [id] + old(sortedPeers) && MaxIsExact()
    {
      if base > top {
        RemovePeer(id);
        banned := banned[Some(id) := now];
        return;
      }
      if id in peers {
        if base < peers[id].base || top < peers[id].height {
          RemovePeer(id);
          banned := banned[Some(id) := now];
          return;
        }
        peers := peers[id := peers[id].(base := base, height := top)];
      } else {
        if IsBanned(id, now) {
          return;
        }
        peers := peers[id := Peer(base, top, 0, false, 0)];
        sortedPeers := [id] + sortedPeers;
      }
      UpdateMaxPeerHeight();
    }

    /**
      Moves the pool on without looking at the peers again: the maximum is right if no higher peer comes into range.
    */
    method SetHeight(h: int)
      modifies this`height
      ensures height == h
      ensures old(MaxIsExact()) && 0 < old(height) <= h ==> (MaxIsExact() <==> NoHigherInRange(old(height)))
    {
      hide IsMaxHeight;
      if MaxIsExact() && 0 < height <= h {
        MaxHeightMoves(peers, height, h, maxPeerHeight);
      }
      height := h;
    }

    /** No peer whose range begins after a height, but not after the present one, is above the maximum. */
    ghost predicate NoHigherInRange(from: int)
      reads this
    {
      forall id :: id in peers && from < peers[id].base <= height ==> peers[id].height <= maxPeerHeight
    }

    /** Whether another height should be requested, and which. */
    method NextHeight() returns (r: Option<int>)
      ensures r == if |requesters| < MAX_REQUESTERS && height + |requesters| <= maxPeerHeight
                   then Some(height + |requesters|) else None
    {
      var maxRequestersCreated := |requesters| >= MAX_REQUESTERS;
      var nextHeight := height + |requesters|;
      if maxRequestersCreated || nextHeight > maxPeerHeight {
        return None;
      }
      return Some(nextHeight);
    }

    method MakeNextRequester(nextHeight: int)
      modifies this`requesters
      ensures requesters == old(requesters)[nextHeight := NEW_REQUESTER]
    {
      requesters := requesters[nextHeight := NEW_REQUESTER];
    }

    /** The blocks at the next two heights, as far as they are there. */
    method PeekTwoBlocks() returns (first: Option<Block>, second: Option<Block>)
      requires BlocksMatch()
      ensures first == if height in requesters then requesters[height].block else None
      ensures second == if height + 1 in requesters then requesters[height + 1].block else None
      ensures first.Some? ==> height in requesters && first.value.height == height
      ensures second.Some? ==> second.value.height == height + 1
    {
      first := if height in requesters then requesters[height].block else None;
      second := if height + 1 in requesters then requesters[height + 1].block else None;
    }

    /** Drops the request at the next height and moves on; fails if there is none. */
    method PopRequest() returns (ok: bool)
      requires Valid()
      modifies this`requesters, this`height, this`maxPeerHeight
      ensures Valid() && ok == (old(height) in old(requesters))
      ensures ok ==> height == old(height) + 1 && requesters == old(requesters) - {old(height)} && MaxIsExact()
      ensures ok ==> |requesters| == |old(requesters)| - 1
      ensures !ok ==> height == old(height) && requesters == old(requesters) && maxPeerHeight == old(maxPeerHeight)
    {
      if height !in requesters {
        return false;
      }
      assert (requesters - {height}).Keys == requesters.Keys - {height};
      requesters := requesters - {height};
      height := height + 1;
      UpdateMaxPeerHeight();
      return true;
    }

    /** Takes in a block if it was requested from this peer and is not there yet. */
    method AddBlock(id: PeerID, block: Block, commitHeight: Option<int>, now: int) returns (r: AddOutcome)
      requires Valid()
      modifies this`requesters, this`peers
      ensures Valid() && requesters.Keys == old(requesters).Keys
      ensures old(MaxIsExact()) ==> MaxIsExact()
      ensures r == Added <==>
        && (commitHeight == None || commitHeight.value == block.height)
        && block.height in old(requesters)
        && id in old(requesters)[block.height].requestedFrom && old(requesters)[block.height].block == None
      ensures r == Unexpected <==>
        && (commitHeight == None || commitHeight.value == block.height)
        && block.height !in old(requesters) && !(startHeight <= block.height <= height)
      ensures r == HeightMismatch <==> commitHeight.Some? && commitHeight.value != block.height
      ensures r == Duplicate <==>
        && (commitHeight == None || commitHeight.value == block.height)
        && block.height in old(requesters)
        && id in old(requesters)[block.height].requestedFrom && old(requesters)[block.height].block.Some?
      ensures r == AlreadyCommitted <==>
        && (commitHeight == None || commitHeight.value == block.height)
        && block.height !in old(requesters) && startHeight <= block.height <= height
      ensures r == FromBanned || r == NotRequested ==> (r == FromBanned <==> IsBanned(id, now))
      ensures peers == if r == Added || r == Duplicate || r == AlreadyCommitted then OneLessPending(old(peers), id)
        else old(peers)
      ensures r == Added ==>
        requesters == old(requesters)[block.height :=
          Answered(old(requesters)[block.height], id).(block := Some(block), gotBlockFrom := Some(id))]
      ensures r == Duplicate ==>
        requesters == old(requesters)[block.height := Answered(old(requesters)[block.height], id)]
      ensures r != Added && r != Duplicate ==> requesters == old(requesters)
    {
      hide IsMaxHeight, Distinct;
      if commitHeight.Some? && commitHeight.value != block.height {
        return HeightMismatch;
      }
      if block.height !in requesters {
        if block.height > height || block.height < startHeight {
          return Unexpected;
        }
        DecrPending(id);
        return AlreadyCommitted;
      }
      var bpr := requesters[block.height];
      if id !in bpr.requestedFrom {
        return if IsBanned(id, now) then FromBanned else NotRequested;
      }
      if bpr.current == Some(id) {
        bpr := bpr.(current := None);
      }
      if bpr.block.Some? {
        r := Duplicate;
      } else {
        bpr := bpr.(block := Some(block), gotBlockFrom := Some(id));
        r := Added;
      }
      SetRequester(block.height, bpr);
      DecrPending(id);
    }

    /** Changes a request that is out, but not which requests are out. */
    method SetRequester(h: int, bpr: Requester)
      requires Valid() && h in requesters
      requires bpr.block.Some? ==>
        bpr.block.value.height == h && bpr.gotBlockFrom.Some? && bpr.gotBlockFrom.value in bpr.requestedFrom
      modifies this`requesters
      ensures Valid() && requesters == old(requesters)[h := bpr] && requesters.Keys == old(requesters).Keys
    {
      assert requesters[h := bpr].Keys == requesters.Keys + {h} == requesters.Keys;
      requesters := requesters[h := bpr];
    }

    method DecrPending(id: PeerID)
      requires Listed()
      modifies this`peers
      ensures Listed() && (old(MaxIsExact()) ==> MaxIsExact())
      ensures peers == OneLessPending(old(peers), id)
      ensures id in old(peers) ==>
        id in peers && peers[id].pending == old(peers)[id].pending - if old(peers)[id].pending > 0 then 1 else 0
    {
      if id in peers && peers[id].pending > 0 {
        SetPeer(id, peers[id].(pending := peers[id].pending - 1));
      }
    }

    /** Changes a peer, but not the range that it reported. */
    method SetPeer(id: PeerID, p: Peer)
      requires Listed() && id in peers && p.base == peers[id].base && p.height == peers[id].height
      modifies this`peers
      ensures Listed() && peers == old(peers)[id := p] && (old(MaxIsExact()) ==> MaxIsExact())
    {
      ghost var before := peers;
      peers := peers[id := p];
      assert forall x :: x in peers ==>
        x in before && peers[x].base == before[x].base && peers[x].height == before[x].height;
      assert forall x :: x in before ==> x in peers && peers[x].height == before[x].height;
    }

    /** The timer of a peer fires: it will be removed by whoever comes across it next. */
    method OnTimeout(id: PeerID)
      requires Listed()
      modifies this`peers
      ensures Listed() && (old(MaxIsExact()) ==> MaxIsExact())
      ensures peers == if id in old(peers) then old(peers)[id := old(peers)[id].(didTimeout := true)] else old(peers)
    {
      if id in peers {
        SetPeer(id, peers[id].(didTimeout := true));
      }
    }

    /** Removes a peer that timed out or is too slow, and otherwise notes its rate. */
    method SweepPeer(id: PeerID, rate: int)
      requires Listed() && id in peers
      modifies this`peers, this`sortedPeers, this`maxPeerHeight
      ensures Listed() && (old(MaxIsExact()) ==> MaxIsExact())
      ensures peers == SweepOne(old(peers), id, rate)
      ensures id !in peers <==> var p := old(peers[id]);
        p.didTimeout || (p.pending > 0 && rate != 0 && rate < 131072)
    {
      hide Distinct, IsMaxHeight;
      var peer := peers[id];
      if !peer.didTimeout && peer.pending > 0 {
        SetPeer(id, peer.(didTimeout := IsSlow(peer, rate), curRate := rate));
      }
      if peers[id].didTimeout {
        RemovePeer(id);
      }
    }

    /** Removes exactly the peers that timed out or are too slow, and sorts the rest by rate. */
    method RemoveTimedoutPeers(rate: PeerID -> int, now: int)
      requires Listed()
      modifies this`peers, this`sortedPeers, this`maxPeerHeight, this`banned
      ensures Listed() && (old(MaxIsExact()) ==> MaxIsExact())
      ensures Swept(old(peers), peers, {}, rate)
      ensures ByRate(peers, sortedPeers)
      ensures banned == map id | id in old(banned) && now - old(banned)[id] < BAN_SECONDS :: old(banned)[id]
    {
      hide IsMaxHeight, Distinct, ByRate, Swept;
      var todo := peers.Keys;
      ghost var before := peers;
      SweepStarts(before, rate);
      while todo != {}
        invariant Listed() && (old(MaxIsExact()) ==> MaxIsExact()) && banned == old(banned)
        invariant Swept(before, peers, todo, rate)
        decreases todo
      {
        var id :| id in todo;
        SweepStep(before, peers, todo, rate, id);
        todo := todo - {id};
        SweepPeer(id, rate(id));
      }
      banned := map id | id in banned && now - banned[id] < BAN_SECONDS :: banned[id];
      SortInOrder(peers, sortedPeers);
      sortedPeers := SortByRate(peers, sortedPeers);
    }

    /**
      Picks the first peer in the list that can serve a height, and the one that served the
      height before only if there is no other. The loop runs over the list as it was, in an
      array that shifts when a peer is removed from it.
    */
    method PickIncrAvailablePeer(h: int, ignore: Option<PeerID>, prev: Option<PeerID>, limit: int)
      returns (r: Option<PeerID>)
      requires Listed()
      modifies this`peers, this`sortedPeers, this`maxPeerHeight
      ensures Listed() && (old(MaxIsExact()) ==> MaxIsExact())
      ensures Taken(old(peers), peers, h, ignore, limit, r)
      ensures r.Some? ==>
        && r.value in old(peers) && !old(peers)[r.value].didTimeout && old(peers)[r.value].pending < limit
        && old(peers)[r.value].base <= h <= old(peers)[r.value].height
      ensures r == PickFrom(old(peers), old(sortedPeers), old(sortedPeers), 0, h, ignore, prev, limit, None)
    {
      hide IsMaxHeight, Distinct, Taken, Viewed, Shift, Without;
      ghost var listed := sortedPeers;
      var before := peers;
      var slots := sortedPeers;
      ViewStarts(before, listed);
      var fallback: Option<PeerID> := None;
      var i := 0;
      while i < |slots|
        invariant 0 <= i <= |slots|
        invariant Listed() && (old(MaxIsExact()) ==> MaxIsExact())
        invariant Pruned(before, peers) && Viewed(before, peers, sortedPeers, slots)
        invariant |sortedPeers| <= |slots| && forall k :: 0 <= k < |slots| ==> slots[k] in before
        invariant PickFrom(before, listed, listed, 0, h, ignore, prev, limit, None) ==
                  PickFrom(before, sortedPeers, slots, i, h, ignore, prev, limit, fallback)
        invariant IsFallback(before, peers, h, ignore, prev, limit, fallback)
        decreases |slots| - i
      {
        var id := slots[i];
        ViewedAt(before, peers, sortedPeers, slots, i);
        var peer := before[id];
        i := i + 1;
        if Some(id) == ignore {
          continue;
        }
        if peer.didTimeout {
          if id in peers {
            ViewShifts(before, peers, sortedPeers, slots, id);
            slots := Shift(slots, |sortedPeers|, IndexOf(sortedPeers, id));
            RemovePeer(id);
          }
          continue;
        }
        if !Eligible(peer, h, limit) {
          continue;
        }
        if Some(id) == prev {
          fallback := Some(id);
          continue;
        }
        TakenOne(before, peers, h, ignore, limit, id);
        SetPeer(id, peer.(pending := peer.pending + 1));
        return Some(id);
      }
      if fallback.Some? {
        TakenOne(before, peers, h, ignore, limit, fallback.value);
        SetPeer(fallback.value, before[fallback.value].(pending := before[fallback.value].pending + 1));
      } else {
        TakenNone(before, peers, h, ignore, limit);
      }
      return fallback;
    }

    /** Drops and bans the peer that delivered the block at a height; before a block came this bans the empty id. */
    method RemovePeerAndRedoAllPeerRequests(h: int, now: int) returns (r: Option<PeerID>)
      requires Valid()
      modifies this`peers, this`sortedPeers, this`maxPeerHeight, this`banned
      ensures Valid() && (old(MaxIsExact()) ==> MaxIsExact())
      ensures r == if h in requesters then requesters[h].gotBlockFrom else None
      ensures peers == if r.Some? then old(peers) - {r.value} else old(peers)
      ensures banned == if h in requesters then old(banned)[r := now] else old(banned)
      ensures r.Some? ==> r.value !in peers && IsBanned(r.value, now)
    {
      if h !in requesters {
        return None;
      }
      r := requesters[h].gotBlockFrom;
      if r.Some? {
        RemovePeer(r.value);
      }
      banned := banned[r := now];
    }

    //-------------------------------------------------------------------------
    // The requests' own goroutines

    /** A request goes to a peer, unless one is waiting for an answer. */
    method AssignPeer(h: int, id: PeerID)
      requires Valid()
      modifies this`requesters
      ensures Valid() && requesters.Keys == old(requesters).Keys
      ensures forall x :: x in requesters && x != h ==> requesters[x] == old(requesters)[x]
      ensures h in requesters ==>
        requesters[h] == old(requesters)[h].(current := Some(id),
          requestedFrom := old(requesters)[h].requestedFrom + {id})
    {
      if h in requesters {
        SetRequester(h, requesters[h].(current := Some(id), requestedFrom := requesters[h].requestedFrom + {id}));
      }
    }

    /** A request forgets a peer, and the block if that peer delivered it. */
    method ResetRequester(h: int, id: PeerID)
      requires Valid()
      modifies this`requesters
      ensures Valid() && requesters.Keys == old(requesters).Keys
      ensures h in requesters ==> requesters[h].requestedFrom == old(requesters)[h].requestedFrom
      ensures h in requesters ==> requesters[h].current == if old(requesters)[h].current == Some(id) then None
        else old(requesters)[h].current
      ensures h in requesters ==>
        if old(requesters)[h].gotBlockFrom == Some(id)
        then requesters[h].block == None && requesters[h].gotBlockFrom == None
        else
          && requesters[h].block == old(requesters)[h].block
          && requesters[h].gotBlockFrom == old(requesters)[h].gotBlockFrom
      ensures forall x :: x in requesters && x != h ==> requesters[x] == old(requesters)[x]
    {
      if h in requesters {
        var bpr := requesters[h];
        if bpr.gotBlockFrom == Some(id) {
          bpr := bpr.(block := None, gotBlockFrom := None);
        }
        if bpr.current == Some(id) {
          bpr := bpr.(current := None);
        }
        SetRequester(h, bpr);
      }
    }
  }
}
