/** Recognizing repeated message ids with a ring of the ids accepted last and a set of the ring's contents. */
module DedupRing {

  const DEDUP_SIZE := 1024

  /** The last `n` accepted ids, or all of them if there are fewer. */
  function Window(accepted: seq<string>, n: nat): seq<string> {
    if |accepted| <= n then accepted else accepted[|accepted| - n..]
  }

  function Blanks(n: nat): seq<string> {
    seq(n, _ => "")
  }

  ghost function Members(ids: seq<string>): set<string> {
    set id <- ids | id != ""
  }

  ghost predicate Distinct(ids: seq<string>) {
    forall i, k | 0 <= i < k < |ids| :: ids[i] != ids[k]
  }

  /** The ring read from the oldest slot on: empty slots first, then the window. */
  function Unrolled(ring: seq<string>, idx: nat): seq<string>
    requires idx <= |ring|
  {
    ring[idx..] + ring[..idx]
  }

  function Padded(accepted: seq<string>, n: nat): (r: seq<string>)
    ensures |r| == n
  {
    var w := Window(accepted, n);
    Blanks(n - |w|) + w
  }

  /** Accepting an id drops the oldest slot and appends the id. */
  lemma PaddedAppend(accepted: seq<string>, id: string, n: nat)
    requires n > 0
    ensures Padded(accepted + [id], n) == Padded(accepted, n)[1..] + [id]
  {
    var w := Window(accepted, n);
    if |accepted| < n {
      assert Blanks(n - |w|)[1..] == Blanks(n - |w| - 1);
    } else {
      assert Window(accepted + [id], n) == w[1..] + [id];
    }
  }

  /** Overwriting the slot at the index and advancing it, around the end if need be. */
  lemma UnrolledAdvance(ring: seq<string>, idx: nat, id: string)
    requires idx < |ring|
    ensures (idx + 1) % |ring| < |ring|
    ensures Unrolled(ring[idx := id], (idx + 1) % |ring|) == Unrolled(ring, idx)[1..] + [id]
    ensures Unrolled(ring, idx)[0] == ring[idx]
  {
    var updated := ring[idx := id];
    if idx + 1 == |ring| {
      assert (idx + 1) % |ring| == 0;
      assert updated[0..] + updated[..0] == ring[..idx] + [id];
      assert Unrolled(ring, idx)[1..] == ring[..idx];
    } else {
      assert (idx + 1) % |ring| == idx + 1;
      assert updated[..idx + 1] == ring[..idx] + [id];
      assert Unrolled(ring, idx)[1..] == ring[idx + 1..] + ring[..idx];
    }
  }

  lemma MembersOfPadded(accepted: seq<string>, n: nat)
    requires "" !in accepted
    ensures Members(Padded(accepted, n)) == set id <- Window(accepted, n)
  {
    var w := Window(accepted, n);
    assert forall id <- w :: id in accepted;
    assert forall id :: id in Padded(accepted, n) <==> id in Blanks(n - |w|) || id in w;
    var blanks := Blanks(n - |w|);
    assert forall i | 0 <= i < |blanks| :: blanks[i] == "";
  }

  lemma MembersAdvance(slots: seq<string>, id: string, members: set<string>)
    requires slots != [] && members == Members(slots) && id != "" && id !in members
    requires forall i, k | 0 <= i < k < |slots| && slots[i] != "" :: slots[i] != slots[k]
    ensures members - {slots[0]} + {id} == Members(slots[1..] + [id])
  {
    var next := slots[1..] + [id];
    assert slots == [slots[0]] + slots[1..];
    forall x
      ensures x in members - {slots[0]} + {id} <==> x in Members(next)
    {
    }
  }

  lemma MembersUnrolled(ring: seq<string>, idx: nat)
    requires idx <= |ring|
    ensures Members(Unrolled(ring, idx)) == Members(ring)
  {
    assert ring == ring[..idx] + ring[idx..];
  }

  lemma PaddedDistinct(accepted: seq<string>, n: nat)
    requires "" !in accepted && Distinct(Window(accepted, n))
    ensures var p := Padded(accepted, n); forall i, k | 0 <= i < k < |p| && p[i] != "" :: p[i] != p[k]
  {
    var w := Window(accepted, n);
    var p := Padded(accepted, n);
    var pad := n - |w|;
    forall i, k | 0 <= i < k < |p| && p[i] != ""
      ensures p[i] != p[k]
    {
      assert p[i] == w[i - pad] && p[k] == w[k - pad];
    }
  }

  lemma WindowDistinct(accepted: seq<string>, id: string, n: nat)
    requires Distinct(Window(accepted, n)) && id !in Window(accepted, n)
    ensures Distinct(Window(accepted + [id], n))
  {
    var w, w' := Window(accepted, n), Window(accepted + [id], n);
    assert |accepted| < n ==> w' == w + [id];
    assert |accepted| >= n > 0 ==> w' == w[1..] + [id];
  }

  /** Ring, index and set agree with the history of accepted ids. */
  ghost predicate RingInv(ring: seq<string>, idx: nat, dedup: set<string>, accepted: seq<string>) {
    && idx < |ring| && "" !in accepted
    && Unrolled(ring, idx) == Padded(accepted, |ring|)
    && dedup == Members(ring)
    && Distinct(Window(accepted, |ring|))
  }

  lemma SetIsWindow(ring: seq<string>, idx: nat, dedup: set<string>, accepted: seq<string>)
    requires RingInv(ring, idx, dedup, accepted)
    ensures dedup == set id <- Window(accepted, |ring|)
  {
    MembersUnrolled(ring, idx);
    MembersOfPadded(accepted, |ring|);
  }

  /** Accepting an id overwrites, and forgets, the oldest one. */
  lemma Accept(ring: seq<string>, idx: nat, dedup: set<string>, accepted: seq<string>, id: string)
    requires RingInv(ring, idx, dedup, accepted) && id != "" && id !in dedup
    ensures RingInv(ring[idx := id], (idx + 1) % |ring|, dedup - {ring[idx]} + {id}, accepted + [id])
  {
    var n := |ring|;
    var next := ring[idx := id];
    UnrolledAdvance(ring, idx, id);
    PaddedAppend(accepted, id, n);
    SetIsWindow(ring, idx, dedup, accepted);
    WindowDistinct(accepted, id, n);
    AcceptMembers(ring, idx, dedup, accepted, id);
  }

  lemma ForgetBlank(dedup: set<string>, ring: seq<string>, oldest: string)
    requires dedup == Members(ring)
    ensures (if oldest != "" then dedup - {oldest} else dedup) == dedup - {oldest}
  {
  }

  lemma AcceptMembers(ring: seq<string>, idx: nat, dedup: set<string>, accepted: seq<string>, id: string)
    requires RingInv(ring, idx, dedup, accepted) && id != "" && id !in dedup
    ensures dedup - {ring[idx]} + {id} == Members(ring[idx := id])
  {
    UnrolledAdvance(ring, idx, id);
    MembersUnrolled(ring, idx);
    MembersUnrolled(ring[idx := id], (idx + 1) % |ring|);
    PaddedDistinct(accepted, |ring|);
    MembersAdvance(Unrolled(ring, idx), id, dedup);
  }

  class OneBotChannel {
    const dedupRing: array<string>
    var dedup: set<string>
    var dedupIdx: nat
    /** Every id ever accepted, oldest first. */
    ghost var accepted: seq<string>

    ghost predicate Valid()
      reads this, dedupRing
    {
      RingInv(dedupRing[..], dedupIdx, dedup, accepted)
    }

    constructor ()
      ensures Valid() && accepted == [] && dedupRing.Length == DEDUP_SIZE && fresh(dedupRing)
    {
      dedupRing := new string[DEDUP_SIZE](i => "");
      dedup, dedupIdx, accepted := {}, 0, [];
      new;
      assert dedupRing[..] == Blanks(DEDUP_SIZE) == Padded([], DEDUP_SIZE);
    }

    /** A repeated id is one among the last accepted ids; any other proper id is accepted. */
    method IsDuplicate(messageID: string) returns (duplicate: bool)
      requires Valid()
      modifies this, dedupRing
      ensures Valid()
      ensures duplicate <==> messageID != "" && messageID != "0"
                             && messageID in Window(old(accepted), dedupRing.Length)
      ensures accepted == if messageID == "" || messageID == "0" || duplicate then old(accepted)
                          else old(accepted) + [messageID]
    {
      if messageID == "" || messageID == "0" {
        return false;
      }
      SetIsWindow(dedupRing[..], dedupIdx, dedup, accepted);
      if messageID in dedup {
        return true;
      }
      Accept(dedupRing[..], dedupIdx, dedup, accepted, messageID);
      ghost var ring := dedupRing[..];
      ForgetBlank(dedup, dedupRing[..], dedupRing[dedupIdx]);
      var oldest := dedupRing[dedupIdx];
      if oldest != "" {
        dedup := dedup - {oldest};
      }
      dedupRing[dedupIdx] := messageID;
      assert dedupRing[..] == ring[dedupIdx := messageID];
      dedup := dedup + {messageID};
      dedupIdx := (dedupIdx + 1) % dedupRing.Length;
      accepted := accepted + [messageID];
      return false;
    }
  }

  /** An id is forgotten exactly when as many other ids as the ring holds have been accepted after it. */
  lemma ForgottenAfter(accepted: seq<string>, later: seq<string>, id: string, n: nat)
    requires n > 0 && id !in accepted && id !in later
    ensures id in Window(accepted + [id] + later, n) <==> |later| < n
  {
    var all := accepted + [id] + later;
    var at := |accepted|;
    assert all[at] == id;
    var w := Window(all, n);
    var start := |all| - |w|;
    assert forall i | 0 <= i < |w| :: w[i] == all[start + i];
    if |later| < n {
      assert w[at - start] == id;
    }
  }
}
