/**
 * The inbox: scheduled inputs keyed by delivery time, at most one per
 * millisecond. A colliding insertion is pushed later, one `MIN_LATENCY` at a
 * time, until it finds a free slot, so nothing is ever overwritten.
 */
module SimInbox {
  import opened SimTypes

  type Messages = map<Time, Scheduled>

  /** The occupied times at or after `t`; it shrinks as the probe moves forward. */
  ghost function At(keys: set<Time>, t: Time): set<Time> {
    set k | k in keys && t <= k
  }

  /**
   * The slot an insertion requested at `t` lands in: the first free time
   * `t + k * MIN_LATENCY` (as MIN_LATENCY is one millisecond, every time
   * from `t` on is probed in turn).
   */
  ghost function FreeSlot(m: Messages, t: Time): (slot: Time)
    ensures slot !in m
    ensures t <= slot
    decreases |At(m.Keys, t)|
  {
    if t in m then
      assert At(m.Keys, t + MIN_LATENCY) == At(m.Keys, t) - {t};
      FreeSlot(m, t + MIN_LATENCY)
    else
      t
  }

  /** Every time probed before the free slot was taken: the slot is the first free one. */
  lemma {:induction false} FreeSlotIsFirst(m: Messages, t: Time)
    ensures forall u :: t <= u < FreeSlot(m, t) ==> u in m
    decreases |At(m.Keys, t)|
  {
    if t in m {
      assert At(m.Keys, t + MIN_LATENCY) == At(m.Keys, t) - {t};
      FreeSlotIsFirst(m, t + MIN_LATENCY);
    }
  }

  /** The inbox after `msg` is inserted at requested time `t`: it takes the free slot. */
  ghost function Inserted(m: Messages, t: Time, msg: Scheduled): Messages {
    m[FreeSlot(m, t) := msg]
  }

  /**
   * An insertion never overwrites: it adds exactly one slot, the first free
   * time at or after the requested one, holding the new entry, and every
   * earlier entry keeps its slot and its value.
   */
  lemma InsertNeverOverwrites(m: Messages, t: Time, msg: Scheduled)
    ensures var r := Inserted(m, t, msg);
            var slot := FreeSlot(m, t);
            && slot !in m && t <= slot
            && (forall u :: t <= u < slot ==> u in m)
            && r.Keys == m.Keys + {slot}
            && (forall u :: u in m ==> r[u] == m[u])
            && r[slot] == msg
  {
    FreeSlotIsFirst(m, t);
  }

  /** An insertion grows the inbox by exactly one entry. */
  lemma InsertedGrows(m: Messages, t: Time, msg: Scheduled)
    ensures |Inserted(m, t, msg)| == |m| + 1
  {
  }

  /** Every nonempty set of times has a least element, returned as `t`. */
  lemma {:induction false} LeastOf(s: set<Time>) returns (t: Time)
    requires s != {}
    ensures t in s && forall u :: u in s ==> t <= u
    decreases |s|
  {
    var x :| x in s;
    var rest := s - {x};
    if rest == {} {
      assert s == {x};
      t := x;
    } else {
      var least := LeastOf(rest);
      t := if x < least then x else least;
      forall u | u in s
        ensures t <= u
      {
        if u != x {
          assert u in rest;
        }
      }
    }
  }

  /** The earliest scheduled entry, or `None` when nothing is scheduled. */
  function Earliest(m: Messages): (r: Option<(Time, Scheduled)>)
    ensures r.None? <==> m == map[]
    ensures r.Some? ==> r.value.0 in m && m[r.value.0] == r.value.1
    ensures r.Some? ==> forall u :: u in m ==> r.value.0 <= u
  {
    if m == map[] then
      None
    else
      assert exists t :: t in m && forall u :: u in m ==> t <= u by {
        var k :| k in m;
        var t := LeastOf(m.Keys);
      }
      var t :| t in m && forall u :: u in m ==> t <= u;
      Some((t, m[t]))
  }

  /**
   * Two insertions requested at the same time never share a slot, and the
   * one inserted first gets the earlier slot.
   */
  lemma InsertOrder(m: Messages, t: Time, first: Scheduled)
    ensures FreeSlot(m, t) < FreeSlot(Inserted(m, t, first), t)
  {
    var r := Inserted(m, t, first);
    FreeSlotIsFirst(m, t);
    FreeSlotIsFirst(r, t);
  }

  /** The inbox after each of `msgs`, in order, is inserted at requested time `t`. */
  ghost function InsertedAll(m: Messages, t: Time, msgs: seq<Scheduled>): Messages
    decreases |msgs|
  {
    if msgs == [] then m
    else Inserted(InsertedAll(m, t, msgs[..|msgs| - 1]), t, msgs[|msgs| - 1])
  }

  /** The slots taken by each of `msgs`, in insertion order. */
  ghost function Slots(m: Messages, t: Time, msgs: seq<Scheduled>): (r: seq<Time>)
    ensures |r| == |msgs|
    decreases |msgs|
  {
    if msgs == [] then []
    else
      var n := |msgs| - 1;
      Slots(m, t, msgs[..n]) + [FreeSlot(InsertedAll(m, t, msgs[..n]), t)]
  }

  /**
   * N insertions requested at one time drop nothing: every earlier entry
   * stays as it was and the inbox grows by exactly N.
   */
  lemma {:induction false} CollidingInsertionsKeep(m: Messages, t: Time, msgs: seq<Scheduled>)
    ensures var r := InsertedAll(m, t, msgs);
            && |r| == |m| + |msgs|
            && (forall u :: u in m ==> u in r && r[u] == m[u])
    decreases |msgs|
  {
    if msgs != [] {
      var n := |msgs| - 1;
      CollidingInsertionsKeep(m, t, msgs[..n]);
      var r0 := InsertedAll(m, t, msgs[..n]);
      InsertedGrows(r0, t, msgs[n]);
      assert InsertedAll(m, t, msgs) == Inserted(r0, t, msgs[n]);
    }
  }

  /**
   * N insertions requested at one time: each message lands in a slot no
   * earlier than the request that was free beforehand, and is kept there.
   */
  lemma {:induction false} CollidingInsertionsPlaced(m: Messages, t: Time, msgs: seq<Scheduled>)
    ensures var r := InsertedAll(m, t, msgs);
            forall i :: 0 <= i < |msgs| ==> var slot := Slots(m, t, msgs)[i];
              t <= slot && slot !in m && slot in r && r[slot] == msgs[i]
    decreases |msgs|
  {
    if msgs != [] {
      var n := |msgs| - 1;
      var prefix := msgs[..n];
      CollidingInsertionsPlaced(m, t, prefix);
      CollidingInsertionsKeep(m, t, prefix);
      var r0 := InsertedAll(m, t, prefix);
      var s0 := Slots(m, t, prefix);
      var r := InsertedAll(m, t, msgs);
      var slots := Slots(m, t, msgs);
      assert r == Inserted(r0, t, msgs[n]);
      assert slots == s0 + [FreeSlot(r0, t)];
      forall i | 0 <= i < |msgs|
        ensures t <= slots[i] && slots[i] !in m && slots[i] in r && r[slots[i]] == msgs[i]
      {
        if i < n {
          assert slots[i] == s0[i] && msgs[i] == prefix[i];
          assert s0[i] in r0;
        } else {
          assert slots[i] == FreeSlot(r0, t);
        }
      }
    }
  }

  /**
   * N insertions requested at one time take N distinct slots, strictly
   * increasing in insertion order: the first inserted is delivered first.
   */
  lemma {:induction false} CollidingInsertionsOrdered(m: Messages, t: Time, msgs: seq<Scheduled>)
    ensures forall i, j :: 0 <= i < j < |msgs| ==> Slots(m, t, msgs)[i] < Slots(m, t, msgs)[j]
    decreases |msgs|
  {
    if msgs != [] {
      var n := |msgs| - 1;
      var prefix := msgs[..n];
      CollidingInsertionsOrdered(m, t, prefix);
      var s0 := Slots(m, t, prefix);
      var slots := Slots(m, t, msgs);
      assert slots == s0 + [FreeSlot(InsertedAll(m, t, prefix), t)];
      forall i, j | 0 <= i < j < |msgs|
        ensures slots[i] < slots[j]
      {
        assert slots[i] == s0[i];
        if j == n {
          LastSlotIsLargest(m, t, prefix, i);
        } else {
          assert slots[j] == s0[j];
          assert s0[i] < s0[j];
        }
      }
    }
  }

  /**
   * After a run of insertions at `t`, every slot taken by the run lies below
   * the next free slot from `t`.
   */
  lemma {:induction false} LastSlotIsLargest(m: Messages, t: Time, msgs: seq<Scheduled>, i: nat)
    requires i < |msgs|
    ensures Slots(m, t, msgs)[i] < FreeSlot(InsertedAll(m, t, msgs), t)
    decreases |msgs|
  {
    var n := |msgs| - 1;
    var r0 := InsertedAll(m, t, msgs[..n]);
    InsertOrder(r0, t, msgs[n]);
    assert InsertedAll(m, t, msgs) == Inserted(r0, t, msgs[n]);
    assert Slots(m, t, msgs) == Slots(m, t, msgs[..n]) + [FreeSlot(r0, t)];
    if i < n {
      LastSlotIsLargest(m, t, msgs[..n], i);
    }
  }

  /** `after` holds every entry of `before`, unchanged. */
  ghost predicate Extends<K, V>(before: map<K, V>, after: map<K, V>) {
    forall k :: k in before ==> k in after && after[k] == before[k]
  }

  /** `entry` sits in `after` at slot `s`, which was free in `before`. */
  ghost predicate NewAt(before: Messages, after: Messages, s: Time, entry: Scheduled) {
    s !in before && s in after && after[s] == entry
  }

  /** No scheduled entry lies before `time`. */
  ghost predicate NothingPast(m: Messages, time: Time) {
    forall t :: t in m ==> time <= t
  }

  /** An insertion keeps every entry as it was and places its entry in a slot that was free. */
  lemma InsertedExtends(m: Messages, t: Time, msg: Scheduled)
    ensures Extends(m, Inserted(m, t, msg))
    ensures t <= FreeSlot(m, t) && NewAt(m, Inserted(m, t, msg), FreeSlot(m, t), msg)
  {
  }

  /** Inserting no earlier than the current time keeps the past empty. */
  lemma InsertedKeepsPast(m: Messages, time: Time, t: Time, msg: Scheduled)
    requires NothingPast(m, time) && time <= t
    ensures NothingPast(Inserted(m, t, msg), time)
  {
  }

  /**
   * Two insertions, requested at `t0` and then at `t1`: each lands in a new
   * slot at or after its request, and nothing earlier is lost; when both are
   * requested at the same time the first lands strictly before the second.
   */
  lemma TwoInsertions(m: Messages, r: Messages, t0: Time, a: Scheduled, t1: Time, b: Scheduled) returns (s0: Time, s1: Time)
    requires r == Inserted(Inserted(m, t0, a), t1, b)
    ensures && t0 <= s0 && NewAt(m, r, s0, a)
            && t1 <= s1 && NewAt(m, r, s1, b)
            && s0 != s1 && (t0 == t1 ==> s0 < s1)
            && Extends(m, r) && |r| == |m| + 2
  {
    var m1 := Inserted(m, t0, a);
    s0 := FreeSlot(m, t0);
    s1 := FreeSlot(m1, t1);
    InsertedExtends(m, t0, a);
    InsertedExtends(m1, t1, b);
    InsertedGrows(m, t0, a);
    InsertedGrows(m1, t1, b);
    if t0 == t1 {
      InsertOrder(m, t0, a);
    }
    ExtendsTransitive(m, m1, r);
    NewAtLater(m, m1, r, s0, a);
    NewAtEarlier(m, m1, r, s1, b);
  }

  /** `Extends` is transitive. */
  lemma ExtendsTransitive<K, V>(a: map<K, V>, b: map<K, V>, c: map<K, V>)
    requires Extends(a, b) && Extends(b, c)
    ensures Extends(a, c)
  {
  }

  /** A new entry stays new across later insertions... */
  lemma NewAtLater(a: Messages, b: Messages, c: Messages, s: Time, e: Scheduled)
    requires NewAt(a, b, s, e) && Extends(b, c)
    ensures NewAt(a, c, s, e)
  {
  }

  /** ...and is new with respect to any earlier inbox. */
  lemma NewAtEarlier(a: Messages, b: Messages, c: Messages, s: Time, e: Scheduled)
    requires Extends(a, b) && NewAt(b, c, s, e)
    ensures NewAt(a, c, s, e)
  {
  }

  /**
   * One insertion at `t0` followed by two at `t`: each lands in a new slot
   * at or after its request, the two at `t` in insertion order, and nothing
   * earlier is lost.
   */
  lemma ThreeInsertions(m: Messages, r: Messages, t0: Time, t: Time, a: Scheduled, b: Scheduled, c: Scheduled)
    returns (s: Time, i: Time, o: Time)
    requires r == Inserted(Inserted(Inserted(m, t0, a), t, b), t, c)
    ensures && Extends(m, r) && |r| == |m| + 3
            && t0 <= s && NewAt(m, r, s, a)
            && i < o && t <= i && NewAt(m, r, i, b) && t <= o && NewAt(m, r, o, c)
  {
    var m1 := Inserted(m, t0, a);
    InsertedExtends(m, t0, a);
    InsertedGrows(m, t0, a);
    s := FreeSlot(m, t0);
    i, o := TwoInsertions(m1, r, t, b, t, c);
    ExtendsTransitive(m, m1, r);
    NewAtLater(m, m1, r, s, a);
    NewAtEarlier(m, m1, r, i, b);
    NewAtEarlier(m, m1, r, o, c);
  }

  /** Three insertions no earlier than the current time keep every entry and keep the past empty. */
  lemma ThreeInsertionsKeepPast(m: Messages, r: Messages, time: Time, t0: Time, t: Time, a: Scheduled, b: Scheduled, c: Scheduled)
    requires r == Inserted(Inserted(Inserted(m, t0, a), t, b), t, c)
    requires NothingPast(m, time) && time <= t0 && time <= t
    ensures NothingPast(r, time) && Extends(m, r)
  {
    var m1 := Inserted(m, t0, a);
    var m2 := Inserted(m1, t, b);
    InsertedKeepsPast(m, time, t0, a);
    InsertedKeepsPast(m1, time, t, b);
    InsertedKeepsPast(m2, time, t, c);
    InsertedExtends(m, t0, a);
    InsertedExtends(m1, t, b);
    InsertedExtends(m2, t, c);
    ExtendsTransitive(m, m1, m2);
    ExtendsTransitive(m, m2, Inserted(m2, t, c));
  }

  /**
   * The inbox of the simulator: a time-ordered map from delivery time to one
   * scheduled input.
   */
  class Inbox {
    var messages: Messages

    constructor ()
      ensures messages == map[]
    {
      messages := map[];
    }

    /** Add a scheduled input, moving it later until its time slot is free. */
    method Insert(time: Time, msg: Scheduled)
      modifies this
      ensures messages == Inserted(old(messages), time, msg)
    {
      var t: Time := time;
      while t in messages
        invariant FreeSlot(messages, t) == FreeSlot(messages, time)
        decreases |At(messages.Keys, t)|
      {
        assert At(messages.Keys, t + MIN_LATENCY) == At(messages.Keys, t) - {t};
        t := t + MIN_LATENCY;
      }
      messages := messages[t := msg];
    }

    /** The next scheduled input to be delivered, without removing it. */
    function Next(): (r: Option<(Time, Scheduled)>)
      reads this
      ensures r.None? <==> messages == map[]
      ensures r.Some? ==> r.value.0 in messages && messages[r.value.0] == r.value.1
      ensures r.Some? ==> forall u :: u in messages ==> r.value.0 <= u
    {
      Earliest(messages)
    }
  }
}
