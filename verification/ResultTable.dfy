/** `ensure_slot` by what is in the table before and after. */
module ResultTable {
  import opened ResultChannel
  import opened Wrappers

  /** A result is there, nobody is using it, and its time to live has gone by. */
  predicate Outlived(slot: Slot, ttlSecs: nat, now: nat) {
    slot.data.Some? && slot.lockedBy.None? && (ttlSecs == 0 || slot.createdAt + ttlSecs * 1_000_000_000 <= now)
  }

  predicate Live(c: Channel, key: Key, now: nat)
    requires Valid(c)
  {
    key in c.slots && !Outlived(c.heap[c.slots[key]], c.ttlSecs, now)
  }

  /** Nothing but what outlived its time goes. */
  ghost predicate Finds(c: Channel, key: Key, now: nat, c': Channel, id: SlotId)
    requires Valid(c)
  {
    && key in c.slots && id == c.slots[key] && c'.heap == c.heap && c'.woken == c.woken && c'.evictions == c.evictions
    && (forall k :: k in c'.slots <==> Live(c, k, now))
    && (forall k | k in c'.slots && k in c.slots :: c'.slots[k] == c.slots[k])
  }

  /** A new empty slot; beside it the live ones stay, up to the limit and the youngest of them. */
  ghost predicate Makes(c: Channel, key: Key, now: nat, c': Channel, id: SlotId)
    requires Valid(c)
  {
    var live := set k | k in c.slots && Live(c, k, now);
    && id !in c.heap && id in c'.heap && c'.heap[id] == Slot(key, None, {}, now, None)
    && key in c'.slots && c'.slots[key] == id
    && (forall k | k in c'.slots && k != key :: k in live && c'.slots[k] == c.slots[k])
    && (forall k, k' | k in live && k !in c'.slots && k' in c'.slots && k' in live ::
          c.heap[c.slots[k]].createdAt <= c.heap[c.slots[k']].createdAt)
    && |c'.slots| == (if |live| < c.maxSlots then |live| + 1 else if c.maxSlots == 0 then 1 else c.maxSlots)
    && c'.evictions == c.evictions + (|live| + 1 - |c'.slots|)
  }

  lemma StaleExactly(c: Channel, key: Key, now: nat)
    requires Valid(c) && key in c.slots
    ensures Stale(c, key, now) <==> Outlived(c.heap[c.slots[key]], c.ttlSecs, now)
  {
  }

  lemma RetainKeepsLive(c: Channel, now: nat)
    requires Valid(c)
    ensures forall k :: k in Retain(c, now).slots <==> Live(c, k, now)
  {
    forall k | k in c.slots ensures Stale(c, k, now) <==> !Live(c, k, now) {
      StaleExactly(c, k, now);
    }
  }

  lemma MadeFrom(r: Channel, key: Key, now: nat, evicted: set<Key>, c': Channel, id: SlotId)
    requires Valid(r) && key !in r.slots && evicted <= r.slots.Keys && EnsuredBy(r, key, now, evicted, c', id)
    ensures id !in r.heap && id in c'.heap && c'.heap[id] == Slot(key, None, {}, now, None)
    ensures c'.slots == (r.slots - evicted)[key := id]
    ensures |c'.slots| == (if |r.slots| < r.maxSlots then |r.slots| + 1 else if r.maxSlots == 0 then 1 else r.maxSlots)
    ensures c'.evictions == r.evictions + (|r.slots| + 1 - |c'.slots|)
  {
    EvictValid(r, evicted);
    var kept := r.slots - evicted;
    assert |kept[key := id]| == |kept| + 1;
  }

  /** In every state of the channel: `ensure_slot` finds the slot of its key exactly if the key is live, and else makes
      one, evicting only to stay within the limit and the oldest first. */
  lemma EnsuredExactly(c: Channel, key: Key, now: nat, c': Channel, id: SlotId)
    requires Valid(c) && Ensured(c, key, now, c', id)
    ensures Live(c, key, now) ==> Finds(c, key, now, c', id)
    ensures !Live(c, key, now) ==> Makes(c, key, now, c', id)
  {
    var r := Retain(c, now);
    RetainValid(c, now);
    RetainKeepsLive(c, now);
    if key !in r.slots {
      var evicted: set<Key> :| evicted <= r.slots.Keys && EnsuredBy(r, key, now, evicted, c', id);
      MadeFromLive(c, key, now, evicted, c', id);
    }
  }

  lemma MadeFromLive(c: Channel, key: Key, now: nat, evicted: set<Key>, c': Channel, id: SlotId)
    requires Valid(c)
    requires var r := Retain(c, now);
             Valid(r) && key !in r.slots && evicted <= r.slots.Keys && EnsuredBy(r, key, now, evicted, c', id)
    ensures Makes(c, key, now, c', id)
  {
    var r := Retain(c, now);
    RetainKeepsLive(c, now);
    MadeFrom(r, key, now, evicted, c', id);
    var live := set k | k in c.slots && Live(c, k, now);
    assert live == r.slots.Keys && |live| == |r.slots|;
    forall k, k' | k in live && k !in c'.slots && k' in c'.slots && k' in live
      ensures c.heap[c.slots[k]].createdAt <= c.heap[c.slots[k']].createdAt
    {
      assert k in evicted && k' !in evicted && CreatedAt(r, k) <= CreatedAt(r, k');
    }
  }
}
