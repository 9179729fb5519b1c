/** The in-memory result relay: slots keyed by request, TTL cleanup of completed slots, oldest-first
    eviction at capacity. Subscribers wait on a slot's notifier; publishers write and notify. */
module ResultChannel {
  import opened Wrappers

  type Key = string
  type Summary = string
  type TaskId = nat
  /** The identity of an allocated slot: a slot outlives its removal from the table. */
  type SlotId = nat

  /** `waiters` are the tasks registered on the slot's notifier and not yet notified. */
  datatype Slot = Slot(key: Key, data: Option<Summary>, waiters: set<TaskId>, createdAt: nat, lockedBy: Option<TaskId>)

  datatype Channel = Channel(
    maxSlots: nat,
    ttlSecs: nat,
    slots: map<Key, SlotId>,
    heap: map<SlotId, Slot>,
    woken: set<TaskId>,
    inserted: nat,
    evictions: nat,
    expired: nat
  )

  function Capacity(c: Channel): nat {
    if c.maxSlots == 0 then 1 else c.maxSlots
  }

  /** The slot is the one its key leads to. */
  predicate Mapped(c: Channel, id: SlotId)
    requires id in c.heap
  {
    c.heap[id].key in c.slots && c.slots[c.heap[id].key] == id
  }

  /** Table and slots agree, the table is within capacity, and every slot ever inserted is present,
      evicted or expired. */
  predicate Valid(c: Channel) {
    && (forall k | k in c.slots :: c.slots[k] in c.heap && c.heap[c.slots[k]].key == k)
    && (forall id | id in c.heap :: id < c.inserted)
    && |c.slots| <= Capacity(c)
    && c.inserted == |c.slots| + c.evictions + c.expired
  }

  function Empty(maxSlots: nat, ttlSecs: nat): (c: Channel)
    ensures Valid(c)
  {
    Channel(maxSlots, ttlSecs, map[], map[], {}, 0, 0, 0)
  }

  // ---------------------------------------------------------------------------
  // ensure_slot, in closed form
  // ---------------------------------------------------------------------------

  const NANOS: nat := 1_000_000_000

  /** Completed, past its time to live, and not locked by anyone at this moment. */
  predicate Stale(c: Channel, key: Key, now: nat)
    requires Valid(c) && key in c.slots
  {
    var slot := c.heap[c.slots[key]];
    var elapsed := if slot.createdAt <= now then now - slot.createdAt else 0;
    elapsed / NANOS >= c.ttlSecs && slot.lockedBy.None? && slot.data.Some?
  }

  function StaleKeys(c: Channel, now: nat): set<Key>
    requires Valid(c)
  {
    set k | k in c.slots && Stale(c, k, now)
  }

  function Retain(c: Channel, now: nat): (r: Channel)
    requires Valid(c)
  {
    c.(slots := c.slots - StaleKeys(c, now), expired := c.expired + |StaleKeys(c, now)|)
  }

  /** `notify_waiters` on one slot. */
  function Notify(c: Channel, id: SlotId): (r: Channel)
    requires id in c.heap
  {
    c.(heap := c.heap[id := c.heap[id].(waiters := {})], woken := c.woken + c.heap[id].waiters)
  }

  function EvictOne(c: Channel, key: Key): (r: Channel)
    requires Valid(c) && key in c.slots
  {
    Notify(c, c.slots[key]).(slots := c.slots - {key}, evictions := c.evictions + 1)
  }

  predicate Hit(c: Channel, evicted: set<Key>, id: SlotId)
    requires id in c.heap
  {
    Mapped(c, id) && c.heap[id].key in evicted
  }

  function EvictedSlot(c: Channel, evicted: set<Key>, id: SlotId): Slot
    requires id in c.heap
  {
    if Hit(c, evicted, id) then c.heap[id].(waiters := {}) else c.heap[id]
  }

  /** The eviction of a set of keys at once. */
  function Evict(c: Channel, evicted: set<Key>): (r: Channel)
    requires Valid(c) && evicted <= c.slots.Keys
  {
    c.(slots := c.slots - evicted,
       heap := map id | id in c.heap :: EvictedSlot(c, evicted, id),
       woken := c.woken + set id, t | id in c.heap && Hit(c, evicted, id) && t in c.heap[id].waiters :: t,
       evictions := c.evictions + |evicted|)
  }

  function CreatedAt(c: Channel, key: Key): nat
    requires Valid(c) && key in c.slots
  {
    c.heap[c.slots[key]].createdAt
  }

  /** No slot that stays is older than one that goes. */
  predicate OldestFirst(c: Channel, evicted: set<Key>)
    requires Valid(c) && evicted <= c.slots.Keys
  {
    forall e, k | e in evicted && k in c.slots && k !in evicted :: CreatedAt(c, e) <= CreatedAt(c, k)
  }

  /** How many slots must go to make room for one more. */
  function Excess(c: Channel): nat {
    if |c.slots| < c.maxSlots then 0
    else if c.maxSlots == 0 then |c.slots|
    else |c.slots| - c.maxSlots + 1
  }

  function Insert(c: Channel, key: Key, now: nat): (r: Channel) {
    c.(slots := c.slots[key := c.inserted],
       heap := c.heap[c.inserted := Slot(key, None, {}, now, None)],
       inserted := c.inserted + 1)
  }

  /** The slot of `key` is found, or made after evicting exactly as many of the oldest slots as needed. */
  ghost predicate Ensured(c: Channel, key: Key, now: nat, c': Channel, id: SlotId)
    requires Valid(c)
  {
    var r := Retain(c, now);
    RetainValid(c, now);
    if key in r.slots then c' == r && id == r.slots[key]
    else exists evicted: set<Key> | evicted <= r.slots.Keys :: EnsuredBy(r, key, now, evicted, c', id)
  }

  ghost predicate EnsuredBy(r: Channel, key: Key, now: nat, evicted: set<Key>, c': Channel, id: SlotId)
    requires Valid(r) && evicted <= r.slots.Keys
  {
    && OldestFirst(r, evicted) && |evicted| == Excess(r)
    && c' == Insert(Evict(r, evicted), key, now) && id == r.inserted
  }

  lemma RemoveKeysCount<K, V>(m: map<K, V>, ks: set<K>)
    requires ks <= m.Keys
    ensures |m - ks| == |m| - |ks|
  {
    assert (m - ks).Keys == m.Keys - ks;
    assert |m.Keys - ks| == |m.Keys| - |ks|;
    assert |m - ks| == |(m - ks).Keys| && |m| == |m.Keys|;
  }

  lemma RetainValid(c: Channel, now: nat)
    requires Valid(c)
    ensures Valid(Retain(c, now))
  {
    RemoveKeysCount(c.slots, StaleKeys(c, now));
  }

  lemma EvictOneMore(c: Channel, evicted: set<Key>, key: Key)
    requires Valid(c) && evicted <= c.slots.Keys && key in c.slots && key !in evicted
    requires Valid(Evict(c, evicted))
    ensures EvictOne(Evict(c, evicted), key) == Evict(c, evicted + {key})
  {
    var one, all := EvictOne(Evict(c, evicted), key), Evict(c, evicted + {key});
    assert one.slots == all.slots;
    EvictOneMoreHeap(c, evicted, key);
    EvictOneMoreWoken(c, evicted, key);
    assert |evicted + {key}| == |evicted| + 1;
  }

  lemma HitOneMore(c: Channel, evicted: set<Key>, key: Key, id: SlotId)
    requires Valid(c) && key in c.slots && id in c.heap
    ensures Hit(c, evicted + {key}, id) <==> Hit(c, evicted, id) || id == c.slots[key]
  {
  }

  lemma EvictOneMoreAt(c: Channel, evicted: set<Key>, key: Key, id: SlotId)
    requires Valid(c) && key in c.slots && key !in evicted && id in c.heap
    ensures EvictedSlot(c, evicted + {key}, id)
         == if id == c.slots[key] then EvictedSlot(c, evicted, id).(waiters := {}) else EvictedSlot(c, evicted, id)
  {
    HitOneMore(c, evicted, key, id);
  }

  lemma EvictOneMoreHeap(c: Channel, evicted: set<Key>, key: Key)
    requires Valid(c) && evicted <= c.slots.Keys && key in c.slots && key !in evicted
    ensures Notify(Evict(c, evicted), c.slots[key]).heap == Evict(c, evicted + {key}).heap
  {
    forall id | id in c.heap
      ensures EvictedSlot(c, evicted + {key}, id)
           == if id == c.slots[key] then EvictedSlot(c, evicted, id).(waiters := {}) else EvictedSlot(c, evicted, id)
    {
      EvictOneMoreAt(c, evicted, key, id);
    }
  }

  lemma EvictOneMoreWoken(c: Channel, evicted: set<Key>, key: Key)
    requires Valid(c) && evicted <= c.slots.Keys && key in c.slots && key !in evicted
    requires Valid(Evict(c, evicted))
    ensures EvictOne(Evict(c, evicted), key).woken == Evict(c, evicted + {key}).woken
  {
    var mid := Evict(c, evicted);
    var one, all := EvictOne(mid, key).woken, Evict(c, evicted + {key}).woken;
    var hit := c.slots[key];
    assert !Hit(c, evicted, hit) && mid.heap[hit] == c.heap[hit];
    assert one == mid.woken + c.heap[hit].waiters;
    forall t | t in all ensures t in one {
      if t !in c.woken {
        var id :| id in c.heap && Hit(c, evicted + {key}, id) && t in c.heap[id].waiters;
        HitOneMore(c, evicted, key, id);
      }
    }
    forall t | t in one ensures t in all {
      HitOneMore(c, evicted, key, hit);
      if t !in c.woken && t !in c.heap[hit].waiters {
        var id :| id in c.heap && Hit(c, evicted, id) && t in c.heap[id].waiters;
        HitOneMore(c, evicted, key, id);
      }
    }
  }

  lemma EvictNone(c: Channel)
    requires Valid(c)
    ensures Evict(c, {}) == c
  {
    assert Evict(c, {}).heap == c.heap && Evict(c, {}).slots == c.slots && Evict(c, {}).woken == c.woken;
  }

  predicate Oldest(c: Channel, key: Key)
    requires Valid(c) && key in c.slots
  {
    forall k | k in c.slots :: CreatedAt(c, key) <= CreatedAt(c, k)
  }

  lemma OldestFirstMore(c: Channel, evicted: set<Key>, key: Key)
    requires Valid(c) && evicted <= c.slots.Keys && key in c.slots && key !in evicted
    requires OldestFirst(c, evicted) && Valid(Evict(c, evicted))
    requires Oldest(Evict(c, evicted), key)
    ensures OldestFirst(c, evicted + {key})
  {
    var mid := Evict(c, evicted);
    forall k | k in c.slots && k !in evicted ensures CreatedAt(c, key) <= CreatedAt(c, k) {
      assert k in mid.slots;
      assert CreatedAt(mid, k) == CreatedAt(c, k) && CreatedAt(mid, key) == CreatedAt(c, key);
    }
  }

  lemma EvictStep(r: Channel, evicted: set<Key>, key: Key)
    requires Valid(r) && evicted <= r.slots.Keys && OldestFirst(r, evicted)
    requires Valid(Evict(r, evicted)) && key in Evict(r, evicted).slots && Oldest(Evict(r, evicted), key)
    ensures var more := evicted + {key};
            && |more| == |evicted| + 1 && more <= r.slots.Keys && OldestFirst(r, more)
            && EvictOne(Evict(r, evicted), key) == Evict(r, more)
            && Valid(Evict(r, more)) && |Evict(r, more).slots| == |r.slots| - |more|
  {
    EvictOneMore(r, evicted, key);
    OldestFirstMore(r, evicted, key);
    EvictValid(r, evicted + {key});
  }

  lemma EvictValid(c: Channel, evicted: set<Key>)
    requires Valid(c) && evicted <= c.slots.Keys
    ensures Valid(Evict(c, evicted))
    ensures |Evict(c, evicted).slots| == |c.slots| - |evicted|
  {
    RemoveKeysCount(c.slots, evicted);
  }

  lemma InsertValid(c: Channel, key: Key, now: nat)
    requires Valid(c) && key !in c.slots && |c.slots| < Capacity(c)
    ensures Valid(Insert(c, key, now))
  {
    var r := Insert(c, key, now);
    assert |r.slots| == |c.slots| + 1;
    forall k | k in r.slots ensures r.slots[k] in r.heap && r.heap[r.slots[k]].key == k {
    }
  }

  function Reset(c: Channel, id: SlotId): (r: Channel)
    requires id in c.heap
  {
    if c.heap[id].lockedBy.None? then c.(heap := c.heap[id := c.heap[id].(data := None)]) else c
  }

  lemma EnsuredInHeap(c: Channel, key: Key, now: nat, c': Channel, id: SlotId)
    requires Valid(c) && Ensured(c, key, now, c', id)
    ensures id in c'.heap && c'.heap[id].key == key
  {
  }

  function NotifiedSlot(c: Channel, ids: set<SlotId>, id: SlotId): Slot
    requires id in c.heap
  {
    if id in ids then c.heap[id].(waiters := {}) else c.heap[id]
  }

  /** The waiters of a set of slots are woken. */
  function NotifySet(c: Channel, ids: set<SlotId>): (r: Channel) {
    c.(heap := map id | id in c.heap :: NotifiedSlot(c, ids, id),
       woken := c.woken + set id, t | id in c.heap && id in ids && t in c.heap[id].waiters :: t)
  }

  lemma NotifyNone(c: Channel)
    ensures NotifySet(c, {}) == c
  {
    assert NotifySet(c, {}).heap == c.heap;
    assert NotifySet(c, {}).woken == c.woken;
  }

  lemma NotifyOneMore(c: Channel, ids: set<SlotId>, id: SlotId)
    requires id in c.heap && id !in ids
    ensures Notify(NotifySet(c, ids), id) == NotifySet(c, ids + {id})
  {
    var one, all := Notify(NotifySet(c, ids), id), NotifySet(c, ids + {id});
    assert one.heap == all.heap;
    assert NotifySet(c, ids).heap[id] == c.heap[id];
    assert one.woken == all.woken;
  }

  // ---------------------------------------------------------------------------
  // The table as an object, ensure_slot as the loop the source runs
  // ---------------------------------------------------------------------------

  class InMemoryResultChannel {
    const maxSlots: nat
    const ttlSecs: nat
    var slots: map<Key, SlotId>
    var heap: map<SlotId, Slot>
    var woken: set<TaskId>
    var inserted: nat
    var evictions: nat
    var expired: nat

    function View(): Channel
      reads this
    {
      Channel(maxSlots, ttlSecs, slots, heap, woken, inserted, evictions, expired)
    }

    constructor (maxSlots: nat, ttlSecs: nat)
      ensures View() == Empty(maxSlots, ttlSecs) && Valid(View())
    {
      this.maxSlots, this.ttlSecs := maxSlots, ttlSecs;
      slots, heap, woken := map[], map[], {};
      inserted, evictions, expired := 0, 0, 0;
    }

    method NotifyWaiters(id: SlotId)
      requires id in heap
      modifies this`heap, this`woken
      ensures View() == Notify(old(View()), id)
    {
      woken := woken + heap[id].waiters;
      heap := heap[id := heap[id].(waiters := {})];
    }

    method EnsureSlot(key: Key, now: nat) returns (id: SlotId)
      requires Valid(View())
      modifies this
      ensures Ensured(old(View()), key, now, View(), id) && Valid(View())
    {
      RetainExpired(now);
      if key in slots {
        return slots[key];
      }
      ghost var r := View();
      ghost var evicted := EvictToCapacity();
      InsertValid(View(), key, now);
      id := AddSlot(key, now);
      assert EnsuredBy(r, key, now, evicted, View(), id);
    }

    /** `retain`: completed slots past their time to live go. */
    method RetainExpired(now: nat)
      requires Valid(View())
      modifies this`slots, this`expired
      ensures View() == Retain(old(View()), now) && Valid(View())
    {
      RetainValid(View(), now);
      var stale := StaleKeys(View(), now);
      expired := expired + |stale|;
      slots := slots - stale;
    }

    method AddSlot(key: Key, now: nat) returns (id: SlotId)
      modifies this`slots, this`heap, this`inserted
      ensures View() == Insert(old(View()), key, now) && id == old(inserted)
    {
      id := inserted;
      slots := slots[key := id];
      heap := heap[id := Slot(key, None, {}, now, None)];
      inserted := inserted + 1;
    }

    /** Evicts the oldest slot until there is room for one more, waking everyone who waits on it. */
    method EvictToCapacity() returns (ghost evicted: set<Key>)
      requires Valid(View())
      modifies this
      ensures evicted <= old(slots).Keys && View() == Evict(old(View()), evicted) && Valid(View())
      ensures OldestFirst(old(View()), evicted) && |evicted| == Excess(old(View()))
      ensures |slots| < Capacity(View())
    {
      evicted := {};
      ghost var r := View();
      EvictNone(r);
      while |slots| >= maxSlots
        invariant evicted <= r.slots.Keys && View() == Evict(r, evicted) && Valid(View())
        invariant OldestFirst(r, evicted) && |evicted| <= Excess(r)
        invariant |slots| == |r.slots| - |evicted|
        decreases |slots|
      {
        if |slots| == 0 {
          break;
        }
        var oldest := EvictOldest();
        EvictStep(r, evicted, oldest);
        evicted := evicted + {oldest};
      }
    }

    method EvictOldest() returns (oldest: Key)
      requires Valid(View()) && |slots| > 0
      modifies this
      ensures oldest in old(slots) && View() == EvictOne(old(View()), oldest)
      ensures Oldest(old(View()), oldest)
    {
      oldest := OldestKey();
      NotifyWaiters(slots[oldest]);
      slots := slots - {oldest};
      evictions := evictions + 1;
    }

    /** A retried request starts over: its slot's data is cleared unless someone holds the data lock. */
    method CreateSlot(key: Key, now: nat) returns (id: SlotId)
      requires Valid(View())
      modifies this
      ensures exists made :: Ensured(old(View()), key, now, made, id) && id in made.heap && View() == Reset(made, id)
    {
      id := EnsureSlot(key, now);
      EnsuredInHeap(old(View()), key, now, View(), id);
      ghost var made := View();
      if heap[id].lockedBy.None? {
        heap := heap[id := heap[id].(data := None)];
      }
      assert View() == Reset(made, id);
    }

    /** Shutdown: every slot in the table is notified. */
    method NotifyAll()
      requires Valid(View())
      modifies this`heap, this`woken
      ensures View() == NotifySet(old(View()), slots.Values)
    {
      NotifyEach(slots.Values);
    }

    method NotifyEach(ids: set<SlotId>)
      requires ids <= heap.Keys
      modifies this`heap, this`woken
      ensures View() == NotifySet(old(View()), ids)
    {
      var todo := ids;
      NotifyNone(View());
      while todo != {}
        invariant todo <= ids && View() == NotifySet(old(View()), ids - todo)
        decreases todo
      {
        var id :| id in todo;
        NotifyOneMore(old(View()), ids - todo, id);
        assert ids - todo + {id} == ids - (todo - {id});
        NotifyWaiters(id);
        todo := todo - {id};
      }
      assert ids - {} == ids;
    }

    /** `min_by_key` on the creation time: any of the oldest. */
    method OldestKey() returns (key: Key)
      requires Valid(View()) && |slots| > 0
      ensures key in slots && Oldest(View(), key)
    {
      var todo := slots.Keys;
      assert |todo| > 0;
      key :| key in todo;
      todo := todo - {key};
      while todo != {}
        invariant todo <= slots.Keys && key in slots
        invariant forall k | k in slots && k !in todo :: CreatedAt(View(), key) <= CreatedAt(View(), k)
        decreases todo
      {
        var k :| k in todo;
        if heap[slots[k]].createdAt < heap[slots[key]].createdAt {
          key := k;
        }
        todo := todo - {k};
      }
    }
  }
}
