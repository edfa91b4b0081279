/** The recycling pools: BlockingBufferPool, BlockingObjectPool and BufferPool. A pool hands out leases on items;
    dropping a lease puts its item back into the queue it was leased from, if that queue still exists. A bigger size
    or a new allocator starts a new generation with a new queue.

    Calls on a pool do not overlap. The factory and the allocator make a new item every time, of the length asked
    for. A queue hands back any of its items. outstanding and older, the leases not dropped yet, are auxiliary. */
module Pools {
  import opened Totals

  // Allocated storage, or an object.
  class Item {
    const length: nat

    constructor (length: nat)
      ensures this.length == length
    {
      this.length := length;
    }
  }

  class ItemQueue {
    var items: seq<Item>

    constructor ()
      ensures items == []
    {
      items := [];
    }

    method Enqueue(item: Item)
      modifies this
      ensures items == old(items) + [item]
    {
      items := items + [item];
    }

    method Dequeue() returns (item: Item)
      requires items != []
      modifies this
      ensures exists k ::
                && 0 <= k < |old(items)| && item == old(items)[k]
                && items == old(items)[..k] + old(items)[k + 1..]
    {
      var k :| 0 <= k < |items|;
      item := items[k];
      items := items[..k] + items[k + 1..];
    }
  }

  // The buffer or object a client holds, with the weak pointer its deleter keeps.
  class Lease {
    const item: Item
    const length: nat
    const queue: ItemQueue

    constructor (item: Item, length: nat, queue: ItemQueue)
      ensures this.item == item && this.length == length && this.queue == queue
    {
      this.item, this.length, this.queue := item, length, queue;
    }
  }

  // ---- who holds an item ----

  /** Nobody shares: an item is queued once or leased once, whatever the generations, and exactly the leases of this
      generation refer to its queue. */
  ghost predicate Unshared(items: seq<Item>, queue: ItemQueue, outstanding: set<Lease>, older: set<Lease>) {
    && (forall i, j :: 0 <= i < j < |items| ==> items[i] != items[j])
    && (forall a, b :: a in outstanding + older && b in outstanding + older && a != b ==> a.item != b.item)
    && (forall a :: a in outstanding + older ==> a.item !in items)
    && (forall a :: a in outstanding ==> a.queue == queue)
    && (forall a :: a in older ==> a.queue != queue)
  }

  lemma LeaseQueued(items: seq<Item>, k: nat, queue: ItemQueue, outstanding: set<Lease>, older: set<Lease>, a: Lease)
    requires Unshared(items, queue, outstanding, older) && k < |items|
    requires a !in outstanding + older && a.item == items[k] && a.queue == queue
    ensures Unshared(items[..k] + items[k + 1..], queue, outstanding + {a}, older)
    ensures |items[..k] + items[k + 1..]| + |outstanding + {a}| == |items| + |outstanding|
  {
    var left := items[..k] + items[k + 1..];
    forall i | 0 <= i < |left|
      ensures left[i] in items && left[i] != items[k]
    {
      assert left[i] == if i < k then items[i] else items[i + 1];
    }
  }

  lemma LeaseNew(items: seq<Item>, queue: ItemQueue, outstanding: set<Lease>, older: set<Lease>, a: Lease)
    requires Unshared(items, queue, outstanding, older)
    requires a !in outstanding + older && a.queue == queue
    requires a.item !in items && forall b :: b in outstanding + older ==> b.item != a.item
    ensures Unshared(items, queue, outstanding + {a}, older) && |outstanding + {a}| == |outstanding| + 1
  {
  }

  lemma PutBack(items: seq<Item>, queue: ItemQueue, outstanding: set<Lease>, older: set<Lease>, a: Lease)
    requires Unshared(items, queue, outstanding, older) && a in outstanding
    ensures Unshared(items + [a.item], queue, outstanding - {a}, older)
    ensures |items + [a.item]| + |outstanding - {a}| == |items| + |outstanding|
    ensures a !in older && forall item :: item in items + [a.item] ==> item == a.item || item in items
  {
  }

  lemma DropOlder(items: seq<Item>, queue: ItemQueue, outstanding: set<Lease>, older: set<Lease>, a: Lease)
    requires Unshared(items, queue, outstanding, older) && a in older
    ensures Unshared(items, queue, outstanding, older - {a}) && outstanding - {a} == outstanding && a !in outstanding
  {
  }

  lemma NewGeneration(items: seq<Item>, queue: ItemQueue, outstanding: set<Lease>, older: set<Lease>, next: ItemQueue)
    requires Unshared(items, queue, outstanding, older)
    requires next != queue && forall a :: a in older ==> a.queue != next
    ensures Unshared([], next, {}, older + outstanding)
  {
  }

  datatype Outcome = Empty | Leased(lease: Lease) | Blocks | NoAllocator

  // ---- the pools ----

  class BlockingBufferPool {
    const maxAllocatedBuffers: nat
    var bufferQueue: ItemQueue?
    var bufferSize: nat
    var totalAllocatedBuffers: nat
    ghost var outstanding: set<Lease>
    ghost var older: set<Lease>

    /** Per generation: allocated items are queued or outstanding, never more than the cap, and all of the pool's
        length. */
    ghost predicate Valid()
      reads this, bufferQueue
    {
      && (bufferQueue == null <==> bufferSize == 0)
      && (bufferQueue == null ==> totalAllocatedBuffers == 0 && outstanding == {} && older == {})
      && (bufferQueue != null ==>
            && Unshared(bufferQueue.items, bufferQueue, outstanding, older)
            && totalAllocatedBuffers == |bufferQueue.items| + |outstanding| <= maxAllocatedBuffers
            && (forall item :: item in bufferQueue.items ==> item.length == bufferSize)
            && forall a :: a in outstanding ==> a.item.length == bufferSize)
    }

    constructor (maxAllocatedBuffers: nat)
      ensures Valid() && this.maxAllocatedBuffers == maxAllocatedBuffers && bufferSize == 0
    {
      this.maxAllocatedBuffers, bufferQueue, bufferSize, totalAllocatedBuffers := maxAllocatedBuffers, null, 0, 0;
      outstanding, older := {}, {};
    }

    // Asked for more than ever: a new generation.
    method Grow(bufferSize: nat)
      requires Valid() && bufferSize > this.bufferSize
      modifies this
      ensures Valid() && fresh(bufferQueue) && this.bufferSize == bufferSize
      ensures totalAllocatedBuffers == 0 && outstanding == {} && older == old(older) + old(outstanding)
    {
      var queue := new ItemQueue();
      if bufferQueue != null {
        NewGeneration(bufferQueue.items, bufferQueue, outstanding, older, queue);
      }
      bufferQueue, this.bufferSize, totalAllocatedBuffers := queue, bufferSize, 0;
      outstanding, older := {}, older + outstanding;
    }

    /** A lease of the size asked for, on an item that nobody else holds. Waits only when every item the generation may
        have is outstanding; with a cap of 0 that is always. */
    method Get(bufferSize: nat) returns (r: Outcome)
      requires Valid()
      modifies this, bufferQueue
      ensures Valid() && !r.NoAllocator? && (r.Empty? <==> bufferSize == 0)
      ensures this.bufferSize == if bufferSize > old(this.bufferSize) then bufferSize else old(this.bufferSize)
      ensures bufferSize <= old(this.bufferSize) ==> bufferQueue == old(bufferQueue) && older == old(older)
      ensures bufferSize > old(this.bufferSize) ==> fresh(bufferQueue) && older == old(older) + old(outstanding)
      ensures var before := if bufferSize > old(this.bufferSize) then {} else old(outstanding);
        outstanding == if r.Leased? then before + {r.lease} else before
      ensures r.Leased? ==>
                && fresh(r.lease) && r.lease.length == bufferSize <= r.lease.item.length
                && r.lease.queue == bufferQueue
      ensures r.Blocks? ==> |outstanding| == totalAllocatedBuffers == maxAllocatedBuffers
    {
      if bufferSize == 0 {
        return Empty;
      }
      if bufferSize > this.bufferSize {
        Grow(bufferSize);
      }
      r := Lend(bufferSize);
    }

    method Lend(bufferSize: nat) returns (r: Outcome)
      requires Valid() && bufferQueue != null && bufferSize <= this.bufferSize
      modifies this`totalAllocatedBuffers, this`outstanding, bufferQueue
      ensures Valid() && (r.Leased? || r.Blocks?)
      ensures outstanding == if r.Leased? then old(outstanding) + {r.lease} else old(outstanding)
      ensures r.Leased? ==>
                && fresh(r.lease) && r.lease.length == bufferSize <= r.lease.item.length
                && r.lease.queue == bufferQueue
      ensures r.Blocks? ==> |outstanding| == totalAllocatedBuffers == maxAllocatedBuffers
    {
      if totalAllocatedBuffers < maxAllocatedBuffers {
        var lease := LeaseAllocated(bufferSize);
        return Leased(lease);
      } else if bufferQueue.items == [] {
        return Blocks;
      } else {
        var lease := LeaseRecycled(bufferSize);
        return Leased(lease);
      }
    }

    method LeaseAllocated(bufferSize: nat) returns (lease: Lease)
      requires Valid() && bufferQueue != null && bufferSize <= this.bufferSize
               && totalAllocatedBuffers < maxAllocatedBuffers
      modifies this`totalAllocatedBuffers, this`outstanding
      ensures Valid() && fresh(lease) && fresh(lease.item) && outstanding == old(outstanding) + {lease}
      ensures lease.length == bufferSize <= lease.item.length && lease.queue == bufferQueue
    {
      var sourceBuffer := new Item(this.bufferSize);
      if bufferSize > sourceBuffer.length {
        assert false;
      }
      lease := new Lease(sourceBuffer, bufferSize, bufferQueue);
      LeaseNew(bufferQueue.items, bufferQueue, outstanding, older, lease);
      totalAllocatedBuffers, outstanding := totalAllocatedBuffers + 1, outstanding + {lease};
    }

    method LeaseRecycled(bufferSize: nat) returns (lease: Lease)
      requires Valid() && bufferQueue != null && bufferSize <= this.bufferSize && bufferQueue.items != []
      modifies this`outstanding, bufferQueue
      ensures Valid() && fresh(lease) && lease.item in old(bufferQueue.items)
              && outstanding == old(outstanding) + {lease}
      ensures lease.length == bufferSize <= lease.item.length && lease.queue == bufferQueue
    {
      ghost var items := bufferQueue.items;
      var sourceBuffer := bufferQueue.Dequeue();
      if bufferSize > sourceBuffer.length {
        assert false;
      }
      lease := new Lease(sourceBuffer, bufferSize, bufferQueue);
      ghost var k :| 0 <= k < |items| && sourceBuffer == items[k] && bufferQueue.items == items[..k] + items[k + 1..];
      LeaseQueued(items, k, bufferQueue, outstanding, older, lease);
      outstanding := outstanding + {lease};
    }

    /** The deleter of a lease: back into the queue it came from, or nowhere if that is gone. */
    method Release(lease: Lease)
      requires Valid() && lease in outstanding + older
      modifies this`outstanding, this`older, bufferQueue
      ensures Valid() && outstanding == old(outstanding) - {lease} && older == old(older) - {lease}
      ensures bufferQueue.items == old(bufferQueue.items) + if lease in old(outstanding) then [lease.item] else []
    {
      if lease.queue == bufferQueue {
        Recycle(lease);
      } else {
        DropOlder(bufferQueue.items, bufferQueue, outstanding, older, lease);
        older := older - {lease};
      }
    }

    method Recycle(lease: Lease)
      requires Valid() && lease in outstanding
      modifies this`outstanding, bufferQueue
      ensures Valid() && outstanding == old(outstanding) - {lease} && lease !in older
      ensures bufferQueue.items == old(bufferQueue.items) + [lease.item]
    {
      PutBack(bufferQueue.items, bufferQueue, outstanding, older, lease);
      bufferQueue.Enqueue(lease.item);
      outstanding := outstanding - {lease};
    }

    /** A get that waits goes on as soon as a lease of its generation is dropped, and takes over that very item. */
    method ServeWaiting(bufferSize: nat, dropped: Lease) returns (lease: Lease)
      requires Valid() && bufferQueue != null && 0 < bufferSize <= this.bufferSize
      requires totalAllocatedBuffers == maxAllocatedBuffers && bufferQueue.items == [] && dropped in outstanding
      modifies this`outstanding, this`older, bufferQueue
      ensures Valid() && fresh(lease) && lease.item == dropped.item && lease.length == bufferSize <= lease.item.length
      ensures lease.queue == bufferQueue && outstanding == old(outstanding) - {dropped} + {lease}
      ensures bufferQueue.items == [] && older == old(older)
    {
      Release(dropped);
      lease := LeaseRecycled(bufferSize);
    }
  }

  /** The same for objects: a new allocator starts the new generation. An object's length plays no part. */
  class BlockingObjectPool {
    const maxAllocatedObjects: nat
    var hasAllocator: bool
    var objectQueue: ItemQueue?
    var totalAllocatedObjects: nat
    ghost var outstanding: set<Lease>
    ghost var older: set<Lease>

    ghost predicate Valid()
      reads this, objectQueue
    {
      && (objectQueue == null ==> !hasAllocator && totalAllocatedObjects == 0 && outstanding == {} && older == {})
      && (objectQueue != null ==>
            && Unshared(objectQueue.items, objectQueue, outstanding, older)
            && totalAllocatedObjects == |objectQueue.items| + |outstanding| <= maxAllocatedObjects)
    }

    constructor (objectsInPool: nat)
      ensures Valid() && maxAllocatedObjects == objectsInPool && objectQueue == null
    {
      maxAllocatedObjects, hasAllocator, objectQueue, totalAllocatedObjects := objectsInPool, false, null, 0;
      outstanding, older := {}, {};
    }

    method SetAllocator(callable: bool)
      requires Valid()
      modifies this
      ensures Valid() && fresh(objectQueue) && hasAllocator == callable
      ensures totalAllocatedObjects == 0 && outstanding == {} && older == old(older) + old(outstanding)
    {
      var queue := new ItemQueue();
      if objectQueue != null {
        NewGeneration(objectQueue.items, objectQueue, outstanding, older, queue);
      }
      objectQueue, totalAllocatedObjects, hasAllocator := queue, 0, callable;
      outstanding, older := {}, older + outstanding;
    }

    /** Without a cap and before any allocator was set, there is no queue to wait on. */
    method Get() returns (r: Outcome)
      requires Valid() && (objectQueue != null || maxAllocatedObjects > 0)
      modifies this`totalAllocatedObjects, this`outstanding, objectQueue
      ensures Valid() && !r.Empty?
      ensures r.NoAllocator? <==> !hasAllocator && old(totalAllocatedObjects) < maxAllocatedObjects
      ensures r.Blocks? <==>
                && old(totalAllocatedObjects) == maxAllocatedObjects
                && |old(outstanding)| == maxAllocatedObjects
      ensures outstanding == if r.Leased? then old(outstanding) + {r.lease} else old(outstanding)
      ensures r.Leased? ==> fresh(r.lease) && r.lease.queue == objectQueue
    {
      if totalAllocatedObjects < maxAllocatedObjects {
        if !hasAllocator {
          return NoAllocator;
        }
        var sourceObject := new Item(0);
        var lease := new Lease(sourceObject, 0, objectQueue);
        LeaseNew(objectQueue.items, objectQueue, outstanding, older, lease);
        totalAllocatedObjects, outstanding := totalAllocatedObjects + 1, outstanding + {lease};
        return Leased(lease);
      }
      if objectQueue.items == [] {
        return Blocks;
      }
      var lease := LeaseRecycled();
      return Leased(lease);
    }

    method LeaseRecycled() returns (lease: Lease)
      requires Valid() && objectQueue != null && objectQueue.items != []
      modifies this`outstanding, objectQueue
      ensures Valid() && fresh(lease) && lease.item in old(objectQueue.items)
              && outstanding == old(outstanding) + {lease}
      ensures lease.queue == objectQueue
    {
      ghost var items := objectQueue.items;
      var sourceObject := objectQueue.Dequeue();
      lease := new Lease(sourceObject, 0, objectQueue);
      ghost var k :| 0 <= k < |items| && sourceObject == items[k] && objectQueue.items == items[..k] + items[k + 1..];
      LeaseQueued(items, k, objectQueue, outstanding, older, lease);
      outstanding := outstanding + {lease};
    }

    method Release(lease: Lease)
      requires Valid() && lease in outstanding + older
      modifies this`outstanding, this`older, objectQueue
      ensures Valid() && outstanding == old(outstanding) - {lease} && older == old(older) - {lease}
      ensures objectQueue.items == old(objectQueue.items) + if lease in old(outstanding) then [lease.item] else []
    {
      if lease.queue == objectQueue {
        PutBack(objectQueue.items, objectQueue, outstanding, older, lease);
        objectQueue.Enqueue(lease.item);
        outstanding := outstanding - {lease};
      } else {
        DropOlder(objectQueue.items, objectQueue, outstanding, older, lease);
        older := older - {lease};
      }
    }

    /** A get that waits goes on as soon as a lease of its generation is dropped, and takes over that very object. */
    method ServeWaiting(dropped: Lease) returns (lease: Lease)
      requires Valid() && objectQueue != null && dropped in outstanding
      requires totalAllocatedObjects == maxAllocatedObjects && objectQueue.items == []
      modifies this`outstanding, this`older, objectQueue
      ensures Valid() && fresh(lease) && lease.item == dropped.item && lease.queue == objectQueue
      ensures outstanding == old(outstanding) - {dropped} + {lease}
      ensures objectQueue.items == [] && older == old(older)
    {
      Release(dropped);
      lease := LeaseRecycled();
    }
  }

  /** The unbounded pool: it allocates whenever nothing is queued. created, of the generation, is auxiliary. */
  class BufferPool {
    var bufferQueue: ItemQueue?
    var bufferSize: nat
    ghost var created: nat
    ghost var outstanding: set<Lease>
    ghost var older: set<Lease>

    ghost predicate Valid()
      reads this, bufferQueue
    {
      && (bufferQueue == null <==> bufferSize == 0)
      && (bufferQueue == null ==> created == 0 && outstanding == {} && older == {})
      && (bufferQueue != null ==>
            && Unshared(bufferQueue.items, bufferQueue, outstanding, older)
            && created == |bufferQueue.items| + |outstanding|
            && (forall item :: item in bufferQueue.items ==> item.length == bufferSize)
            && forall a :: a in outstanding ==> a.item.length == bufferSize)
    }

    constructor ()
      ensures Valid() && bufferSize == 0
    {
      bufferQueue, bufferSize, created, outstanding, older := null, 0, 0, {}, {};
    }

    method Grow(bufferSize: nat)
      requires Valid() && bufferSize > this.bufferSize
      modifies this
      ensures Valid() && fresh(bufferQueue) && this.bufferSize == bufferSize
      ensures created == 0 && outstanding == {} && older == old(older) + old(outstanding)
    {
      var queue := new ItemQueue();
      if bufferQueue != null {
        NewGeneration(bufferQueue.items, bufferQueue, outstanding, older, queue);
      }
      bufferQueue, this.bufferSize, created := queue, bufferSize, 0;
      outstanding, older := {}, older + outstanding;
    }

    /** Something new is made only when everything made before is outstanding. */
    method Get(bufferSize: nat) returns (r: Outcome)
      requires Valid()
      modifies this, bufferQueue
      ensures Valid() && (if bufferSize == 0 then r.Empty? else r.Leased?)
      ensures this.bufferSize == if bufferSize > old(this.bufferSize) then bufferSize else old(this.bufferSize)
      ensures 0 < bufferSize <= old(this.bufferSize) ==>
                && bufferQueue == old(bufferQueue) && older == old(older) && outstanding == old(outstanding) + {r.lease}
                && (created != old(created) ==> |old(outstanding)| == old(created) == created - 1)
      ensures bufferSize > old(this.bufferSize) ==>
                fresh(bufferQueue) && older == old(older) + old(outstanding) && outstanding == {r.lease} && created == 1
      ensures r.Leased? ==>
                && fresh(r.lease) && r.lease.length == bufferSize <= r.lease.item.length
                && r.lease.queue == bufferQueue
    {
      if bufferSize == 0 {
        return Empty;
      }
      if bufferSize > this.bufferSize {
        Grow(bufferSize);
      }
      var lease := Lend(bufferSize);
      return Leased(lease);
    }

    method Lend(bufferSize: nat) returns (lease: Lease)
      requires Valid() && bufferQueue != null && bufferSize <= this.bufferSize
      modifies this`created, this`outstanding, bufferQueue
      ensures Valid() && fresh(lease) && outstanding == old(outstanding) + {lease}
      ensures created != old(created) ==> |old(outstanding)| == old(created) == created - 1
      ensures lease.length == bufferSize <= lease.item.length && lease.queue == bufferQueue
    {
      if bufferQueue.items == [] {
        lease := LeaseCreated(bufferSize);
      } else {
        lease := LeaseRecycled(bufferSize);
      }
    }

    method LeaseCreated(bufferSize: nat) returns (lease: Lease)
      requires Valid() && bufferQueue != null && bufferSize <= this.bufferSize && bufferQueue.items == []
      modifies this`created, this`outstanding
      ensures Valid() && fresh(lease) && fresh(lease.item) && outstanding == old(outstanding) + {lease}
      ensures |old(outstanding)| == old(created) == created - 1
      ensures lease.length == bufferSize <= lease.item.length && lease.queue == bufferQueue
    {
      var sourceBuffer := new Item(this.bufferSize);
      if bufferSize > sourceBuffer.length {
        assert false;
      }
      lease := new Lease(sourceBuffer, bufferSize, bufferQueue);
      LeaseNew(bufferQueue.items, bufferQueue, outstanding, older, lease);
      created, outstanding := created + 1, outstanding + {lease};
    }

    method LeaseRecycled(bufferSize: nat) returns (lease: Lease)
      requires Valid() && bufferQueue != null && bufferSize <= this.bufferSize && bufferQueue.items != []
      modifies this`outstanding, bufferQueue
      ensures Valid() && fresh(lease) && lease.item in old(bufferQueue.items)
              && outstanding == old(outstanding) + {lease}
      ensures lease.length == bufferSize <= lease.item.length && lease.queue == bufferQueue
    {
      ghost var items := bufferQueue.items;
      var sourceBuffer := bufferQueue.Dequeue();
      if bufferSize > sourceBuffer.length {
        assert false;
      }
      lease := new Lease(sourceBuffer, bufferSize, bufferQueue);
      ghost var k :| 0 <= k < |items| && sourceBuffer == items[k] && bufferQueue.items == items[..k] + items[k + 1..];
      LeaseQueued(items, k, bufferQueue, outstanding, older, lease);
      outstanding := outstanding + {lease};
    }

    method Release(lease: Lease)
      requires Valid() && lease in outstanding + older
      modifies this`outstanding, this`older, bufferQueue
      ensures Valid() && outstanding == old(outstanding) - {lease} && older == old(older) - {lease}
              && created == old(created)
      ensures bufferQueue.items == old(bufferQueue.items) + if lease in old(outstanding) then [lease.item] else []
    {
      if lease.queue == bufferQueue {
        Recycle(lease);
      } else {
        DropOlder(bufferQueue.items, bufferQueue, outstanding, older, lease);
        older := older - {lease};
      }
    }

    method Recycle(lease: Lease)
      requires Valid() && lease in outstanding
      modifies this`outstanding, bufferQueue
      ensures Valid() && outstanding == old(outstanding) - {lease} && lease !in older
      ensures bufferQueue.items == old(bufferQueue.items) + [lease.item]
    {
      PutBack(bufferQueue.items, bufferQueue, outstanding, older, lease);
      bufferQueue.Enqueue(lease.item);
      outstanding := outstanding - {lease};
    }
  }
}
