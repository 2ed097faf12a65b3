/**
 The queue that requests wait in while their collection id is looked up. Requests and
 queues are objects here, because remove() depends on the queue that each request refers to.
 */
module OperationQueue {
  import opened Wrappers

  datatype QueueError = QueueClosed | QueueFull | AlreadyQueued | RequestCancelled

  class QueueRequest {
    var queuedWith: OperationQueue?
    var isCompleted: bool

    constructor ()
      ensures queuedWith == null && !isCompleted
    {
      queuedWith, isCompleted := null, false;
    }
  }

  class OperationQueue {
    var items: seq<QueueRequest>
    var isOpen: bool

    ghost predicate Valid()
      reads this, items
    {
      && (forall i :: 0 <= i < |items| ==> items[i].queuedWith == this)
      && (forall i, j :: 0 <= i < j < |items| ==> items[i] != items[j])
    }

    constructor ()
      ensures Valid() && items == [] && isOpen
    {
      items, isOpen := [], true;
    }

    method Push(request: QueueRequest, maxItems: nat) returns (error: Option<QueueError>)
      requires Valid()
      modifies this`items, request`queuedWith
      ensures Valid() && isOpen == old(isOpen)
      ensures error == (if !isOpen then Some(QueueClosed)
                        else if maxItems > 0 && |old(items)| >= maxItems then Some(QueueFull)
                        else if old(request.queuedWith) != null then Some(AlreadyQueued)
                        else if request.isCompleted then Some(RequestCancelled)
                        else None)
      ensures error.Some? ==> items == old(items) && request.queuedWith == old(request.queuedWith)
      ensures error.None? ==> items == old(items) + [request] && request.queuedWith == this
    {
      if !isOpen {
        return Some(QueueClosed);
      }
      if maxItems > 0 && |items| >= maxItems {
        return Some(QueueFull);
      }
      if request.queuedWith != null {
        return Some(AlreadyQueued);
      }
      request.queuedWith := this;
      if request.isCompleted {
        request.queuedWith := null;
        return Some(RequestCancelled);
      }
      items := items + [request];
      return None;
    }

    // As written, the queue that the request refers to is compared with null and not with this
    // one. A request in a valid queue refers to it, so nothing is ever removed.
    method Remove(request: QueueRequest) returns (removed: bool)
      modifies this`items
      ensures removed <==> isOpen && request.queuedWith == null && request in old(items)
      ensures !removed ==> items == old(items)
      ensures old(Valid()) ==> !removed
    {
      if !isOpen {
        return false;
      }
      if request.queuedWith != null {
        return false;
      }
      var i := Find(request);
      if i < |items| {
        items := items[..i] + items[i + 1..];
        return true;
      }
      return false;
    }

    // The comparison that the surrounding code counts on.
    method RemoveOwn(request: QueueRequest) returns (removed: bool)
      requires Valid()
      modifies this`items, request`queuedWith
      ensures Valid()
      ensures removed <==> isOpen && request in old(items)
      ensures !removed ==> items == old(items)
      ensures removed ==>
                && request.queuedWith == null
                && exists i :: 0 <= i < |old(items)| && old(items)[i] == request
                               && items == old(items)[..i] + old(items)[i + 1..]
    {
      if !isOpen {
        return false;
      }
      if request.queuedWith != this {
        return false;
      }
      var i := Find(request);
      if i < |items| {
        request.queuedWith := null;
        items := items[..i] + items[i + 1..];
        return true;
      }
      return false;
    }

    method Find(request: QueueRequest) returns (i: nat)
      ensures i <= |items| && (i < |items| ==> items[i] == request)
      ensures i == |items| ==> request !in items
    {
      i := 0;
      while i < |items| && items[i] != request
        invariant i <= |items|
        invariant forall j :: 0 <= j < i ==> items[j] != request
      {
        i := i + 1;
      }
    }

    method Close()
      modifies this`isOpen
      ensures !isOpen
    {
      isOpen := false;
    }

    // An open queue is not drained.
    method ItemsToDrain() returns (drained: seq<QueueRequest>)
      requires Valid()
      modifies this`items, items
      ensures Valid() && isOpen == old(isOpen)
      ensures drained == (if isOpen then [] else old(items))
      ensures items == (if isOpen then old(items) else [])
      ensures forall i :: 0 <= i < |drained| ==> drained[i].queuedWith == null
    {
      if isOpen {
        return [];
      }
      drained := items;
      items := [];
      for i := 0 to |drained|
        invariant items == [] && !isOpen
        invariant forall j :: 0 <= j < i ==> drained[j].queuedWith == null
      {
        drained[i].queuedWith := null;
      }
    }
  }
}
