/** The resource table shared by every channel, listener and stack:
    cpp/lib/src/ResourceManager.{h,cpp}.

    `Table` is the value the mutex protects and the three functions on it are the three
    critical sections. The class below runs them; ShutdownProtocol interleaves them. */
module Resources {
  /** A channel, which the root manager keeps, or a stack, which its channel's manager keeps; and the strand its
      closures run on. */
  datatype Resource = Resource(id: nat, strand: nat, channel: bool)

  /** What `create` does inside Bind: a null item, an item, or a C++ exception. */
  datatype Creation = Null | Made(item: Resource) | Throws

  datatype Table = Table(shuttingDown: bool, tracked: set<Resource>)

  /** Bind, once the lock is held and the flag has been found clear. */
  function Inserted(t: Table, c: Creation): Table {
    if c.Made? then t.(tracked := t.tracked + {c.item}) else t
  }

  function Erased(t: Table, r: Resource): Table {
    t.(tracked := t.tracked - {r})
  }

  /** Shutdown's critical section; the claimed copy is the old tracked set. */
  function Claimed(t: Table): Table {
    Table(true, {})
  }

  /** What Bind hands back: the item, a null pointer, or the exception of `create`. */
  datatype BindResult = Item(item: Resource) | NoItem | Raised

  class ResourceManager {
    var isShuttingDown: bool
    var resources: set<Resource>
    /** Every call of IResource::Shutdown made by this object, in order. */
    var shutdownCalls: seq<Resource>

    function View(): Table
      reads this
    {
      Table(isShuttingDown, resources)
    }

    constructor ()
      ensures View() == Table(false, {}) && shutdownCalls == []
    {
      isShuttingDown := false;
      resources := {};
      shutdownCalls := [];
    }

    method Detach(r: Resource)
      modifies this
      ensures View() == Erased(old(View()), r)
      ensures shutdownCalls == old(shutdownCalls)
    {
      resources := resources - {r};
    }

    /** `create` is consulted only when the flag is clear; an exception passes through and
        leaves the table alone. */
    method Bind(create: Creation) returns (result: BindResult)
      modifies this
      ensures shutdownCalls == old(shutdownCalls)
      ensures old(isShuttingDown) ==> result == NoItem && View() == old(View())
      ensures !old(isShuttingDown) ==> View() == Inserted(old(View()), create)
      ensures !old(isShuttingDown) ==> (result.Item? <==> create.Made?) && (result.Raised? <==> create.Throws?)
      ensures result.Item? ==> result.item == create.item && result.item in resources
    {
      if isShuttingDown {
        return NoItem;
      }
      match create {
        case Throws => return Raised;
        case Null => return NoItem;
        case Made(item) =>
          resources := resources + {item};
          return Item(item);
      }
    }

    /** Claims every tracked resource and then shuts each claimed one down exactly once. */
    method Shutdown()
      modifies this
      ensures View() == Claimed(old(View()))
      ensures |shutdownCalls| == |old(shutdownCalls)| + |old(resources)|
      ensures old(shutdownCalls) <= shutdownCalls
      ensures multiset(shutdownCalls) == multiset(old(shutdownCalls)) + multiset(old(resources))
    {
      var copy: set<Resource> := {};
      isShuttingDown := true;
      var unread := resources;
      while unread != {}
        invariant resources == old(resources) && isShuttingDown && shutdownCalls == old(shutdownCalls)
        invariant unread <= resources && copy == resources - unread
        decreases unread
      {
        var r :| r in unread;
        copy := copy + {r};
        unread := unread - {r};
      }
      resources := {};

      var pending := copy;
      while pending != {}
        invariant isShuttingDown && resources == {}
        invariant pending <= copy && copy == old(resources)
        invariant old(shutdownCalls) <= shutdownCalls
        invariant |shutdownCalls| + |pending| == |old(shutdownCalls)| + |copy|
        invariant multiset(shutdownCalls) + multiset(pending) == multiset(old(shutdownCalls)) + multiset(copy)
        decreases pending
      {
        var r :| r in pending;
        assert multiset(pending) == multiset(pending - {r}) + multiset{r};
        shutdownCalls := shutdownCalls + [r];
        pending := pending - {r};
      }
    }
  }
}
