/**
 * The process-wide database client: one manager instance, which opens a
 * persistent client on first use and hands back that same client afterwards,
 * whatever directory later callers ask for.
 */
module ChromaClient {

  /** A persistent client opened on a storage directory. */
  class PersistentClient {
    const path: string

    constructor (path: string)
      ensures this.path == path
    {
      this.path := path;
    }
  }

  /** `ChromaClientManager`: holds the one client once it is opened. */
  class ChromaClientManager {
    var client: PersistentClient?

    constructor ()
      ensures client == null
    {
      client := null;
    }

    /**
     * `get_client`: opens a client on `persistDirectory` only when none is
     * held; otherwise returns the held client, ignoring the directory.
     */
    method GetClient(persistDirectory: string) returns (c: PersistentClient)
      modifies this
      ensures old(client) == null ==> fresh(c) && c.path == persistDirectory
      ensures old(client) != null ==> c == old(client)
      ensures client == c
    {
      if client == null {
        client := new PersistentClient(persistDirectory);
      }
      c := client;
    }

    /** `reset`: the next `get_client` opens a new client. */
    method Reset()
      modifies this
      ensures client == null
    {
      client := null;
    }
  }

  /** The class attribute `_instance` behind `ChromaClientManager()`. */
  class ManagerSlot {
    var instance: ChromaClientManager?

    constructor ()
      ensures instance == null
    {
      instance := null;
    }

    /** `ChromaClientManager()`: creates the manager on the first call, returns it ever after. */
    method Manager() returns (m: ChromaClientManager)
      modifies this
      ensures old(instance) == null ==> fresh(m) && m.client == null
      ensures old(instance) != null ==> m == old(instance)
      ensures instance == m
    {
      if instance == null {
        instance := new ChromaClientManager();
      }
      m := instance;
    }
  }

  /** `get_chroma_client`: the singleton manager's client. */
  method GetChromaClient(slot: ManagerSlot, persistDirectory: string) returns (c: PersistentClient)
    modifies slot, slot.instance
    ensures slot.instance != null && slot.instance.client == c
    ensures old(slot.instance) == null ==> fresh(slot.instance)
    ensures old(slot.instance) != null ==> slot.instance == old(slot.instance)
    ensures old(slot.instance) != null && old(slot.instance.client) != null ==> c == old(slot.instance.client)
    ensures old(slot.instance) == null || old(slot.instance.client) == null ==> c.path == persistDirectory
  {
    var m := slot.Manager();
    c := m.GetClient(persistDirectory);
  }

  /** Two calls, with any two directories, share one client opened on the first directory. */
  method SameClientTwice(slot: ManagerSlot, first: string, second: string)
    returns (a: PersistentClient, b: PersistentClient)
    requires slot.instance == null
    modifies slot
    ensures a == b && a.path == first
  {
    a := GetChromaClient(slot, first);
    b := GetChromaClient(slot, second);
  }
}
