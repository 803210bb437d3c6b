/** internal/agent/fs/locks.go: the table itself, as the object its critical
    sections update.  PathLocks runs any number of callers over it.
  */
module LockTable {
  import opened LockKeys

  /** One entry as a caller can tell it apart: its count and its slot. */
  datatype Slot = Slot(refs: int, full: bool)

  type Table = map<Key, Slot>

  function Attached(table: Table, key: Key): Table {
    table[key := if key in table then table[key].(refs := table[key].refs + 1) else Slot(1, false)]
  }

  function Dropped(table: Table, key: Key): Table
    requires key in table
  {
    if table[key].refs - 1 == 0 then table - {key} else table[key := table[key].(refs := table[key].refs - 1)]
  }

  /** A caller that attaches and gives up leaves no trace, whether it made the
      entry or found it. */
  lemma DropUndoesAttach(table: Table, key: Key)
    requires key in table ==> table[key].refs > 0
    ensures Dropped(Attached(table, key), key) == table
  {
    if key in table {
      assert table[key := table[key]] == table;
    }
  }

  class PathLock {
    var refs: int
    var full: bool

    constructor ()
      ensures refs == 0 && !full
    {
      refs, full := 0, false;
    }

    /** The select's first case, when it can be taken. */
    method TryAcquire() returns (ok: bool)
      modifies this`full
      ensures full && ok == !old(full)
    {
      ok := !full;
      full := true;
    }

    method Empty()
      requires full
      modifies this`full
      ensures !full
    {
      full := false;
    }
  }

  class PathLocks {
    var entries: map<Key, PathLock>

    /** Entries in the table are counted, and no two keys share one. */
    ghost predicate Valid()
      reads this, entries.Values
    {
      && (forall k :: k in entries ==> entries[k].refs > 0)
      && (forall j, k :: j in entries && k in entries && entries[j] == entries[k] ==> j == k)
    }

    ghost function View(): Table
      reads this, entries.Values
    {
      map k | k in entries :: Slot(entries[k].refs, entries[k].full)
    }

    constructor ()
      ensures Valid() && View() == map[]
    {
      entries := map[];
    }

    /** The first critical section of lock. */
    method Attach(key: Key) returns (entry: PathLock)
      requires Valid()
      modifies this, entries.Values
      ensures Valid() && View() == Attached(old(View()), key)
      ensures entries == old(entries)[key := entry]
      ensures if key in old(entries) then entry == old(entries)[key] else fresh(entry)
    {
      if key in entries {
        entry := entries[key];
      } else {
        entry := new PathLock();
        entries := entries[key := entry];
      }
      entry.refs := entry.refs + 1;
      assert forall k :: k in old(entries) && k != key ==> entries[k] == old(entries)[k] && entries[k] != entry;
    }

    /** drop. */
    method Drop(key: Key, entry: PathLock)
      requires Valid() && key in entries && entries[key] == entry
      modifies this, entry`refs
      ensures Valid() && View() == Dropped(old(View()), key)
      ensures entries == if old(entry.refs) == 1 then old(entries) - {key} else old(entries)
    {
      entry.refs := entry.refs - 1;
      if entry.refs == 0 {
        entries := entries - {key};
      }
      assert forall k :: k in old(entries) && k != key ==> k in entries && entries[k] == old(entries)[k] && entries[k] != entry;
    }
  }
}
