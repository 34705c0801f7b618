/** The lazy `Singleton<T>` base (Engine/Prototype/Singleton.h). The static
    slot `_instance` of one instantiation is the field of one `Singleton`
    object that every caller shares; `Managed` stands for `T`, and `delete`
    is recorded in the ghost set of instances the slot has released. */
module Prototype {

  /** A `T`: default-constructible, nothing else is assumed of it. */
  class Managed {
    constructor () {}
  }

  class Singleton {
    /** `_instance`: `null` until the first `getInstance`. */
    var instance: Managed?
    /** The instances `destoryInstance` has deleted. */
    ghost var deleted: set<Managed>

    /** The slot never holds a deleted instance. */
    ghost predicate Valid()
      reads this
    {
      instance == null || instance !in deleted
    }

    /** The definition of the static member: the slot starts out null. */
    constructor ()
      ensures Valid()
      ensures instance == null && deleted == {}
    {
      instance := null;
      deleted := {};
    }

    /** `getInstance`: if the slot is empty, fill it with a new `T`; return
        what the slot holds. */
    method GetInstance() returns (r: Managed)
      requires Valid()
      modifies this`instance
      ensures Valid()
      ensures old(instance) == null ==> fresh(r)
      ensures old(instance) != null ==> r == old(instance)
      ensures instance == r
    {
      if instance == null {
        instance := new Managed();
      }
      r := instance;
    }

    /** `destoryInstance`: delete the held instance, if any, and empty the
        slot; on an empty slot it does nothing. */
    method DestroyInstance()
      requires Valid()
      modifies this
      ensures Valid()
      ensures instance == null
      ensures old(instance) != null ==> deleted == old(deleted) + {old(instance)}
      ensures old(instance) == null ==> deleted == old(deleted)
    {
      if instance != null {
        deleted := deleted + {instance};
        instance := null;
      }
    }
  }

  /** Two calls in a row share one instance; after a destroy the next call
      builds a new one, never a deleted one, and destroying twice is the same
      as destroying once. */
  method Lifecycle(slot: Singleton) returns (first: Managed, second: Managed, third: Managed)
    requires slot.Valid()
    modifies slot
    ensures first == second && third != first
    ensures first in slot.deleted && third !in slot.deleted
    ensures slot.instance == third
    ensures slot.deleted == old(slot.deleted) + {first}
  {
    first := slot.GetInstance();
    second := slot.GetInstance();
    slot.DestroyInstance();
    slot.DestroyInstance();
    third := slot.GetInstance();
  }
}
