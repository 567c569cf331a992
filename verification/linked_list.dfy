/**
 `CbLinkedList`: despite its name, a node holding a value and at most one
 following value (not a following node).
 */
module LinkedLists {
  import opened Base

  datatype LinkedList<T> = LinkedList(value: T, next: Option<T>)

  /** `new`: the value, nothing after it. */
  function NewList<T>(value: T): (l: LinkedList<T>)
    ensures Value(l) == value && l.next.None?
  {
    LinkedList(value, None)
  }

  /** `value`. */
  function Value<T>(l: LinkedList<T>): T
  {
    l.value
  }

  /** `add_next`: the following value is set (replacing any earlier one); the node's value stays. */
  function AddNext<T>(l: LinkedList<T>, next: T): (r: LinkedList<T>)
    ensures r.next == Some(next) && Value(r) == Value(l)
  {
    l.(next := Some(next))
  }

  /** `remove_next`: nothing follows any more; the node's value stays. */
  function RemoveNext<T>(l: LinkedList<T>): (r: LinkedList<T>)
    ensures r.next.None? && Value(r) == Value(l)
  {
    l.(next := None)
  }

  /** Adding and then removing a following value undoes the add, on a node with nothing after it. */
  lemma AddRemoveRestores<T>(l: LinkedList<T>, n: T)
    ensures RemoveNext(AddNext(l, n)) == RemoveNext(l)
    ensures RemoveNext(AddNext(NewList(Value(l)), n)) == NewList(Value(l))
  {
  }
}
