/**
 * The two list operations the drag-and-drop toolkit performs when an item is
 * dropped: `moveItemInArray` within one list and `transferArrayItem` between
 * two. The toolkit clamps out-of-range indices; here the indices are required
 * to be in range instead, and each operation is a plain remove and insert.
 */
module DragDrop {

  /** The sequence without its `i`-th element. */
  function RemoveAt<T>(s: seq<T>, i: nat): (r: seq<T>)
    requires i < |s|
    ensures |r| == |s| - 1
    ensures forall k :: 0 <= k < i ==> r[k] == s[k]
    ensures forall k :: i <= k < |r| ==> r[k] == s[k + 1]
    ensures multiset(r) + multiset{s[i]} == multiset(s)
  {
    assert s == s[..i] + [s[i]] + s[i + 1..];
    s[..i] + s[i + 1..]
  }

  /** The sequence with `x` inserted so that it ends up at index `i`. */
  function InsertAt<T>(s: seq<T>, i: nat, x: T): (r: seq<T>)
    requires i <= |s|
    ensures |r| == |s| + 1
    ensures r[i] == x
    ensures forall k :: 0 <= k < i ==> r[k] == s[k]
    ensures forall k :: i < k < |r| ==> r[k] == s[k - 1]
    ensures multiset(r) == multiset(s) + multiset{x}
  {
    assert s == s[..i] + s[i..];
    s[..i] + [x] + s[i..]
  }

  /** Removing what was just inserted gives the original sequence back. */
  lemma RemoveInserted<T>(s: seq<T>, i: nat, x: T)
    requires i <= |s|
    ensures RemoveAt(InsertAt(s, i, x), i) == s
  {
  }

  /** Putting a removed element back where it was gives the original sequence back. */
  lemma InsertRemoved<T>(s: seq<T>, i: nat)
    requires i < |s|
    ensures InsertAt(RemoveAt(s, i), i, s[i]) == s
  {
  }

  /**
   * `moveItemInArray`: the element at `from` ends up at `to`; the list keeps
   * its length and its elements, and apart from the moved one they keep their
   * relative order.
   */
  function MoveItem<T>(s: seq<T>, from: nat, to: nat): (r: seq<T>)
    requires from < |s| && to < |s|
    ensures |r| == |s|
    ensures r[to] == s[from]
    ensures multiset(r) == multiset(s)
    ensures RemoveAt(r, to) == RemoveAt(s, from)
  {
    var rest := RemoveAt(s, from);
    var r := InsertAt(rest, to, s[from]);
    RemoveInserted(rest, to, s[from]);
    r
  }

  /** Dragging an item back to where it came from undoes the move. */
  lemma MoveItemUndo<T>(s: seq<T>, from: nat, to: nat)
    requires from < |s| && to < |s|
    ensures MoveItem(MoveItem(s, from, to), to, from) == s
  {
  }

  /** The two lists after `transferArrayItem`. */
  datatype Transfer<T> = Transfer(source: seq<T>, target: seq<T>)

  /**
   * `transferArrayItem`: the element at `from` leaves the source list and is
   * inserted into the target list at `to`; nothing else changes in either list.
   */
  function TransferItem<T>(source: seq<T>, target: seq<T>, from: nat, to: nat): (r: Transfer<T>)
    requires from < |source| && to <= |target|
    ensures |r.source| == |source| - 1 && |r.target| == |target| + 1
    ensures r.target[to] == source[from]
    ensures multiset(r.source) + multiset(r.target) == multiset(source) + multiset(target)
    ensures r.source == RemoveAt(source, from) && RemoveAt(r.target, to) == target
  {
    RemoveInserted(target, to, source[from]);
    Transfer(RemoveAt(source, from), InsertAt(target, to, source[from]))
  }

  /** Dragging a transferred item straight back restores both lists. */
  lemma TransferItemUndo<T>(source: seq<T>, target: seq<T>, from: nat, to: nat)
    requires from < |source| && to <= |target|
    ensures var t := TransferItem(source, target, from, to);
            TransferItem(t.target, t.source, to, from) == Transfer(target, source)
  {
    InsertRemoved(source, from);
  }
}
