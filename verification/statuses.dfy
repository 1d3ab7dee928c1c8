/**
 * The status vocabulary as the board reads it: every stored status, ordered by
 * its `order_index`. The endpoint needs no caller and changes nothing.
 */
module StatusesApi {
  import opened Seqs
  import opened Schema

  /** `ORDER BY order_index`. */
  predicate OrderIndexLe(a: Status, b: Status) {
    a.orderIndex <= b.orderIndex
  }

  lemma OrderIndexLeIsTotalPreorder()
    ensures TotalPreorder(OrderIndexLe)
  {
  }

  /** `get_statuses`: all stored statuses, each once, ascending by `order_index`. */
  function GetStatuses(db: Database): (r: seq<Status>)
    reads db
    ensures multiset(r) == multiset(db.statuses)
    ensures forall i, j :: 0 <= i < j < |r| ==> r[i].orderIndex <= r[j].orderIndex
  {
    OrderIndexLeIsTotalPreorder();
    SortByIsSorted(db.statuses, OrderIndexLe);
    SortBy(db.statuses, OrderIndexLe)
  }

  /** A table already stored in `order_index` order comes back exactly as stored. */
  lemma {:induction false} OrderedTableComesBackAsStored(db: Database)
    requires forall i, j :: 0 <= i < j < |db.statuses| ==> db.statuses[i].orderIndex <= db.statuses[j].orderIndex
    ensures GetStatuses(db) == db.statuses
  {
    assert SortedBy(db.statuses, OrderIndexLe);
    SortBySortedIsIdentity(db.statuses, OrderIndexLe);
  }
}
