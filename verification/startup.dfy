/**
 * The startup hook that seeds the status vocabulary of an empty database.
 */
module Startup {
  import opened Schema
  import opened StatusesApi

  /** The four workflow stages the hook inserts, with their `order_index`. */
  const SEED_NAMES: seq<string> := ["сделать", "в работе", "на проверке", "готово"]

  /** The rows `add_all` stores into an empty table: ids 1 to 4 in insertion order. */
  function SeedRows(): (r: seq<Status>)
    ensures |r| == |SEED_NAMES|
    ensures forall i :: 0 <= i < |r| ==> r[i] == Status(i + 1, SEED_NAMES[i], i + 1)
    ensures IdsIncreasing(r, StatusId) && UniqueStatusNames(r)
  {
    [Status(1, SEED_NAMES[0], 1), Status(2, SEED_NAMES[1], 2), Status(3, SEED_NAMES[2], 3), Status(4, SEED_NAMES[3], 4)]
  }

  /** The statuses table after the hook has run on `statuses`. */
  function AfterSeed(statuses: seq<Status>): (r: seq<Status>)
    ensures statuses != [] ==> r == statuses
    ensures statuses == [] ==> r == SeedRows()
    ensures IdsIncreasing(statuses, StatusId) ==> IdsIncreasing(r, StatusId)
    ensures UniqueStatusNames(statuses) ==> UniqueStatusNames(r)
  {
    if |statuses| == 0 then SeedRows() else statuses
  }

  /** `seed_statuses`: inserts the four stages only when the table is empty. */
  method SeedStatuses(db: Database)
    requires db.Valid()
    modifies db
    ensures db.Valid()
    ensures db.statuses == AfterSeed(old(db.statuses))
    ensures db.users == old(db.users) && db.tasks == old(db.tasks) && db.messages == old(db.messages)
  {
    if |db.statuses| == 0 {
      db.statuses := SeedRows();
    }
  }

  /** Running the hook again changes nothing. */
  lemma SeedIsIdempotent(statuses: seq<Status>)
    ensures AfterSeed(AfterSeed(statuses)) == AfterSeed(statuses)
    ensures AfterSeed(statuses) != []
  {
  }

  /** A freshly seeded board lists its stages in the seeded order. */
  lemma SeededStatusesListInOrder(db: Database)
    requires db.statuses == SeedRows()
    ensures |GetStatuses(db)| == |SEED_NAMES|
    ensures forall i :: 0 <= i < |SEED_NAMES| ==> GetStatuses(db)[i].name == SEED_NAMES[i]
  {
    assert forall i :: 0 <= i < |db.statuses| ==> db.statuses[i].orderIndex == i + 1;
    OrderedTableComesBackAsStored(db);
  }
}
