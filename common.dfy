/** Shared vocabulary of the model: document ids, the optional and
    failure-carrying wrappers, the error conditions the controllers throw,
    and the two table primitives every controller is built from (an
    equality filter, as `Model.find(filter)` runs it, and the insert of
    one fresh document). */
module Common {

  /** A document id (`_id`), also used for the mentor/mentee references. */
  type Id = string

  datatype Option<+T> = None | Some(value: T) {
    function GetOr(default: T): T {
      match this
      case Some(v) => v
      case None => default
    }
  }

  /** The errors the controllers throw, one per message in the source. */
  datatype Error =
    | InvalidCredentials   // "Invalid credentials"
    | InvalidInput         // "Invalid input"
    | UserNotFound         // "User not found"
    | NameTooShort         // "Name must be at least 2 characters"
    | InvalidRole          // "Invalid role"
    | IdsRequired          // "Mentee and mentor IDs are required"
    | InvalidStatus        // "Invalid status"
    | NoAvailability       // "Mentor has no availability set"
    | InvalidRating        // "Invalid rating"
    | FieldsRequired       // "All fields are required"
    | ValidationFailed     // a schema `required` path that was left empty
    | DuplicateEmail       // the unique index on the users' email

  datatype Result<+T> = Ok(value: T) | Err(error: Error)

  /** The documents of `table` that `keep` accepts, under their own ids:
      the result of `find` with an equality filter. */
  function Filter<T>(table: map<Id, T>, keep: T -> bool): (r: map<Id, T>)
    ensures forall id :: id in r <==> id in table && keep(table[id])
    ensures forall id :: id in r ==> r[id] == table[id]
  {
    map id | id in table && keep(table[id]) :: table[id]
  }

  /** Inserting a document under a fresh id changes a filtered view by that
      document exactly when the filter accepts it. */
  lemma FilterAfterInsert<T>(table: map<Id, T>, keep: T -> bool, id: Id, doc: T)
    requires id !in table
    ensures Filter(table[id := doc], keep) ==
            if keep(doc) then Filter(table, keep)[id := doc] else Filter(table, keep)
  {
    var after := Filter(table[id := doc], keep);
    var expected := if keep(doc) then Filter(table, keep)[id := doc] else Filter(table, keep);
    assert after.Keys == expected.Keys;
    assert forall k :: k in after ==> after[k] == expected[k];
  }
}
