/**
 * The contact book's store. The database module the app calls is outside
 * this model; it is represented here by a table of rows with unique ids, the
 * four operations the app uses, and a matching relation for searches.
 */
module ContactDatabase {
  import opened Wrappers

  /** One row: `(id, name, phone, email)`; phone and email may be NULL. */
  datatype Contact = Contact(id: nat, name: string, phone: Option<string>, email: Option<string>)

  predicate UniqueIds(rows: seq<Contact>) {
    forall i, j :: 0 <= i < j < |rows| ==> rows[i].id != rows[j].id
  }

  /** The rows `keep` accepts. */
  function Select(rows: seq<Contact>, keep: Contact -> bool): (r: seq<Contact>)
    ensures |r| <= |rows|
    ensures forall c :: c in r <==> c in rows && keep(c)
    decreases |rows|
  {
    if rows == [] then []
    else
      var rest := Select(rows[1..], keep);
      assert forall c :: c in rows <==> c == rows[0] || c in rows[1..];
      if keep(rows[0]) then [rows[0]] + rest else rest
  }

  /** Selecting rows never makes two of them share an id. */
  lemma {:induction false} SelectKeepsUniqueIds(rows: seq<Contact>, keep: Contact -> bool)
    requires UniqueIds(rows)
    ensures UniqueIds(Select(rows, keep))
    decreases |rows|
  {
    if rows != [] {
      var rest := Select(rows[1..], keep);
      assert UniqueIds(rows[1..]);
      SelectKeepsUniqueIds(rows[1..], keep);
      if keep(rows[0]) {
        var r := [rows[0]] + rest;
        forall i, j | 0 <= i < j < |r| ensures r[i].id != r[j].id {
          if i == 0 {
            assert r[j] in rows[1..];
            var k :| 0 <= k < |rows[1..]| && rows[1..][k] == r[j];
            assert rows[k + 1] == r[j];
          } else {
            assert r[i] == rest[i - 1] && r[j] == rest[j - 1];
          }
        }
      }
    }
  }

  /** The table once the row with `id` is deleted: every other row, and only those. */
  function WithoutId(rows: seq<Contact>, id: nat): (r: seq<Contact>)
    ensures forall c :: c in r <==> c in rows && c.id != id
    ensures id !in set c | c in r :: c.id
  {
    Select(rows, (c: Contact) => c.id != id)
  }

  /**
   * The table once the row with `id` is updated: that row keeps its id and
   * takes the new name, phone and email; every other row is unchanged.
   */
  function Updated(rows: seq<Contact>, id: nat, name: string, phone: string, email: string): (r: seq<Contact>)
    ensures |r| == |rows|
    ensures forall i :: 0 <= i < |rows| ==> r[i].id == rows[i].id
    ensures forall i :: 0 <= i < |rows| && rows[i].id != id ==> r[i] == rows[i]
    ensures forall i :: 0 <= i < |rows| && rows[i].id == id ==> r[i] == Contact(id, name, Some(phone), Some(email))
    decreases |rows|
  {
    if rows == [] then []
    else
      var head := if rows[0].id == id then Contact(id, name, Some(phone), Some(email)) else rows[0];
      [head] + Updated(rows[1..], id, name, phone, email)
  }

  /** The largest id in the table, 0 when it is empty. */
  function MaxId(rows: seq<Contact>): (m: nat)
    ensures forall c :: c in rows ==> c.id <= m
    decreases |rows|
  {
    if rows == [] then 0
    else
      var rest := MaxId(rows[1..]);
      assert forall c :: c in rows ==> c == rows[0] || c in rows[1..];
      if rows[0].id > rest then rows[0].id else rest
  }

  class ContactStore {
    var rows: seq<Contact>
    /** The id the next insert receives. */
    var nextId: nat
    /** Whether a contact matches a search term; the query text is not part of this model. */
    const matches: (Contact, string) -> bool

    ghost predicate Valid()
      reads this
    {
      UniqueIds(rows) && forall c :: c in rows ==> c.id < nextId
    }

    /** Opens the store on the rows already saved. */
    constructor (saved: seq<Contact>, matches: (Contact, string) -> bool)
      requires UniqueIds(saved)
      ensures Valid()
      ensures rows == saved && this.matches == matches
    {
      rows := saved;
      nextId := MaxId(saved) + 1;
      this.matches := matches;
    }

    /** `get_all_contacts_db`: every row without a term, the matching rows with one. */
    function Query(term: Option<string>): (r: seq<Contact>)
      reads this
      ensures term.None? ==> r == rows
      ensures forall c :: c in r <==> c in rows && (term.None? || matches(c, term.value))
    {
      if term.None? then rows else Select(rows, (c: Contact) => matches(c, term.value))
    }

    /** `add_contact_db`: appends one row under a fresh id. */
    method Add(name: string, phone: string, email: string)
      requires Valid()
      modifies this`rows, this`nextId
      ensures Valid()
      ensures rows == old(rows) + [Contact(old(nextId), name, Some(phone), Some(email))]
      ensures nextId == old(nextId) + 1
    {
      rows := rows + [Contact(nextId, name, Some(phone), Some(email))];
      nextId := nextId + 1;
    }

    /** `update_contact_db`: rewrites the row with `id`, if there is one. */
    method Update(id: nat, name: string, phone: string, email: string)
      requires Valid()
      modifies this`rows
      ensures Valid()
      ensures rows == Updated(old(rows), id, name, phone, email)
      ensures nextId == old(nextId)
    {
      rows := Updated(rows, id, name, phone, email);
      assert forall c :: c in rows ==> c.id < nextId by {
        forall c | c in rows ensures c.id < nextId {
          var i :| 0 <= i < |rows| && rows[i] == c;
          assert old(rows)[i] in old(rows);
        }
      }
    }

    /** `delete_contact_db`: drops the row with `id`, if there is one. */
    method Delete(id: nat)
      requires Valid()
      modifies this`rows
      ensures Valid()
      ensures rows == WithoutId(old(rows), id)
      ensures nextId == old(nextId)
    {
      SelectKeepsUniqueIds(rows, (c: Contact) => c.id != id);
      rows := WithoutId(rows, id);
    }
  }
}
