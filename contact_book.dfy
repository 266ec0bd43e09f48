/**
 * The contact book's actions: listing the contacts as cards, adding one,
 * the edit and delete dialogs, deleting, and searching. The list view, the
 * text fields and the dialogs are objects whose fields the actions set; the
 * store is `ContactDatabase.ContactStore`.
 */
module ContactBook {
  import opened Wrappers
  import opened Text
  import opened ContactDatabase

  const NameRequiredMessage := "Name cannot be empty"
  const NoMatchesMessage := "No contacts found."
  const EmptyBookMessage := "No contacts yet. Add your first contact!"
  const NoPhoneText := "No phone"
  const NoEmailText := "No email"

  /** Python truthiness of an optional string: present and non-empty. */
  predicate Truthy(s: Option<string>) {
    s.Some? && s.value != ""
  }

  /** The name check of `add_contact` and `save_and_close`: `not v or not v.strip()`. */
  predicate Blank(v: string) {
    v == "" || Strip(v) == ""
  }

  /** A name is refused exactly when it is empty or all whitespace. */
  lemma BlankIff(v: string)
    ensures Blank(v) <==> forall k :: 0 <= k < |v| ==> IsSpace(v[k])
  {
    StripEmptyIff(v);
  }

  // ---------------------------------------------------------------------------
  // What the list shows

  datatype RowIcon = PhoneIcon | PhoneDisabledIcon | EmailIcon | EmailOutlinedIcon

  /** One detail line of a card; `placeholder` marks the greyed "No ..." form. */
  datatype DetailRow = DetailRow(icon: RowIcon, text: string, placeholder: bool)

  /** An entry of the list: the empty-state message, or the card of one contact. */
  datatype Item =
    | Message(text: string)
    | Card(contact: Contact, title: string, phoneRow: DetailRow, emailRow: DetailRow)

  /** The phone line of a card: the number, or a greyed "No phone". */
  function PhoneRow(phone: Option<string>): DetailRow {
    if Truthy(phone) then DetailRow(PhoneIcon, phone.value, false)
    else DetailRow(PhoneDisabledIcon, NoPhoneText, true)
  }

  /** The email line of a card: the address, or a greyed "No email". */
  function EmailRow(email: Option<string>): DetailRow {
    if Truthy(email) then DetailRow(EmailIcon, email.value, false)
    else DetailRow(EmailOutlinedIcon, NoEmailText, true)
  }

  /** The card of one contact; its menu's edit and delete act on `contact`. */
  function CardFor(c: Contact): (item: Item)
    ensures item.Card? && item.contact == c && item.title == c.name
    ensures item.phoneRow.text == (if Truthy(c.phone) then c.phone.value else NoPhoneText)
    ensures item.phoneRow.placeholder <==> !Truthy(c.phone)
    ensures item.emailRow.text == (if Truthy(c.email) then c.email.value else NoEmailText)
    ensures item.emailRow.placeholder <==> !Truthy(c.email)
  {
    Card(c, c.name, PhoneRow(c.phone), EmailRow(c.email))
  }

  /** One card per contact, in the order given. */
  function Cards(contacts: seq<Contact>): (items: seq<Item>)
    ensures |items| == |contacts|
    ensures forall i :: 0 <= i < |contacts| ==> items[i] == CardFor(contacts[i])
    decreases |contacts|
  {
    if contacts == [] then [] else [CardFor(contacts[0])] + Cards(contacts[1..])
  }

  /** The message shown when nothing is listed: it depends on whether a search is active. */
  function EmptyStateText(term: Option<string>): string {
    if Truthy(term) then NoMatchesMessage else EmptyBookMessage
  }

  /**
   * What `display_contacts` leaves in the list for the store's answer
   * `contacts`: a single message when there are none, otherwise exactly one
   * card per contact in the store's order.
   */
  function ContactItems(contacts: seq<Contact>, term: Option<string>): (items: seq<Item>)
    ensures contacts == [] ==> items == [Message(EmptyStateText(term))]
    ensures contacts != [] ==>
      && |items| == |contacts|
      && forall i :: 0 <= i < |contacts| ==> items[i] == CardFor(contacts[i])
    ensures forall i :: 0 <= i < |items| ==> (items[i].Message? <==> contacts == [])
  {
    if contacts == [] then [Message(EmptyStateText(term))] else Cards(contacts)
  }

  /**
   * After an add, the full listing has one more card than before and the new
   * contact's card comes last, after the cards of the contacts already stored.
   */
  lemma AddedContactListed(rows: seq<Contact>, added: Contact)
    ensures var items := ContactItems(rows + [added], None);
      && |items| == |rows| + 1
      && items[|rows|] == CardFor(added)
      && (rows != [] ==> items[..|rows|] == ContactItems(rows, None))
  {
    var items := ContactItems(rows + [added], None);
    assert Cards(rows + [added]) == items;
    assert (rows + [added])[|rows|] == added;
    if rows != [] {
      assert items[..|rows|] == Cards(rows);
    }
  }

  // ---------------------------------------------------------------------------
  // Controls

  /** A text field: its value and the error line under it. */
  class TextField {
    var value: string
    var errorText: Option<string>

    constructor (value: string)
      ensures this.value == value && errorText == None
    {
      this.value := value;
      errorText := None;
    }
  }

  /** The list view holding the cards. */
  class ContactList {
    var controls: seq<Item>

    constructor ()
      ensures controls == []
    {
      controls := [];
    }
  }

  // ---------------------------------------------------------------------------
  // Actions

  /**
   * `display_contacts`: clears the list, asks the store for the contacts
   * (matching `term` when one is given) and lists them.
   */
  method DisplayContacts(view: ContactList, db: ContactStore, term: Option<string>)
    modifies view
    ensures view.controls == ContactItems(db.Query(term), term)
  {
    view.controls := [];
    var contacts := db.Query(term);
    if |contacts| == 0 {
      var message := if Truthy(term) then NoMatchesMessage else EmptyBookMessage;
      view.controls := view.controls + [Message(message)];
    } else {
      var i := 0;
      while i < |contacts|
        invariant 0 <= i <= |contacts|
        invariant |view.controls| == i
        invariant forall k :: 0 <= k < i ==> view.controls[k] == CardFor(contacts[k])
      {
        view.controls := view.controls + [CardFor(contacts[i])];
        i := i + 1;
      }
    }
  }

  /**
   * `add_contact`: a blank name sets the name field's error and changes
   * nothing else; otherwise the error is cleared, one contact is stored with
   * the stripped values, the three fields and the search field (when there is
   * one) are emptied, and the whole book is listed again.
   */
  method AddContact(nameInput: TextField, phoneInput: TextField, emailInput: TextField,
                    view: ContactList, db: ContactStore, searchInput: TextField?)
    requires nameInput != phoneInput && nameInput != emailInput && phoneInput != emailInput
    requires searchInput != nameInput && searchInput != phoneInput && searchInput != emailInput
    requires db.Valid()
    modifies nameInput, phoneInput, emailInput, view, db, searchInput
    ensures db.Valid()
    ensures phoneInput.errorText == old(phoneInput.errorText) && emailInput.errorText == old(emailInput.errorText)
    ensures searchInput != null ==> searchInput.errorText == old(searchInput.errorText)
    ensures Blank(old(nameInput.value)) ==>
      && nameInput.errorText == Some(NameRequiredMessage)
      && db.rows == old(db.rows) && db.nextId == old(db.nextId)
      && nameInput.value == old(nameInput.value) && phoneInput.value == old(phoneInput.value)
      && emailInput.value == old(emailInput.value)
      && (searchInput != null ==> searchInput.value == old(searchInput.value))
      && view.controls == old(view.controls)
    ensures !Blank(old(nameInput.value)) ==>
      && nameInput.errorText == None
      && db.rows == old(db.rows) + [Contact(old(db.nextId), Strip(old(nameInput.value)),
                                            Some(Strip(old(phoneInput.value))), Some(Strip(old(emailInput.value))))]
      && db.nextId == old(db.nextId) + 1
      && nameInput.value == "" && phoneInput.value == "" && emailInput.value == ""
      && (searchInput != null ==> searchInput.value == "")
      && view.controls == ContactItems(db.rows, None)
  {
    nameInput.errorText := None;
    if Blank(nameInput.value) {
      nameInput.errorText := Some(NameRequiredMessage);
      return;
    }
    db.Add(Strip(nameInput.value), Strip(phoneInput.value), Strip(emailInput.value));
    var inputs := [nameInput, phoneInput, emailInput];
    for i := 0 to |inputs|
      modifies nameInput, phoneInput, emailInput
      invariant forall k :: 0 <= k < i ==> inputs[k].value == ""
      invariant nameInput.errorText == None
      invariant phoneInput.errorText == old(phoneInput.errorText) && emailInput.errorText == old(emailInput.errorText)
    {
      inputs[i].value := "";
    }
    assert inputs[0].value == "" && inputs[1].value == "" && inputs[2].value == "";
    if searchInput != null {
      searchInput.value := "";
    }
    DisplayContacts(view, db, None);
  }

  /** `delete_contact`: drops the contact and lists the whole book again. */
  method DeleteContact(contactId: nat, db: ContactStore, view: ContactList)
    requires db.Valid()
    modifies db, view
    ensures db.Valid()
    ensures db.rows == WithoutId(old(db.rows), contactId) && db.nextId == old(db.nextId)
    ensures view.controls == ContactItems(db.rows, None)
  {
    db.Delete(contactId);
    DisplayContacts(view, db, None);
  }

  /** `search_contacts`: lists the contacts matching `term`. */
  method SearchContacts(view: ContactList, db: ContactStore, term: Option<string>)
    modifies view
    ensures view.controls == ContactItems(db.Query(term), term)
  {
    DisplayContacts(view, db, term);
  }

  /**
   * The dialog of `open_edit_dialog`: three fields filled from the contact
   * (a missing phone or email as ""), and its save and cancel buttons.
   */
  class EditDialog {
    const contactId: nat
    const nameField: TextField
    const phoneField: TextField
    const emailField: TextField
    var open: bool

    constructor (contact: Contact)
      ensures contactId == contact.id && open
      ensures fresh(nameField) && fresh(phoneField) && fresh(emailField)
      ensures nameField.value == contact.name
      ensures phoneField.value == contact.phone.GetOr("") && emailField.value == contact.email.GetOr("")
      ensures nameField.errorText == None
    {
      contactId := contact.id;
      nameField := new TextField(contact.name);
      phoneField := new TextField(contact.phone.GetOr(""));
      emailField := new TextField(contact.email.GetOr(""));
      open := true;
    }

    /**
     * `save_and_close`: a blank name sets the name field's error and leaves
     * the dialog open with nothing stored; otherwise the contact is rewritten
     * under the same id with the stripped values, the error is cleared, the
     * dialog closes and the whole book is listed again.
     */
    method SaveAndClose(db: ContactStore, view: ContactList)
      requires db.Valid()
      modifies this, nameField`errorText, db, view
      ensures db.Valid()
      ensures Blank(old(nameField.value)) ==>
        && nameField.errorText == Some(NameRequiredMessage)
        && open == old(open)
        && db.rows == old(db.rows) && db.nextId == old(db.nextId)
        && view.controls == old(view.controls)
      ensures !Blank(old(nameField.value)) ==>
        && nameField.errorText == None
        && db.rows == Updated(old(db.rows), contactId, Strip(old(nameField.value)),
                              Strip(old(phoneField.value)), Strip(old(emailField.value)))
        && db.nextId == old(db.nextId)
        && !open
        && view.controls == ContactItems(db.rows, None)
    {
      if Blank(nameField.value) {
        nameField.errorText := Some(NameRequiredMessage);
        return;
      }
      nameField.errorText := None;
      db.Update(contactId, Strip(nameField.value), Strip(phoneField.value), Strip(emailField.value));
      open := false;
      DisplayContacts(view, db, None);
    }

    /** `cancel_edit`: closes the dialog. */
    method CancelEdit()
      modifies this
      ensures !open
    {
      open := false;
    }
  }

  /** The dialog of `show_delete_confirmation` for one contact. */
  class DeleteConfirmation {
    const contactId: nat
    const contactName: string
    var open: bool

    constructor (contactId: nat, contactName: string)
      ensures this.contactId == contactId && this.contactName == contactName && open
    {
      this.contactId := contactId;
      this.contactName := contactName;
      open := true;
    }

    /** `confirm_delete`: drops the contact, lists the whole book again and closes. */
    method ConfirmDelete(db: ContactStore, view: ContactList)
      requires db.Valid()
      modifies this, db, view
      ensures db.Valid()
      ensures db.rows == WithoutId(old(db.rows), contactId) && db.nextId == old(db.nextId)
      ensures view.controls == ContactItems(db.rows, None)
      ensures !open
    {
      db.Delete(contactId);
      DisplayContacts(view, db, None);
      open := false;
    }

    /** `cancel_delete`: closes the dialog; the store is untouched. */
    method CancelDelete()
      modifies this
      ensures !open
    {
      open := false;
    }
  }
}
