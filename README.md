# Weather session and contact book, modelled in Dafny

This project models two small Flet desktop apps from the `cccs106-projects`
repository and proves properties of the models.

- **The weather app** (`mod6_labs/main.py`, class `WeatherApp`). The model covers:
  - how the city field is validated;
  - the fetch-and-show cycle of `get_weather`: loading indicator, service call,
    history update, panel or error line;
  - the recent-searches history (at most five, newest first, no duplicates)
    and its file;
  - `load_from_history`, `show_error`, `toggle_theme`;
  - the defaults `display_weather` reads out of the service's dictionary.

  `WeatherSession.WeatherApp` is a class with the fields the handlers assign.
  The weather service is a parameter: a `FetchOutcome` is either the payload
  or the text of what the service raised. The history file is a ghost field
  `persisted`. A ghost `trace` of `Event`s records, in order, the service
  call, the file writes, the dropdown refreshes and what was shown. That is
  how "no fetch on refused input" and "the history is saved before the panel
  is filled" are stated.
- **The contact book** (`week4_labs/contact_book_app/src/app_logic.py`). The
  model covers `display_contacts`, `add_contact`, `delete_contact`,
  `search_contacts`, the edit dialog and the delete confirmation. The list
  view, the text fields and the dialogs are classes whose fields the actions
  set. The `database` module is not part of this model. It is represented by
  `ContactDatabase.ContactStore`:
  - a table of rows with unique ids;
  - a counter for the next id;
  - an abstract relation `matches` for searches.

`Text` models Python's `str.strip` (over the characters `str.isspace`
accepts) and `str.title` (over ASCII letters). `Wrappers` holds `Option` and
`Result`.

Facts about the code that the model follows:
- `load_history` (main.py:21-26) lets `json.load` raise on a malformed
  file. That case is not modelled.
- `main.py` has no unit conversion, no threshold alerts and no forecast.
- A refused city (main.py:200-207) returns before the loading indicator is
  touched. Only the error line and the weather panel change: the error is
  shown and the panel is hidden (main.py:360-363). There is no fetch, no
  loading indicator and no history change.

## Model

| member | source | states |
|---|---|---|
| WeatherSession.HistoryAfterAdd | cccs106-projects/mod6_labs/main.py:33-39 | the searched city is always in the result; a city already listed leaves the history unchanged (no reordering); a new one goes in front, the rest follow in order, and the list is cut to five |
| WeatherSession.HistoryAfterAddBounded | cccs106-projects/mod6_labs/main.py:36-37 | adding never makes a history of at most five longer than five |
| WeatherSession.HistoryAfterAddNoDuplicates | cccs106-projects/mod6_labs/main.py:35-37 | adding keeps a duplicate-free history duplicate-free |
| WeatherSession.HistoryAfterAddIdempotent | cccs106-projects/mod6_labs/main.py:35-39 | searching the same city twice in a row leaves the history as after the first search |
| WeatherSession.AddAllFresh | cccs106-projects/mod6_labs/main.py:33-39 | after a run of distinct, not-yet-listed searches the history is the searches newest first followed by the old history, cut to five |
| WeatherSession.AddAllKeepsHistoryShape | cccs106-projects/mod6_labs/main.py:33-39 | a history that starts with at most five entries and no duplicates still has both properties after any run of searches |
| WeatherSession.SixSearches | cccs106-projects/mod6_labs/main.py:36-37 | six distinct searches from an empty history leave the last five, newest first; the first one is dropped |
| WeatherSession.ValidateCity | cccs106-projects/mod6_labs/main.py:197-207 | the stripped input is accepted exactly when it is non-empty and at most 50 characters long, and is then what is searched; empty gives "Please enter a city name", over 50 gives the too-long message |
| WeatherSession.BlankCityRefused | cccs106-projects/mod6_labs/main.py:197-202 | an input made only of whitespace (or empty) is refused with the empty-name message |
| WeatherSession.LengthLimitInclusive | cccs106-projects/mod6_labs/main.py:205-207 | the limit is inclusive: a stripped city of exactly 50 characters is accepted as is |
| WeatherSession.ErrorText | cccs106-projects/mod6_labs/main.py:356-359 | the error line is the cross-mark prefix followed by the message, or by "An unexpected error occurred" when the message is missing or empty |
| WeatherSession.Toggled | cccs106-projects/mod6_labs/main.py:185-193 | light goes to dark with the light-mode icon; system or dark go to light with the dark-mode icon |
| WeatherSession.ToggleTwice | cccs106-projects/mod6_labs/main.py:187-192 | away from the system theme, toggling twice restores the theme |
| WeatherSession.ExtractWeather | cccs106-projects/mod6_labs/main.py:236-244 | extraction fails, with IndexError's text, exactly when `weather` is an empty list; otherwise each present key gives its value, and each missing key or block gives its default ("Unknown", "", 0, "01d"), the description is title-cased, and the heading is "name, country" |
| WeatherSession.EmptyPayloadDefaults | cccs106-projects/mod6_labs/main.py:236-244 | a dictionary with no keys shows an unknown city with every default |
| WeatherSession.WeatherApp.constructor | cccs106-projects/mod6_labs/main.py:13-26 | the history is the file's list, or empty when there is no file; the dropdown lists it; the theme follows the system; nothing is shown |
| WeatherSession.WeatherApp.SaveHistory | cccs106-projects/mod6_labs/main.py:28-31 | the file now holds the current history, and the write is recorded |
| WeatherSession.WeatherApp.UpdateHistoryDropdown | cccs106-projects/mod6_labs/main.py:164-170 | the dropdown options equal the history and the selection is cleared |
| WeatherSession.WeatherApp.AddToHistory | cccs106-projects/mod6_labs/main.py:33-39 | the history becomes `HistoryAfterAdd`; the file and dropdown stay in step with it; a listed city writes nothing and keeps the selection; a new one is saved and then the dropdown is refreshed |
| WeatherSession.WeatherApp.ShowError | cccs106-projects/mod6_labs/main.py:348-366 | the error line shows `ErrorText(message)` and is visible, and the weather panel is hidden |
| WeatherSession.WeatherApp.ToggleTheme | cccs106-projects/mod6_labs/main.py:185-193 | theme and icon become `Toggled` of the old theme |
| WeatherSession.WeatherApp.DisplayWeather | cccs106-projects/mod6_labs/main.py:234-315 | on a failed extraction it returns the raised text and changes nothing; otherwise the panel holds the extracted view and is visible, and the error line is hidden |
| WeatherSession.WeatherApp.ShowFetched | cccs106-projects/mod6_labs/main.py:219-227 | with data in hand, the city is recorded (and saved, if new) before the panel is filled; an extraction failure goes to the error line while the history stays updated |
| WeatherSession.WeatherApp.FetchAndShow | cccs106-projects/mod6_labs/main.py:209-232 | the loading indicator goes on before the fetch and off last; the error line and the panel are hidden when the loading indicator goes on, and that is recorded in the trace; a service failure shows its message and leaves the history, the file and the panel's contents alone; success records the city and shows the weather or the extraction error; the dropdown selection is cleared exactly when the history changed |
| WeatherSession.WeatherApp.GetWeather | cccs106-projects/mod6_labs/main.py:195-232 | a refused input shows its message and hides the weather panel, and nothing else happens: no fetch, no loading indicator, no history change; an accepted one runs the fetch cycle on the stripped city; the session is idle again afterwards |
| WeatherSession.WeatherApp.LoadFromHistory | cccs106-projects/mod6_labs/main.py:172-179 | an empty selection changes nothing; otherwise the city field takes the selected city, the selection is cleared, and the search on it runs as in `GetWeather` |
| Text.TrimStartSpec | cccs106-projects/mod6_labs/main.py:197 | trimming the front leaves a suffix, drops only whitespace, and stops at a non-space |
| Text.TrimEndSpec | cccs106-projects/mod6_labs/main.py:197 | trimming the end leaves a prefix, drops only whitespace, and stops at a non-space |
| Text.StripSpec | cccs106-projects/mod6_labs/main.py:197 | `strip` gives a contiguous slice of the input whose ends are not whitespace, with only whitespace cut on either side |
| Text.StripEmptyIff | cccs106-projects/mod6_labs/main.py:197-200 | the stripped string is empty exactly when every character is whitespace |
| Text.StripIdempotent | cccs106-projects/mod6_labs/main.py:197 | stripping twice is stripping once |
| Text.TitleAt | cccs106-projects/mod6_labs/main.py:242 | each character of a title-cased string is lowered when the character before it is a letter and raised otherwise (the first one is raised); characters that are not letters are unchanged |
| Text.TitleFromIdempotent | cccs106-projects/mod6_labs/main.py:242 | title-casing from any state is idempotent |
| Text.TitleIdempotent | cccs106-projects/mod6_labs/main.py:242 | `title` applied twice is `title` applied once |
| ContactBook.BlankIff | cccs106-projects/week4_labs/contact_book_app/src/app_logic.py:88 | a name is refused exactly when it is empty or made only of whitespace |
| ContactBook.CardFor | cccs106-projects/week4_labs/contact_book_app/src/app_logic.py:26-69 | a contact's card is titled with its name and acts on that contact; the phone and email lines show the value when it is non-empty, else the greyed "No phone" / "No email" |
| ContactBook.Cards | cccs106-projects/week4_labs/contact_book_app/src/app_logic.py:25-76 | one card per contact, in the store's order |
| ContactBook.ContactItems | cccs106-projects/week4_labs/contact_book_app/src/app_logic.py:9-76 | with no contacts the list holds one message ("No contacts found." when the search term is non-empty, the empty-book text when it is missing or empty) and no card; otherwise entry i is the card `CardFor` builds for contact i, and there is no message |
| ContactBook.AddedContactListed | cccs106-projects/week4_labs/contact_book_app/src/app_logic.py:94-105 | after an add, the full listing has one more card, the new contact's card comes last, and the earlier cards are as before |
| ContactBook.DisplayContacts | cccs106-projects/week4_labs/contact_book_app/src/app_logic.py:4-78 | the list is replaced by `ContactItems` of what the store returns for the term |
| ContactBook.AddContact | cccs106-projects/week4_labs/contact_book_app/src/app_logic.py:80-105 | a blank name sets the name error and changes nothing else; otherwise the error is cleared, one contact with the stripped values is stored under a fresh id, all input fields and the search field are emptied, and the whole book is listed |
| ContactBook.DeleteContact | cccs106-projects/week4_labs/contact_book_app/src/app_logic.py:149-152 | the contact's row is gone, the other rows stay, the next id is unchanged, and the whole book is listed |
| ContactBook.SearchContacts | cccs106-projects/week4_labs/contact_book_app/src/app_logic.py:209-211 | the list shows the card of each contact matching the term; when nothing matches, it shows "No contacts found." if the term is non-empty and the empty-book text otherwise |
| ContactBook.EditDialog.constructor | cccs106-projects/week4_labs/contact_book_app/src/app_logic.py:154-160 | the dialog opens for the contact's id with its name, and its phone and email or "" when missing |
| ContactBook.EditDialog.SaveAndClose | cccs106-projects/week4_labs/contact_book_app/src/app_logic.py:162-174 | a blank name sets the error and keeps the dialog open with nothing stored; otherwise the row with that id takes the stripped values, the next id is unchanged, the error clears, the dialog closes and the whole book is listed |
| ContactBook.EditDialog.CancelEdit | cccs106-projects/week4_labs/contact_book_app/src/app_logic.py:182-184 | the dialog closes |
| ContactBook.DeleteConfirmation.constructor | cccs106-projects/week4_labs/contact_book_app/src/app_logic.py:115-147 | the confirmation opens for the given contact id and name |
| ContactBook.DeleteConfirmation.ConfirmDelete | cccs106-projects/week4_labs/contact_book_app/src/app_logic.py:117-121 | the contact's row is gone, the next id is unchanged, the whole book is listed and the dialog closes |
| ContactBook.DeleteConfirmation.CancelDelete | cccs106-projects/week4_labs/contact_book_app/src/app_logic.py:129-131 | the dialog closes and the store is untouched |
| ContactDatabase.Select | cccs106-projects/week4_labs/contact_book_app/src/app_logic.py:7 | a filtered table holds exactly the rows that pass, and no more rows than before |
| ContactDatabase.SelectKeepsUniqueIds | cccs106-projects/week4_labs/contact_book_app/src/app_logic.py:118 | filtering keeps ids unique |
| ContactDatabase.WithoutId | cccs106-projects/week4_labs/contact_book_app/src/app_logic.py:118 | after deleting an id the table holds every other row and none with that id |
| ContactDatabase.Updated | cccs106-projects/week4_labs/contact_book_app/src/app_logic.py:170-171 | an update keeps the table's length and every id; the row with the id takes the new values and all other rows are unchanged |
| ContactDatabase.ContactStore.constructor | cccs106-projects/week4_labs/contact_book_app/src/main.py:12 | the store opens on the saved rows, with the next id above every saved id |
| ContactDatabase.ContactStore.Query | cccs106-projects/week4_labs/contact_book_app/src/app_logic.py:7 | without a term every row comes back; with one, exactly the rows matching it |
| ContactDatabase.ContactStore.Add | cccs106-projects/week4_labs/contact_book_app/src/app_logic.py:94 | one row is appended under a fresh id, and ids stay unique |
| ContactDatabase.ContactStore.Update | cccs106-projects/week4_labs/contact_book_app/src/app_logic.py:170-171 | the table becomes `Updated`, the next id is unchanged, and ids stay unique |
| ContactDatabase.ContactStore.Delete | cccs106-projects/week4_labs/contact_book_app/src/app_logic.py:151 | the table becomes `WithoutId`, the next id is unchanged, and ids stay unique |

## Left out

- Flet widgets, layout, colours, `page.update`, window settings and snackbars:
  they are presentational. A dialog is only its `open` flag. A list entry is
  only the data the card shows.
- `load_history` and `save_history` file I/O (main.py:21-31): the file is the
  constructor's parameter `stored`, and afterwards the ghost `persisted`. A
  malformed file (which raises in `json.load`) and a failing write are not
  modelled.
- The weather service (`weather_service.py`) and `config.py` are not part of
  this model. The service is the `FetchOutcome` parameter.
- `async`, `page.run_task`, `asyncio.sleep` and the opacity animation: each
  handler runs to completion. In `LoadFromHistory`, clearing the dropdown
  selection comes before the scheduled search runs.
- `on_search` (main.py:181-183) only schedules `get_weather`. It is
  `GetWeather` itself.
- `WeatherSession.ExtractWeather`: Python's dynamic typing (a key present
  with a non-dictionary value, a non-numeric temperature) is not modelled.
  The payload's fields are typed options. Temperature formatting
  (`:.1f`), the icon URL and the info cards are presentation.
- `Text.Title`: covers ASCII letters only. Python's Unicode case mapping is
  not modelled.
- `WeatherSession.AddToHistory`: the history-shape invariant (at most five,
  no duplicates) is not part of `Valid`, because the history file may hold
  any list. It is proved as preservation lemmas instead. The same holds for
  runs of searches.
- The `database` module (`database.py`) is not part of this model. Its
  search semantics are the abstract relation `matches`. Its id assignment is
  modelled as a counter above every stored id. Row order is insertion order.
- Text field values `None`: fields are modelled as strings. The `not v`
  half of the name check therefore reduces to `v == ""`.
- The week 1, week 3 and contact-book `main.py` files are wiring and
  presentation. Only the store's opening (contact-book main.py:12) is
  modelled.
