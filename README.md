# Book finder: a Dafny model

`book_finder.py` is a one-page Streamlit application with three pages chosen
from a sidebar menu. The search page sends a keyword to the Google Books
catalog and shows each returned item as a card on a three-column grid. Each
card has a "Save" button. The saved-books page shows the saved records on
the same grid. Each record has a "Remove" button. The scan page shows an
uploaded image and a note that detection is not implemented.

This project models:

- how one catalog item's `volumeInfo` becomes a card, with a fixed default
  for every missing key (`BookRecord`);
- `get_books` as a function of an abstract response (`Catalog`);
- the `i % 3` column placement (`Grid`);
- the six-field saved record, and the append and positional removal on the
  saved list (`SavedBooks`);
- `st.session_state` as a class that holds the saved list across reruns
  (`Session`);
- one run of the script as a method: the list is created if missing, then
  the chosen page runs its loop over the cards (`Pages`).

Every method that models a part of the script is proved against a pure
function of the old state: `Pages.View` and `Pages.Next` give the screen and
the saved list after a pass. The lemmas beside them are stated about those
functions. The method `Pages.DuneSession` has no contract of its own. It
takes a new `SessionState` object through a search, a save and a removal,
and its assertions are proved from the methods' contracts and the lemma
`Pages.DuneScenario`.

Edge cases of the code that the model keeps:

- A connection error raises out of `requests.get`, and a 200 reply whose
  body is not JSON raises out of `response.json()`. Nothing catches either,
  so both end the pass (`Catalog.Raised`, `Pages.Broken`).
- An item without `volumeInfo` raises a KeyError at line 71. This happens in
  the middle of the card loop, so the cards before it are already on screen
  (`Pages.Broken`).
- `maxResults=6` is only a request to the server. Nothing in the code limits
  the number of cards.
- `list.pop(i)` raises on a position that is out of range, so
  `SessionState.RemoveAt` requires a valid position. A click can only come
  from a button that was rendered, so at page level a position with no button
  changes nothing (`Pages.RemoveClicked`).

Python slices count code points. Dafny's `char` is a Unicode scalar value, so
`Shorten` measures the first 180 characters the same way.

## Model

| member | source | states |
|---|---|---|
| `Wrappers.Option.GetOr` | book_finder.py:72-78 | `dict.get(key, default)`: the stored value when the key is present, the default otherwise |
| `BookRecord.Join` | book_finder.py:73 | `sep.join(parts)`: "" for no parts, the part itself for one, and otherwise the first part and a separator come first |
| `BookRecord.Normalise` | book_finder.py:71-78 | each present key passes through unchanged and each absent key gives its default; the description always ends in "..." and the image comes from `Cover` |
| `BookRecord.AllDefaults` | book_finder.py:72-78 | with every key absent the card is exactly ("No Title", "Unknown Author", "Unknown Publisher", "Unknown Date", "No description available....", "N/A", the placeholder URL) |
| `BookRecord.AuthorLine` | book_finder.py:73 | with no `authors` key the line is exactly "Unknown Author"; an empty list gives ""; one author gives that name; otherwise the list joined with ", " |
| `BookRecord.JoinSnoc` | book_finder.py:73 | joining one more part adds exactly one separator and then the part |
| `BookRecord.JoinLength` | book_finder.py:73 | a join of n parts has the total length of the parts plus n - 1 separators |
| `BookRecord.JoinEndsWithLast` | book_finder.py:73 | a join of at least one part ends with its last part |
| `BookRecord.Prefix` | book_finder.py:76 | the slice `s[:n]` has length min(\|s\|, n) and is a prefix of s |
| `BookRecord.Shorten` | book_finder.py:76 | the description has length min(\|d\|, 180) + 3, starts with the first 180 characters of d and ends with "..."; a short d just gets "..." appended |
| `BookRecord.LongDescriptionIsCut` | book_finder.py:76 | a description over 180 characters becomes its first 180 characters plus "..." |
| `BookRecord.Cover` | book_finder.py:78 | the image is the thumbnail exactly when both `imageLinks` and `thumbnail` are present, otherwise the placeholder |
| `Catalog.GetBooks` | book_finder.py:5-10 | a reply that is not 200 gives []; a 200 reply gives its `items`, or [] without them; a connection error or a malformed 200 body raises |
| `Catalog.FailureLooksLikeNoMatches` | book_finder.py:8-10 | an error status cannot be told apart from a reply with no items |
| `Grid.Column` | book_finder.py:80 | the column index is below 3, congruent to i modulo 3, and equal to i for the first row |
| `Grid.Layout` | book_finder.py:70-80 | one placed card per card, in order, card i in column i % 3 |
| `Grid.LayoutOccupancy` | book_finder.py:69-80 | column c of n cards holds (n + 2 - c) / 3 of them |
| `Grid.OccupancyTotal` | book_finder.py:69-80 | together the three columns hold every card |
| `SavedBooks.Project` | book_finder.py:93-100 | the saved record has exactly the card's title, authors, publisher, date, rating and image; it has no description field |
| `SavedBooks.ProjectRoundTrip` | book_finder.py:93-100 | reading a saved record back and adding the card's description gives the card again |
| `SavedBooks.ProjectIgnoresOnlyDescription` | book_finder.py:93-100 | two cards give the same record exactly when they differ only in their description |
| `SavedBooks.AfterSave` | book_finder.py:93 | the list grows by one; the old records stay in place and the new last one is the card's record |
| `SavedBooks.AfterRemove` | book_finder.py:126 | the list shrinks by one; earlier records stay in place, later records move one place left, and exactly the removed record leaves the multiset |
| `SavedBooks.SaveAllAppends` | book_finder.py:93-100 | k saves append exactly the k records, in call order |
| `SavedBooks.RemovingEachEmpties` | book_finder.py:113-126 | n removals, each at a position valid at its turn, empty a list of n records |
| `Session.SessionState.constructor` | book_finder.py:16-17 | a new session has no saved list |
| `Session.SessionState.InitSavedBooks` | book_finder.py:16-17 | the first pass creates the empty list; later passes keep the list they find |
| `Session.SessionState.Save` | book_finder.py:93-100 | the list becomes `AfterSave` of the old list and the card |
| `Session.SessionState.RemoveAt` | book_finder.py:126 | for a position in range the list becomes `AfterRemove` of the old list |
| `Pages.Readable` | book_finder.py:70-71 | the number of leading items that have a `volumeInfo`; the next item, if there is one, lacks it |
| `Pages.Search` | book_finder.py:64-105 | no press shows nothing and an empty query shows the error; results mean a fetched, non-empty list with one card per item; a broken pass means an exception, or fewer cards than items; card i is in column i % 3 |
| `Pages.SaveClicked` | book_finder.py:92-100 | a click on a rendered card appends exactly that card's record behind the old list; any other click changes nothing |
| `Pages.RenderResults` | book_finder.py:69-100 | the card loop renders exactly the readable leading items, card i in column i % 3, and appends the record of the clicked card only if that card was rendered |
| `Pages.RunSearch` | book_finder.py:64-105 | the search page's outcome is `Search`; the catalog is asked exactly when the button is pressed with a non-empty query; the list gains the clicked card's record only when that card was rendered |
| `Pages.ShelfOf` | book_finder.py:111-129 | the placeholder shows exactly when nothing is saved; otherwise the shelf lays out a prefix of the list, all of it without a valid click and up to the clicked card with one |
| `Pages.RemoveClicked` | book_finder.py:125-126 | a click on a rendered position pops exactly that position: earlier records stay in place, later ones move one place left, and the list is one shorter; any other click changes nothing |
| `Pages.RunShelf` | book_finder.py:111-129 | the saved page's outcome is `ShelfOf`; the list loses exactly the clicked position if one was rendered and is unchanged otherwise |
| `Pages.View` | book_finder.py:58-137 | each menu entry shows its own page; the search screen records whether the catalog was asked; the saved screen shows the placeholder exactly when the list is empty |
| `Pages.Next` | book_finder.py:58-137 | the scan page keeps the list, and every pass changes its length by at most one |
| `Pages.Rerun` | book_finder.py:16-137 | one run creates the list if missing and then shows `View` and leaves `Next` of the list it started from |
| `Pages.EmptyQueryIsRefused` | book_finder.py:65-105 | an empty query shows the error, does not fetch and keeps the list, whatever the catalog would answer |
| `Pages.NoBooksExactly` | book_finder.py:65-67 | the warning is shown exactly when a non-empty query got an empty list back |
| `Pages.ErrorStatusWarns` | book_finder.py:8-10 | an error status shows the no-books warning and keeps the list |
| `Pages.ReadableAll` | book_finder.py:70-71 | all items are readable exactly when none lacks a `volumeInfo` |
| `Pages.OneCardPerItem` | book_finder.py:69-80 | when all items are readable there is one card per item, card i in column i % 3 showing `Normalise` of item i |
| `Pages.SaveStoresClickedCard` | book_finder.py:70-100 | clicking "Save" on a rendered card j appends exactly the record of item j behind the old list, even when a later item raises |
| `Pages.SaveOfUnrenderedCardIgnored` | book_finder.py:70-100 | a "Save" click at a position past the rendered cards changes nothing |
| `Pages.NoBooksKeepsList` | book_finder.py:67-103 | whenever the no-books warning is shown, the catalog was asked and the list is unchanged |
| `Pages.PassChangesAtMostOne` | book_finder.py:58-137 | the scan page never changes the list; the search page only appends one record; the saved page gives the old list or `AfterRemove` of it at one valid position, and a click on a rendered position gives `AfterRemove` at exactly the clicked position; a pass with no click changes nothing |
| `Pages.ReplayGrowsByAtMostOnePerPass` | book_finder.py:16-137 | after n passes the list holds at most n more records |
| `Pages.ReplayWithoutClicksKeepsList` | book_finder.py:16-137 | passes without card clicks leave the list as it was |
| `Pages.DuneScenario` | book_finder.py:64-129 | results A, B, C go to columns 0, 1, 2; saving B stores one record titled B; removing it empties the list and the saved page shows its placeholder |

## Left out

- The HTTP request and the URL it is built from (lines 6-7) are network I/O. The response is a parameter. The query is put into the URL without encoding.
- Rendering is left out: the CSS and HTML markup, page config, headings, and the success, warning, error and info messages. A page outcome names which message or cards the page shows.
- The sidebar radio widget is left out. The chosen page is a field of `Interaction`.
- Streamlit's rerun and button-event rules are left out. Each pass reports at most one clicked card button. In real Streamlit, clicking "Save" starts a new run. In that run the "Search Books" button at line 64 is no longer pressed, so the save branch nested under it may never run. The model treats the save as happening in the same pass as the search.
- What `st.experimental_rerun()` does after the "Remove" button of line 125 is not modelled. The model only ends the pass there, so that pass removes at most once.
- The scan page's file upload and image display: they are widget I/O with no logic. The model records only whether an image was uploaded.
- JSON typing: each `volumeInfo` value is assumed to have the type the page uses. A string field may not hold null or a number, and `authors` must be a list of strings. The model does not capture what Python would print or raise for other types.
- A rating is a real number, so a JSON integer rating (4) and a float rating (4.0) are the same value here, although Python prints them as "4" and "4.0". This only matters to rendering, which is left out.
- A reply with `"items": null` is not modelled: `Body.Json` holds either a list or no `items` key. In Python `.get` would return None there, which is falsy, so the page would show the no-books warning.
- A 200 body that is valid JSON but not an object makes `.get` raise. The model counts it as `Malformed`, which raises too.
