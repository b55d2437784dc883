/**
 * One pass of the script (book_finder.py, lines 16-137): the session list
 * is created if missing, then the page chosen in the sidebar runs. Streamlit
 * reruns the script after every user action; an `Interaction` is what the
 * widgets report for one pass, with at most one card button clicked.
 */
module Pages {
  import opened Wrappers
  import opened BookRecord
  import opened Catalog
  import opened Grid
  import opened SavedBooks
  import opened Session

  /** The three entries of the sidebar menu. */
  datatype Page = SearchPage | SavedPage | ScanPage

  /** What the widgets report for one pass of the script. */
  datatype Interaction = Interaction(
    page: Page,
    query: string,            // the text field of the search page
    searchPressed: bool,      // the "Search Books" button
    response: Response,       // what the catalog would answer to this query
    saveClick: Option<nat>,   // the position of the clicked "Save" button, if any
    removeClick: Option<nat>, // the position of the clicked "Remove" button, if any
    uploaded: bool)           // whether the scan page holds an uploaded image

  /** What the search page ends up showing. */
  datatype SearchOutcome =
    | Idle                              // the search button was not pressed
    | EmptyQuery                        // the error asking for a topic
    | NoBooks                           // the warning that nothing was found
    | Results(cards: seq<Placed<Book>>) // one card per item
    | Broken(cards: seq<Placed<Book>>)  // an exception ended the pass after these cards

  /** What the saved-books page ends up showing. */
  datatype ShelfOutcome =
    | NothingSaved                      // the note that nothing is saved yet
    | Shelf(cards: seq<Placed<SavedBook>>)

  datatype Screen =
    | SearchScreen(search: SearchOutcome, fetched: bool)
    | SavedScreen(shelf: ShelfOutcome)
    | ScanScreen(coverShown: bool)

  // ---------------------------------------------------------------------
  // The search page (lines 62-105)
  // ---------------------------------------------------------------------

  /** How many leading items have a `volumeInfo`; the first one without it raises a KeyError. */
  function Readable(items: seq<Item>): (n: nat)
    ensures n <= |items|
    ensures forall j :: 0 <= j < n ==> items[j].volumeInfo.Some?
    ensures n < |items| ==> items[n].volumeInfo.None?
    decreases |items|
  {
    if |items| == 0 || items[0].volumeInfo.None? then 0 else 1 + Readable(items[1..])
  }

  /** The display records of the first n items. */
  function Books(items: seq<Item>, n: nat): (r: seq<Book>)
    requires n <= Readable(items)
    ensures |r| == n
    ensures forall j :: 0 <= j < n ==> r[j] == Normalise(items[j].volumeInfo.value)
  {
    if n == 0 then [] else Books(items, n - 1) + [Normalise(items[n - 1].volumeInfo.value)]
  }

  /** The search page's outcome for a pass. */
  function Search(pressed: bool, query: string, response: Response): (o: SearchOutcome)
    ensures !pressed ==> o == Idle
    ensures pressed && query == "" ==> o == EmptyQuery
    ensures o.Results? ==>
              GetBooks(response).Fetched? && |o.cards| == |GetBooks(response).items| > 0
    ensures o.Broken? ==>
              pressed && query != "" &&
              (GetBooks(response).Raised? || |o.cards| < |GetBooks(response).items|)
    ensures (o.Results? || o.Broken?) ==>
              forall i :: 0 <= i < |o.cards| ==> o.cards[i].column == i % Columns
  {
    if !pressed then Idle
    else if query == "" then EmptyQuery
    else
      match GetBooks(response)
      case Raised => Broken([])
      case Fetched(items) =>
        if |items| == 0 then NoBooks
        else
          var n := Readable(items);
          var cards := Layout(Books(items, n));
          if n == |items| then Results(cards) else Broken(cards)
  }

  /** The cards a search outcome shows. */
  function ShownCards(o: SearchOutcome): seq<Placed<Book>>
  {
    if o.Results? || o.Broken? then o.cards else []
  }

  /** The card whose button was clicked, if that button was rendered. */
  function Clicked<T>(cards: seq<Placed<T>>, click: Option<nat>): Option<T>
  {
    if click.Some? && click.value < |cards| then Some(cards[click.value].card) else None
  }

  /** The saved list after the search page rendered `cards` and its save buttons. */
  function SaveClicked(saved: seq<SavedBook>, cards: seq<Placed<Book>>, click: Option<nat>): (r: seq<SavedBook>)
    ensures !(click.Some? && click.value < |cards|) ==> r == saved
    ensures click.Some? && click.value < |cards| ==>
              |r| == |saved| + 1 && r[..|saved|] == saved && r[|saved|] == Project(cards[click.value].card)
  {
    match Clicked(cards, click)
    case None => saved
    case Some(b) => AfterSave(saved, b)
  }

  /** An item with a `volumeInfo` right after the readable ones so far is readable too. */
  lemma ReadableNext(items: seq<Item>, i: nat)
    requires i <= Readable(items) && i < |items| && items[i].volumeInfo.Some?
    ensures i < Readable(items)
  {
    var n := Readable(items);
    assert n < |items| ==> items[n].volumeInfo.None?;
  }

  /** Rendering one more card can only add the save of that card. */
  lemma SaveClickedSnoc(saved: seq<SavedBook>, cards: seq<Placed<Book>>, p: Placed<Book>, click: Option<nat>)
    ensures SaveClicked(saved, cards + [p], click)
         == if click == Some(|cards|) then AfterSave(saved, p.card) else SaveClicked(saved, cards, click)
  {
    if click.Some? && click.value < |cards| {
      assert (cards + [p])[click.value] == cards[click.value];
    }
  }

  /**
   * The card loop of the search page: renders the readable items and
   * saves the clicked card. It stops at the first item without a
   * `volumeInfo`, where `book["volumeInfo"]` raises.
   */
  method RenderResults(session: SessionState, items: seq<Item>, click: Option<nat>)
      returns (cards: seq<Placed<Book>>)
    requires session.Valid() && session.hasSavedBooks
    modifies session
    ensures session.Valid() && session.hasSavedBooks
    ensures cards == Layout(Books(items, Readable(items)))
    ensures session.savedBooks == SaveClicked(old(session.savedBooks), cards, click)
  {
    ghost var n := Readable(items);
    ghost var books := Books(items, n);
    ghost var saved := session.savedBooks;
    cards := [];
    var i := 0;
    while i < |items|
      invariant 0 <= i <= n && |books| == n
      invariant cards == Layout(books[..i])
      invariant session.Valid() && session.hasSavedBooks
      invariant session.savedBooks == SaveClicked(saved, cards, click)
    {
      if items[i].volumeInfo.None? {
        assert books[..i] == books;
        return;
      }
      ReadableNext(items, i);
      var book := Normalise(items[i].volumeInfo.value);
      assert book == books[i];
      LayoutTakeSnoc(books, i);
      SaveClickedSnoc(saved, cards, Placed(Column(i), book), click);
      cards := cards + [Placed(Column(i), book)];
      if click == Some(i) {
        session.Save(book);
      }
      i := i + 1;
    }
    assert books[..i] == books;
  }

  /**
   * The search page. `fetched` tells whether the catalog was asked; only
   * the card whose "Save" button was clicked is appended to the list.
   */
  method RunSearch(session: SessionState, query: string, pressed: bool, response: Response, click: Option<nat>)
      returns (o: SearchOutcome, fetched: bool)
    requires session.Valid() && session.hasSavedBooks
    modifies session
    ensures session.Valid() && session.hasSavedBooks
    ensures o == Search(pressed, query, response)
    ensures fetched == (pressed && query != "")
    ensures session.savedBooks == SaveClicked(old(session.savedBooks), ShownCards(o), click)
  {
    fetched := false;
    if !pressed {
      return Idle, fetched;
    }
    if query == "" {
      return EmptyQuery, fetched;
    }
    fetched := true;
    var fetch := GetBooks(response);
    if fetch.Raised? {
      return Broken([]), fetched;
    }
    var items := fetch.items;
    if |items| == 0 {
      return NoBooks, fetched;
    }
    var cards := RenderResults(session, items, click);
    if Readable(items) == |items| {
      o := Results(cards);
    } else {
      o := Broken(cards);
    }
  }

  // ---------------------------------------------------------------------
  // The saved-books page (lines 111-129)
  // ---------------------------------------------------------------------

  /** The saved-books page's outcome for a pass: the shelf up to and including the removed card. */
  function ShelfOf(saved: seq<SavedBook>, click: Option<nat>): (o: ShelfOutcome)
    ensures o == NothingSaved <==> saved == []
    ensures o.Shelf? ==> 0 < |o.cards| <= |saved| && o.cards == Layout(saved[..|o.cards|])
    ensures o.Shelf? && !(click.Some? && click.value < |saved|) ==> |o.cards| == |saved|
    ensures o.Shelf? && click.Some? && click.value < |saved| ==> |o.cards| == click.value + 1
  {
    if |saved| == 0 then NothingSaved
    else if click.Some? && click.value < |saved| then Shelf(Layout(saved[..click.value + 1]))
    else Shelf(Layout(saved))
  }

  /** The saved list after the saved-books page: one removal at most, at the clicked position. */
  function RemoveClicked(saved: seq<SavedBook>, click: Option<nat>): (r: seq<SavedBook>)
    ensures !(click.Some? && click.value < |saved|) ==> r == saved
    ensures click.Some? && click.value < |saved| ==>
              |r| + 1 == |saved| && multiset(r) + multiset{saved[click.value]} == multiset(saved)
    ensures click.Some? && click.value < |saved| ==>
              (forall j :: 0 <= j < click.value ==> r[j] == saved[j]) &&
              (forall j :: click.value <= j < |r| ==> r[j] == saved[j + 1])
  {
    if click.Some? && click.value < |saved| then AfterRemove(saved, click.value) else saved
  }

  /**
   * The saved-books page. A "Remove" click pops that position and
   * `st.experimental_rerun()` ends the pass at once, so the loop never
   * runs on over the shortened list.
   */
  method RunShelf(session: SessionState, click: Option<nat>) returns (o: ShelfOutcome)
    requires session.Valid() && session.hasSavedBooks
    modifies session
    ensures session.Valid() && session.hasSavedBooks
    ensures o == ShelfOf(old(session.savedBooks), click)
    ensures session.savedBooks == RemoveClicked(old(session.savedBooks), click)
  {
    var books := session.savedBooks;
    if |books| == 0 {
      return NothingSaved;
    }
    var cards: seq<Placed<SavedBook>> := [];
    var i := 0;
    while i < |books|
      invariant 0 <= i <= |books|
      invariant cards == Layout(books[..i])
      invariant !(click.Some? && click.value < i)
      invariant session.Valid() && session.hasSavedBooks
      invariant session.savedBooks == books
    {
      LayoutTakeSnoc(books, i);
      cards := cards + [Placed(Column(i), books[i])];
      if click == Some(i) {
        session.RemoveAt(i);
        return Shelf(cards);
      }
      i := i + 1;
    }
    assert books[..i] == books;
    o := Shelf(cards);
  }

  // ---------------------------------------------------------------------
  // A whole pass
  // ---------------------------------------------------------------------

  /** The screen one pass shows, given the saved list it starts from. */
  function View(saved: seq<SavedBook>, ui: Interaction): (r: Screen)
    ensures r.SearchScreen? <==> ui.page == SearchPage
    ensures r.SavedScreen? <==> ui.page == SavedPage
    ensures r.ScanScreen? <==> ui.page == ScanPage
    ensures r.SearchScreen? ==> r.fetched == (ui.searchPressed && ui.query != "")
    ensures r.SavedScreen? ==> (r.shelf == NothingSaved <==> saved == [])
  {
    match ui.page
    case SearchPage =>
      SearchScreen(Search(ui.searchPressed, ui.query, ui.response), ui.searchPressed && ui.query != "")
    case SavedPage => SavedScreen(ShelfOf(saved, ui.removeClick))
    case ScanPage => ScanScreen(ui.uploaded)
  }

  /** The saved list one pass leaves behind. */
  function Next(saved: seq<SavedBook>, ui: Interaction): (r: seq<SavedBook>)
    ensures ui.page == ScanPage ==> r == saved
    ensures |saved| <= |r| + 1 && |r| <= |saved| + 1
  {
    match ui.page
    case SearchPage =>
      SaveClicked(saved, ShownCards(Search(ui.searchPressed, ui.query, ui.response)), ui.saveClick)
    case SavedPage => RemoveClicked(saved, ui.removeClick)
    case ScanPage => saved
  }

  /** One run of the script over a session that persists between runs. */
  method Rerun(session: SessionState, ui: Interaction) returns (screen: Screen)
    requires session.Valid()
    modifies session
    ensures session.Valid() && session.hasSavedBooks
    ensures screen == View(old(session.savedBooks), ui)
    ensures session.savedBooks == Next(old(session.savedBooks), ui)
  {
    session.InitSavedBooks();
    match ui.page
    case SearchPage =>
      var o, fetched := RunSearch(session, ui.query, ui.searchPressed, ui.response, ui.saveClick);
      screen := SearchScreen(o, fetched);
    case SavedPage =>
      var o := RunShelf(session, ui.removeClick);
      screen := SavedScreen(o);
    case ScanPage =>
      // the uploaded image is shown with a note; nothing else happens
      screen := ScanScreen(ui.uploaded);
  }

  // ---------------------------------------------------------------------
  // Properties of a pass
  // ---------------------------------------------------------------------

  /** An empty query shows the error, never asks the catalog, and keeps the list, whatever the catalog would say. */
  lemma EmptyQueryIsRefused(saved: seq<SavedBook>, ui: Interaction)
    requires ui.page == SearchPage && ui.searchPressed && ui.query == ""
    ensures View(saved, ui) == SearchScreen(EmptyQuery, false)
    ensures Next(saved, ui) == saved
  {
  }

  /** `NoBooks` is shown exactly when a non-empty query got an empty list back. */
  lemma NoBooksExactly(pressed: bool, query: string, response: Response)
    ensures Search(pressed, query, response) == NoBooks <==>
              pressed && query != "" && GetBooks(response) == Fetched([])
  {
  }

  /** A reply with an error status shows the warning and keeps the list. */
  lemma ErrorStatusWarns(saved: seq<SavedBook>, ui: Interaction)
    requires ui.page == SearchPage && ui.searchPressed && ui.query != ""
    requires ui.response.Reply? && ui.response.status != StatusOk
    ensures View(saved, ui) == SearchScreen(NoBooks, true)
    ensures Next(saved, ui) == saved
  {
  }

  /** When every item has a `volumeInfo`, there is one card per item, card `i` in column `i % 3`. */
  lemma {:induction false} OneCardPerItem(query: string, response: Response, items: seq<Item>)
    requires query != "" && GetBooks(response) == Fetched(items) && |items| > 0
    requires forall j :: 0 <= j < |items| ==> items[j].volumeInfo.Some?
    ensures Search(true, query, response).Results?
    ensures |Search(true, query, response).cards| == |items|
    ensures forall i :: 0 <= i < |items| ==>
              Search(true, query, response).cards[i] == Placed(i % 3, Normalise(items[i].volumeInfo.value))
  {
    ReadableAll(items);
  }

  /** The items are all readable exactly when none lacks a `volumeInfo`. */
  lemma {:induction false} ReadableAll(items: seq<Item>)
    ensures Readable(items) == |items| <==> forall j :: 0 <= j < |items| ==> items[j].volumeInfo.Some?
  {
    if Readable(items) < |items| {
      assert items[Readable(items)].volumeInfo.None?;
    }
  }

  /**
   * A card whose "Save" button was clicked is stored, behind the old list,
   * without its description, as soon as it was rendered: a later item that
   * raises does not undo the save.
   */
  lemma {:induction false} SaveStoresClickedCard(saved: seq<SavedBook>, ui: Interaction, items: seq<Item>, j: nat)
    requires ui.page == SearchPage && ui.searchPressed && ui.query != ""
    requires GetBooks(ui.response) == Fetched(items)
    requires j < Readable(items) && ui.saveClick == Some(j)
    ensures Next(saved, ui) == saved + [Project(Normalise(items[j].volumeInfo.value))]
  {
  }

  /** A "Save" click on a card that was never rendered changes nothing. */
  lemma SaveOfUnrenderedCardIgnored(saved: seq<SavedBook>, ui: Interaction, items: seq<Item>, j: nat)
    requires ui.page == SearchPage && ui.searchPressed && ui.query != ""
    requires GetBooks(ui.response) == Fetched(items)
    requires Readable(items) <= j && ui.saveClick == Some(j)
    ensures Next(saved, ui) == saved
  {
  }

  /** Whenever the search page shows the no-books warning, the list is unchanged. */
  lemma NoBooksKeepsList(saved: seq<SavedBook>, ui: Interaction)
    requires ui.page == SearchPage
    requires Search(ui.searchPressed, ui.query, ui.response) == NoBooks
    ensures View(saved, ui) == SearchScreen(NoBooks, true)
    ensures Next(saved, ui) == saved
  {
  }

  /**
   * A pass changes the list by at most one book: the scan page never, the
   * search page only by appending, the saved page only by removing one.
   */
  lemma PassChangesAtMostOne(saved: seq<SavedBook>, ui: Interaction)
    ensures ui.page == ScanPage ==> Next(saved, ui) == saved
    ensures ui.page == SearchPage ==>
              Next(saved, ui) == saved || (|Next(saved, ui)| == |saved| + 1 && Next(saved, ui)[..|saved|] == saved)
    ensures ui.page == SavedPage ==>
              Next(saved, ui) == saved ||
              exists i: nat :: i < |saved| && Next(saved, ui) == AfterRemove(saved, i)
    ensures ui.page == SavedPage && ui.removeClick.Some? && ui.removeClick.value < |saved| ==>
              Next(saved, ui) == AfterRemove(saved, ui.removeClick.value)
    ensures ui.page == SearchPage && ui.saveClick.None? ==> Next(saved, ui) == saved
    ensures ui.page == SavedPage && ui.removeClick.None? ==> Next(saved, ui) == saved
  {
  }

  /** The saved list after a sequence of passes. */
  function Replay(saved: seq<SavedBook>, uis: seq<Interaction>): seq<SavedBook>
    decreases |uis|
  {
    if |uis| == 0 then saved else Replay(Next(saved, uis[0]), uis[1..])
  }

  /** After n passes the list holds at most n more books than it started with. */
  lemma {:induction false} ReplayGrowsByAtMostOnePerPass(saved: seq<SavedBook>, uis: seq<Interaction>)
    ensures |Replay(saved, uis)| <= |saved| + |uis|
    decreases |uis|
  {
    if |uis| > 0 {
      PassChangesAtMostOne(saved, uis[0]);
      ReplayGrowsByAtMostOnePerPass(Next(saved, uis[0]), uis[1..]);
    }
  }

  /** Passes that click no card button leave the list as it is. */
  lemma {:induction false} ReplayWithoutClicksKeepsList(saved: seq<SavedBook>, uis: seq<Interaction>)
    requires forall k :: 0 <= k < |uis| ==> uis[k].saveClick.None? && uis[k].removeClick.None?
    ensures Replay(saved, uis) == saved
    decreases |uis|
  {
    if |uis| > 0 {
      PassChangesAtMostOne(saved, uis[0]);
      ReplayWithoutClicksKeepsList(saved, uis[1..]);
    }
  }

  /** An item with only a title. */
  function TitledItem(title: string): Item
  {
    Item(Some(EmptyInfo.(title := Some(title))))
  }

  /**
   * A search for "dune" returns A, B and C; they are shown in columns 0, 1
   * and 2; saving B stores one book titled B; removing it empties the list,
   * and the saved page then shows its placeholder.
   */
  lemma DuneScenario()
    ensures var response := Reply(StatusOk, Json(Some([TitledItem("A"), TitledItem("B"), TitledItem("C")])));
            var search := Interaction(SearchPage, "dune", true, response, Some(1), None, false);
            var shelf := Interaction(SavedPage, "", false, response, None, None, false);
            var remove := shelf.(removeClick := Some(0));
            var afterSave := Next([], search);
            && View([], search).search.Results?
            && |View([], search).search.cards| == 3
            && View([], search).search.cards[0].column == 0
            && View([], search).search.cards[1].column == 1
            && View([], search).search.cards[2].column == 2
            && |afterSave| == 1 && afterSave[0].title == "B"
            && View(afterSave, shelf) == SavedScreen(Shelf([Placed(0, afterSave[0])]))
            && Next(afterSave, remove) == []
            && View(Next(afterSave, remove), shelf) == SavedScreen(NothingSaved)
  {
    var items := [TitledItem("A"), TitledItem("B"), TitledItem("C")];
    var response := Reply(StatusOk, Json(Some(items)));
    var search := Interaction(SearchPage, "dune", true, response, Some(1), None, false);
    OneCardPerItem("dune", response, items);
    SaveStoresClickedCard([], search, items, 1);
    var saved := Next([], search);
    assert saved == [Project(Normalise(items[1].volumeInfo.value))];
    assert saved[0].title == "B";
    var shelf := Interaction(SavedPage, "", false, response, None, None, false);
    assert Layout(saved) == [Placed(0, saved[0])];
    assert Next(saved, shelf.(removeClick := Some(0))) == AfterRemove(saved, 0) == [];
  }

  /** The same scenario driven through a new session object, using the methods' contracts and `DuneScenario`. */
  method DuneSession()
  {
    var session := new SessionState();
    var items := [TitledItem("A"), TitledItem("B"), TitledItem("C")];
    var response := Reply(StatusOk, Json(Some(items)));
    var search := Interaction(SearchPage, "dune", true, response, Some(1), None, false);
    var shelf := Interaction(SavedPage, "", false, response, None, None, false);
    DuneScenario();
    var screen := Rerun(session, search);
    assert screen.search.Results? && |screen.search.cards| == 3;
    assert |session.savedBooks| == 1 && session.savedBooks[0].title == "B";
    screen := Rerun(session, shelf);
    assert screen == SavedScreen(Shelf([Placed(0, session.savedBooks[0])]));
    screen := Rerun(session, shelf.(removeClick := Some(0)));
    assert session.savedBooks == [];
    screen := Rerun(session, shelf);
    assert screen == SavedScreen(NothingSaved);
  }
}
