/**
 * The per-session state `st.session_state`, of which the page uses one
 * key, `saved_books` (book_finder.py, lines 16-17, 93, 126). It outlives
 * every rerun of the script and starts without the key.
 */
module Session {
  import opened BookRecord
  import opened SavedBooks

  class SessionState {
    /** Whether `"saved_books" in st.session_state`. */
    var hasSavedBooks: bool
    /** `st.session_state.saved_books`, in save order; duplicates allowed. */
    var savedBooks: seq<SavedBook>

    /** Before its first pass a session holds no list at all. */
    ghost predicate Valid()
      reads this
    {
      !hasSavedBooks ==> savedBooks == []
    }

    /** A new session, before the script has run once. */
    constructor ()
      ensures Valid()
      ensures !hasSavedBooks && savedBooks == []
    {
      hasSavedBooks := false;
      savedBooks := [];
    }

    /** Creates the empty list on the first pass and keeps the existing one on every later pass. */
    method InitSavedBooks()
      requires Valid()
      modifies this
      ensures Valid() && hasSavedBooks
      ensures savedBooks == old(savedBooks)
    {
      if !hasSavedBooks {
        hasSavedBooks := true;
        savedBooks := [];
      }
    }

    /** The "Save" button: appends the card's six-field record. */
    method Save(b: Book)
      requires Valid() && hasSavedBooks
      modifies this
      ensures Valid() && hasSavedBooks
      ensures savedBooks == AfterSave(old(savedBooks), b)
    {
      savedBooks := savedBooks + [Project(b)];
    }

    /** The "Remove" button of the card at position `i` of the current list. */
    method RemoveAt(i: nat)
      requires Valid() && hasSavedBooks
      requires i < |savedBooks|
      modifies this
      ensures Valid() && hasSavedBooks
      ensures savedBooks == AfterRemove(old(savedBooks), i)
    {
      savedBooks := savedBooks[..i] + savedBooks[i + 1..];
    }
  }
}
