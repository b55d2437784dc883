/**
 * The saved-books list: the six-field record a "Save" button appends
 * (book_finder.py, lines 93-100) and the positional removal of the
 * "Remove" button (line 126), as functions on the list's contents.
 */
module SavedBooks {
  import opened Wrappers
  import opened BookRecord

  /** A saved book: a card without its description. */
  datatype SavedBook = SavedBook(
    title: string,
    authors: string,
    publisher: string,
    date: string,
    rating: Rating,
    image: string)

  /** The record a "Save" button stores for a card. */
  function Project(b: Book): (s: SavedBook)
    ensures s.title == b.title && s.authors == b.authors && s.publisher == b.publisher
    ensures s.date == b.publishedDate && s.rating == b.rating && s.image == b.image
  {
    SavedBook(b.title, b.authors, b.publisher, b.publishedDate, b.rating, b.image)
  }

  /** A saved book together with a description is a card again. */
  function WithDescription(s: SavedBook, description: string): (b: Book)
    ensures b.description == description
  {
    Book(s.title, s.authors, s.publisher, s.date, description, s.rating, s.image)
  }

  /**
   * Saving loses exactly the description: putting the card's own
   * description back restores the card.
   */
  lemma ProjectRoundTrip(b: Book)
    ensures WithDescription(Project(b), b.description) == b
  {
  }

  /** Two cards are saved as the same record exactly when they differ at most in their descriptions. */
  lemma ProjectIgnoresOnlyDescription(b: Book, b': Book)
    ensures Project(b) == Project(b') <==> b.(description := "") == b'.(description := "")
  {
    if Project(b) == Project(b') {
      assert b.(description := "") == WithDescription(Project(b), "");
      assert b'.(description := "") == WithDescription(Project(b'), "");
    }
  }

  /** `saved_books.append(...)` of a card's record. */
  function AfterSave(saved: seq<SavedBook>, b: Book): (r: seq<SavedBook>)
    ensures |r| == |saved| + 1
    ensures r[..|saved|] == saved
    ensures r[|saved|] == Project(b)
  {
    saved + [Project(b)]
  }

  /** `saved_books.pop(i)`: the element at `i` goes, the later ones move one place left. */
  function AfterRemove(saved: seq<SavedBook>, i: nat): (r: seq<SavedBook>)
    requires i < |saved|
    ensures |r| == |saved| - 1
    ensures forall j :: 0 <= j < i ==> r[j] == saved[j]
    ensures forall j :: i <= j < |r| ==> r[j] == saved[j + 1]
    ensures multiset(r) + multiset{saved[i]} == multiset(saved)
  {
    assert saved == saved[..i] + [saved[i]] + saved[i + 1..];
    saved[..i] + saved[i + 1..]
  }

  /** The list after saving `books`, one after the other. */
  function SaveAll(saved: seq<SavedBook>, books: seq<Book>): seq<SavedBook>
    decreases |books|
  {
    if |books| == 0 then saved else SaveAll(AfterSave(saved, books[0]), books[1..])
  }

  /** The records of `books`, in order. */
  function Projections(books: seq<Book>): (r: seq<SavedBook>)
    ensures |r| == |books|
    ensures forall k :: 0 <= k < |r| ==> r[k] == Project(books[k])
  {
    seq(|books|, k requires 0 <= k < |books| => Project(books[k]))
  }

  /** Saving is append-only: k saves add exactly the k records, in call order, behind the old list. */
  lemma {:induction false} SaveAllAppends(saved: seq<SavedBook>, books: seq<Book>)
    ensures SaveAll(saved, books) == saved + Projections(books)
    decreases |books|
  {
    if |books| > 0 {
      SaveAllAppends(AfterSave(saved, books[0]), books[1..]);
      assert [Project(books[0])] + Projections(books[1..]) == Projections(books);
    }
  }

  /**
   * The list after removing at each position of `positions` in turn, or
   * None when one of them is out of range when its turn comes (an IndexError).
   */
  function RemoveAll(saved: seq<SavedBook>, positions: seq<nat>): Option<seq<SavedBook>>
    decreases |positions|
  {
    if |positions| == 0 then Some(saved)
    else if positions[0] < |saved| then RemoveAll(AfterRemove(saved, positions[0]), positions[1..])
    else None
  }

  /** Positions that are in range for a list that shrinks by one per removal. */
  ghost predicate InRangeAsShrinking(n: nat, positions: seq<nat>)
  {
    forall k :: 0 <= k < |positions| ==> positions[k] + k < n
  }

  /** Removing once per element, each time at a position of the current list, empties the list. */
  lemma {:induction false} RemovingEachEmpties(saved: seq<SavedBook>, positions: seq<nat>)
    requires |positions| == |saved|
    requires InRangeAsShrinking(|saved|, positions)
    ensures RemoveAll(saved, positions) == Some([])
    decreases |positions|
  {
    if |positions| > 0 {
      var rest := AfterRemove(saved, positions[0]);
      assert positions[0] + 0 < |saved|;
      forall k | 0 <= k < |positions[1..]|
        ensures positions[1..][k] + k < |rest|
      {
        assert positions[k + 1] + (k + 1) < |saved|;
      }
      RemovingEachEmpties(rest, positions[1..]);
    }
  }
}
