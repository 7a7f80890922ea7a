/** The chapter dialog of components/ChapterModal.tsx: its local copy of a
    book's chapter marks, flipping one chapter, marking or unmarking all of
    them, and writing the marks back into the progress map. */
module ChapterModal {
  import opened Types
  import opened Constants
  import opened ProgressKeys
  import opened Tracker

  /** `Array(n).fill(b)`. */
  function Filled(n: nat, b: bool): (r: seq<bool>)
    ensures |r| == n && forall j :: 0 <= j < n ==> r[j] == b
  {
    seq(n, _ => b)
  }

  /** The dialog's initial marks: the stored array under the book's key when
      there is one (an empty array included, since every array is truthy),
      otherwise one unread mark per chapter. A non-empty string stored under
      the key is kept as the dialog's state and read character by
      character; each character is truthy, so the model holds one read mark
      per character. `toggleChapter` later spreads the string into an
      array, which keeps that truthiness. */
  function InitialLocal(progress: Progress, volumeId: string, book: Book): (r: seq<bool>)
    ensures var key := BookKey(volumeId, book.id);
            && (key !in progress ==> r == Filled(book.chapters, false))
            && (key in progress && progress[key].Chapters? ==> r == progress[key].marks)
  {
    var key := BookKey(volumeId, book.id);
    if key !in progress then Filled(book.chapters, false)
    else match progress[key]
      case Chapters(marks) => marks
      case Text(value) => if value == "" then Filled(book.chapters, false) else Filled(|value|, true)
  }

  /** The dialog shows what the tracker counts: its initial marks read as
      exactly the number of chapters the book's card reports. */
  lemma InitialLocalAgreesWithTracker(progress: Progress, volumeId: string, book: Book)
    ensures CountTruthy(Chapters(InitialLocal(progress, volumeId, book)), book.chapters)
            == ProgressOf(progress, BookKey(volumeId, book.id), book.chapters).completed
  {
    var key := BookKey(volumeId, book.id);
    SameTruthSameCount(Chapters(InitialLocal(progress, volumeId, book)), Stored(progress, key), book.chapters);
  }

  /** Entries that agree on every index below `n` give the same count. */
  lemma {:induction false} SameTruthSameCount(e1: Entry, e2: Entry, n: nat)
    requires forall i: nat :: i < n ==> (Truthy(e1, i) <==> Truthy(e2, i))
    ensures CountTruthy(e1, n) == CountTruthy(e2, n)
  {
    if n > 0 {
      SameTruthSameCount(e1, e2, n - 1);
    }
  }

  /** `toggleChapter(i)` on the marks: index `i` is negated. An index past
      the end extends the array; the holes in between are `undefined`, read
      here as unread marks, and the new mark is `!undefined`, that is read. */
  function ToggleChapter(local: seq<bool>, i: nat): (r: seq<bool>)
    ensures i < |local| ==> |r| == |local| && r[i] == !local[i]
    ensures i < |local| ==> forall j :: 0 <= j < |r| && j != i ==> r[j] == local[j]
    ensures |local| <= i ==> |r| == i + 1 && r[i] && r[..|local|] == local
    ensures |local| <= i ==> forall j :: |local| <= j < i ==> !r[j]
  {
    if i < |local| then local[i := !local[i]]
    else local + Filled(i - |local|, false) + [true]
  }

  /** Flipping the same chapter twice restores the marks. */
  lemma ToggleTwice(local: seq<bool>, i: nat)
    requires i < |local|
    ensures ToggleChapter(ToggleChapter(local, i), i) == local
  {
  }

  /** Past the end, flipping twice leaves the marks padded with unread
      chapters up to and including `i`. */
  lemma ToggleTwicePastEnd(local: seq<bool>, i: nat)
    requires |local| <= i
    ensures ToggleChapter(ToggleChapter(local, i), i) == local + Filled(i + 1 - |local|, false)
  {
    var once := ToggleChapter(local, i);
    var twice := ToggleChapter(once, i);
    assert |twice| == |local + Filled(i + 1 - |local|, false)|;
    forall j | 0 <= j < |twice|
      ensures twice[j] == (local + Filled(i + 1 - |local|, false))[j]
    {
      if j < |local| {
        assert once[j] == once[..|local|][j] == local[j];
      }
    }
  }

  /** `toggleAll(b)`: one mark per chapter, all equal to `b`. */
  function ToggleAll(book: Book, markAsComplete: bool): (r: seq<bool>)
    ensures |r| == book.chapters && forall j :: 0 <= j < |r| ==> r[j] == markAsComplete
  {
    Filled(book.chapters, markAsComplete)
  }

  /** `handleProgressUpdate`: the book's key gets the new marks and its legacy
      notes key is deleted. */
  function HandleProgressUpdate(progress: Progress, progressKey: string, marks: seq<bool>): (r: Progress)
    ensures progressKey in r && r[progressKey] == Chapters(marks)
    ensures NotesKey(progressKey) !in r
    ensures forall k :: k != progressKey && k != NotesKey(progressKey) ==> (k in r <==> k in progress)
    ensures forall k :: k != progressKey && k != NotesKey(progressKey) && k in r ==> r[k] == progress[k]
  {
    var newProgress := progress[progressKey := Chapters(marks)];
    var notesKey := NotesKey(progressKey);
    if notesKey in newProgress then newProgress - {notesKey} else newProgress
  }

  /** Writing the same marks twice is the same as writing them once; in
      particular pressing "mark all" twice changes nothing the second time. */
  lemma UpdateIdempotent(progress: Progress, progressKey: string, marks: seq<bool>)
    ensures var once := HandleProgressUpdate(progress, progressKey, marks);
            HandleProgressUpdate(once, progressKey, marks) == once
  {
    var once := HandleProgressUpdate(progress, progressKey, marks);
    var twice := HandleProgressUpdate(once, progressKey, marks);
    assert forall k :: k in twice <==> k in once;
  }

  /** After "mark all", the book's card reports every chapter read; after
      "unmark all", none. */
  lemma ToggleAllReported(progress: Progress, volumeId: string, book: Book, markAsComplete: bool)
    ensures var key := BookKey(volumeId, book.id);
            var after := HandleProgressUpdate(progress, key, ToggleAll(book, markAsComplete));
            ProgressOf(after, key, book.chapters)
            == Tally(if markAsComplete then book.chapters else 0, book.chapters)
  {
    var marks := ToggleAll(book, markAsComplete);
    if markAsComplete {
      CountAllMarked(marks, book.chapters);
    } else {
      CountNoneMarked(marks, book.chapters);
    }
  }

  /** Flipping a chapter the dialog shows changes the book's card by exactly
      one chapter. The dialog shows every chapter of the book, also those at
      or past the end of shorter stored marks; flipping one of those marks
      it read. */
  lemma ToggleChapterReported(progress: Progress, volumeId: string, book: Book, local: seq<bool>, i: nat)
    requires i < book.chapters
    ensures var key := BookKey(volumeId, book.id);
            var before := CountTruthy(Chapters(local), book.chapters);
            var after := ProgressOf(HandleProgressUpdate(progress, key, ToggleChapter(local, i)), key, book.chapters).completed;
            (if i < |local| && local[i] then after + 1 == before else after == before + 1)
  {
    if i < |local| {
      FlipChangesCountByOne(local, i, book.chapters);
    } else {
      PastEndCount(local, i, book.chapters);
    }
  }

  /** Flipping a chapter at or past the end of the marks adds one to the
      count below `n` when the chapter lies below `n`; the padding in
      between is unread. */
  lemma {:induction false} PastEndCount(local: seq<bool>, i: nat, n: nat)
    requires |local| <= i
    ensures CountTruthy(Chapters(ToggleChapter(local, i)), n)
            == CountTruthy(Chapters(local), n) + (if i < n then 1 else 0)
  {
    if n > 0 {
      PastEndCount(local, i, n - 1);
      var t := ToggleChapter(local, i);
      if n - 1 < |local| {
        assert t[n - 1] == t[..|local|][n - 1];
      }
    }
  }

  /** Saving one book's marks leaves every other book of the table, in any
      volume, reading as before. */
  lemma UpdateKeepsOtherBooks(l: Locale, v: nat, i: nat, w: nat, j: nat, marks: seq<bool>, progress: Progress)
    requires v < |ScripturesData(l)| && w < |ScripturesData(l)|
    requires i < |ScripturesData(l)[v].volume.books| && j < |ScripturesData(l)[w].volume.books|
    requires v != w || i != j
    ensures var t := ScripturesData(l);
            var key := BookKey(t[v].id, t[v].volume.books[i].id);
            var other := BookKey(t[w].id, t[w].volume.books[j].id);
            Stored(HandleProgressUpdate(progress, key, marks), other) == Stored(progress, other)
  {
    TableKeysCollisionFree(l, w, j, v, i);
  }
}
