/** The reading-progress bookkeeping of components/ScriptureTracker.tsx:
    counting the chapters read in a book and in a volume, saving and removing
    a volume's goal date, the chapters-per-day goal and the navigation
    between the library and a volume. */
module Tracker {
  import opened Types
  import opened Constants
  import opened TableChecks
  import opened ProgressKeys

  // ---------------------------------------------------------------------------
  // Chapters read in one book

  /** Whether `progressArray[i]` is truthy. A stored chapter array is read at
      its index (a missing index is `undefined`); a stored string is indexed
      character by character, and every character is a non-empty string. */
  function Truthy(e: Entry, i: nat): (b: bool)
    ensures e.Text? ==> (b <==> i < |e.value|)
    ensures b ==> i < (if e.Chapters? then |e.marks| else |e.value|)
  {
    match e
    case Chapters(marks) => i < |marks| && marks[i]
    case Text(value) => i < |value|
  }

  /** `progress[progressKey] || []`: a missing key and the empty string are
      falsy and read as an empty array. The fallback never changes what is
      read: every index is truthy exactly when it is in the stored entry. */
  function Stored(progress: Progress, key: string): (r: Entry)
    ensures key !in progress ==> r == Chapters([])
    ensures forall i: nat :: Truthy(r, i) <==> key in progress && Truthy(progress[key], i)
  {
    if key in progress && progress[key] != Text("") then progress[key] else Chapters([])
  }

  /** The number of truthy indices below `n`. */
  function CountTruthy(e: Entry, n: nat): (r: nat)
    ensures r <= n
  {
    if n == 0 then 0 else CountTruthy(e, n - 1) + (if Truthy(e, n - 1) then 1 else 0)
  }

  /** The pair `calculateProgress` returns. */
  datatype Tally = Tally(completed: nat, total: nat)

  /** The chapters of a book that are read, out of its total. */
  function ProgressOf(progress: Progress, key: string, totalChapters: nat): (t: Tally)
    ensures t.total == totalChapters && t.completed <= t.total
    ensures key !in progress ==> t.completed == 0
  {
    CountNoneMarked([], totalChapters);
    Tally(CountTruthy(Stored(progress, key), totalChapters), totalChapters)
  }

  /** `calculateProgress`: the loop over the first `totalChapters` indices. */
  method CalculateProgress(key: string, totalChapters: nat, progress: Progress) returns (t: Tally)
    ensures t == ProgressOf(progress, key, totalChapters)
  {
    var progressArray := Stored(progress, key);
    var completed := 0;
    var i := 0;
    while i < totalChapters
      invariant i <= totalChapters
      invariant completed == CountTruthy(progressArray, i)
    {
      if Truthy(progressArray, i) {
        completed := completed + 1;
      }
      i := i + 1;
    }
    t := Tally(completed, totalChapters);
  }

  /** Marks at or beyond the book's chapter count are never read: two
      arrays that agree below `n` give the same count. */
  lemma {:induction false} CountIgnoresTail(a: seq<bool>, b: seq<bool>, n: nat)
    requires n <= |a| && n <= |b| && a[..n] == b[..n]
    ensures CountTruthy(Chapters(a), n) == CountTruthy(Chapters(b), n)
  {
    if n > 0 {
      assert a[..n - 1] == a[..n][..n - 1] == b[..n][..n - 1] == b[..n - 1];
      assert a[n - 1] == a[..n][n - 1] == b[..n][n - 1] == b[n - 1];
      CountIgnoresTail(a, b, n - 1);
    }
  }

  /** An array of `n` or more `true` marks reads as `n` chapters read, and an
      array without a `true` mark as none. */
  lemma {:induction false} CountAllMarked(marks: seq<bool>, n: nat)
    requires n <= |marks| && forall i :: 0 <= i < n ==> marks[i]
    ensures CountTruthy(Chapters(marks), n) == n
  {
    if n > 0 {
      CountAllMarked(marks, n - 1);
    }
  }

  lemma {:induction false} CountNoneMarked(marks: seq<bool>, n: nat)
    requires forall i :: 0 <= i < |marks| ==> !marks[i]
    ensures CountTruthy(Chapters(marks), n) == 0
  {
    if n > 0 {
      CountNoneMarked(marks, n - 1);
    }
  }

  /** Flipping one mark below `n` changes the count by exactly one; flipping
      one at or beyond `n` does not change it. */
  lemma {:induction false} FlipChangesCountByOne(marks: seq<bool>, i: nat, n: nat)
    requires i < |marks|
    ensures var flipped := marks[i := !marks[i]];
            var before, after := CountTruthy(Chapters(marks), n), CountTruthy(Chapters(flipped), n);
            && (n <= i ==> after == before)
            && (i < n && marks[i] ==> after + 1 == before)
            && (i < n && !marks[i] ==> after == before + 1)
  {
    if n > 0 {
      FlipChangesCountByOne(marks, i, n - 1);
    }
  }

  // ---------------------------------------------------------------------------
  // Chapters read in one volume

  /** The `reduce` over a volume's books, starting from the accumulator. */
  function FoldBooks(acc: Tally, volumeId: string, books: seq<Book>, progress: Progress): (r: Tally)
    ensures r.total == acc.total + TotalChapters(books)
    ensures acc.completed <= acc.total ==> r.completed <= r.total
    decreases |books|
  {
    if |books| == 0 then acc
    else
      var p := ProgressOf(progress, BookKey(volumeId, books[0].id), books[0].chapters);
      FoldBooks(Tally(acc.completed + p.completed, acc.total + p.total), volumeId, books[1..], progress)
  }

  /** A volume's chapters read, out of its total. */
  function VolumeProgress(volumeId: string, books: seq<Book>, progress: Progress): (r: Tally)
    ensures r.total == TotalChapters(books) && r.completed <= r.total
  {
    FoldBooks(Tally(0, 0), volumeId, books, progress)
  }

  /** The chapters read in each book, added up book by book. */
  function SumCompleted(volumeId: string, books: seq<Book>, progress: Progress): nat
    decreases |books|
  {
    if |books| == 0 then 0
    else ProgressOf(progress, BookKey(volumeId, books[0].id), books[0].chapters).completed
         + SumCompleted(volumeId, books[1..], progress)
  }

  /** The fold adds up the per-book results onto its accumulator. */
  lemma {:induction false} FoldIsSum(acc: Tally, volumeId: string, books: seq<Book>, progress: Progress)
    ensures FoldBooks(acc, volumeId, books, progress)
            == Tally(acc.completed + SumCompleted(volumeId, books, progress), acc.total + TotalChapters(books))
    decreases |books|
  {
    if |books| > 0 {
      var p := ProgressOf(progress, BookKey(volumeId, books[0].id), books[0].chapters);
      FoldIsSum(Tally(acc.completed + p.completed, acc.total + p.total), volumeId, books[1..], progress);
    }
  }

  /** A volume's tally is the sum of its books' tallies. */
  lemma VolumeIsSumOfBooks(volumeId: string, books: seq<Book>, progress: Progress)
    ensures VolumeProgress(volumeId, books, progress) == Tally(SumCompleted(volumeId, books, progress), TotalChapters(books))
  {
    FoldIsSum(Tally(0, 0), volumeId, books, progress);
  }

  /** The fold reads the progress map only at the books' keys. */
  lemma {:induction false} FoldReadsOnlyBookKeys(acc: Tally, volumeId: string, books: seq<Book>, p1: Progress, p2: Progress)
    requires forall i :: 0 <= i < |books| ==> Stored(p1, BookKey(volumeId, books[i].id)) == Stored(p2, BookKey(volumeId, books[i].id))
    ensures FoldBooks(acc, volumeId, books, p1) == FoldBooks(acc, volumeId, books, p2)
    decreases |books|
  {
    if |books| > 0 {
      assert Stored(p1, BookKey(volumeId, books[0].id)) == Stored(p2, BookKey(volumeId, books[0].id));
      var p := ProgressOf(p1, BookKey(volumeId, books[0].id), books[0].chapters);
      FoldReadsOnlyBookKeys(Tally(acc.completed + p.completed, acc.total + p.total), volumeId, books[1..], p1, p2);
    }
  }

  /** The fold depends on the books' ids and chapter counts only. */
  lemma {:induction false} FoldIgnoresNames(acc: Tally, volumeId: string, a: seq<Book>, b: seq<Book>, progress: Progress)
    requires SameLayout(a, b)
    ensures FoldBooks(acc, volumeId, a, progress) == FoldBooks(acc, volumeId, b, progress)
    decreases |a|
  {
    if |a| > 0 {
      assert a[0].id == b[0].id && a[0].chapters == b[0].chapters;
      assert SameLayout(a[1..], b[1..]);
      var p := ProgressOf(progress, BookKey(volumeId, a[0].id), a[0].chapters);
      FoldIgnoresNames(Tally(acc.completed + p.completed, acc.total + p.total), volumeId, a[1..], b[1..], progress);
    }
  }

  /** Switching the language shows the same reading progress for every
      volume: the tables share their keys, book ids and chapter counts. */
  lemma ProgressSurvivesLanguageSwitch(l1: Locale, l2: Locale, v: nat, progress: Progress)
    requires v < |ScripturesData(l1)|
    ensures v < |ScripturesData(l2)|
    ensures var t1, t2 := ScripturesData(l1), ScripturesData(l2);
            t1[v].id == t2[v].id
            && VolumeProgress(t1[v].id, t1[v].volume.books, progress) == VolumeProgress(t2[v].id, t2[v].volume.books, progress)
  {
    LayoutSharedByLocales(l1);
    LayoutSharedByLocales(l2);
    var t1, t2 := ScripturesData(l1), ScripturesData(l2);
    FoldIgnoresNames(Tally(0, 0), t1[v].id, t1[v].volume.books, EnUsScriptures[v].volume.books, progress);
    FoldIgnoresNames(Tally(0, 0), t1[v].id, t2[v].volume.books, EnUsScriptures[v].volume.books, progress);
  }

  /** The Book of Mormon card always counts out of 239 chapters. */
  lemma BookOfMormonOutOf239(l: Locale, progress: Progress)
    ensures var t := ScripturesData(l);
            VolumeProgress(t[0].id, t[0].volume.books, progress).total == 239
  {
    BookOfMormonChapters(l);
  }

  // ---------------------------------------------------------------------------
  // The goal date

  /** `handleGoalSave`: the volume's goal key is set to the date. */
  function SaveGoal(progress: Progress, volumeId: string, date: string): (r: Progress)
    ensures GoalKey(volumeId) in r && r[GoalKey(volumeId)] == Text(date)
    ensures forall k :: k != GoalKey(volumeId) ==> (k in r <==> k in progress)
    ensures forall k :: k != GoalKey(volumeId) && k in r ==> r[k] == progress[k]
  {
    progress[GoalKey(volumeId) := Text(date)]
  }

  /** `handleGoalRemove`: only the volume's goal key is deleted. */
  function RemoveGoal(progress: Progress, volumeId: string): (r: Progress)
    ensures GoalKey(volumeId) !in r
    ensures forall k :: k != GoalKey(volumeId) ==> (k in r <==> k in progress)
    ensures forall k :: k != GoalKey(volumeId) && k in r ==> r[k] == progress[k]
  {
    progress - {GoalKey(volumeId)}
  }

  /** The goal dialog's save button: an empty date is ignored. */
  function SaveFromDialog(progress: Progress, volumeId: string, date: string): (r: Option<Progress>)
    ensures r.None? <==> date == ""
    ensures r.Some? ==> r.value == SaveGoal(progress, volumeId, date)
  {
    if date != "" then Some(SaveGoal(progress, volumeId, date)) else None
  }

  /** Saving a goal on a map without one and then removing it gives back the
      original map. */
  lemma SaveThenRemoveGoal(progress: Progress, volumeId: string, date: string)
    requires GoalKey(volumeId) !in progress
    ensures RemoveGoal(SaveGoal(progress, volumeId, date), volumeId) == progress
  {
    var r := RemoveGoal(SaveGoal(progress, volumeId, date), volumeId);
    assert forall k :: k in r <==> k in progress;
  }

  /** Setting or removing any volume's goal leaves the reading progress of
      every volume of every locale unchanged: goal keys never collide with
      book keys. */
  lemma GoalKeepsVolumeProgress(l: Locale, v: nat, w: nat, date: string, progress: Progress)
    requires v < |ScripturesData(l)| && w < |ScripturesData(l)|
    ensures var t := ScripturesData(l);
            var books := t[v].volume.books;
            && VolumeProgress(t[v].id, books, SaveGoal(progress, t[w].id, date)) == VolumeProgress(t[v].id, books, progress)
            && VolumeProgress(t[v].id, books, RemoveGoal(progress, t[w].id)) == VolumeProgress(t[v].id, books, progress)
  {
    var t := ScripturesData(l);
    var books := t[v].volume.books;
    var saved, removed := SaveGoal(progress, t[w].id, date), RemoveGoal(progress, t[w].id);
    forall i | 0 <= i < |books|
      ensures Stored(saved, BookKey(t[v].id, books[i].id)) == Stored(progress, BookKey(t[v].id, books[i].id))
      ensures Stored(removed, BookKey(t[v].id, books[i].id)) == Stored(progress, BookKey(t[v].id, books[i].id))
    {
      TableKeysCollisionFree(l, v, i, v, i);
    }
    FoldReadsOnlyBookKeys(Tally(0, 0), t[v].id, books, saved, progress);
    FoldReadsOnlyBookKeys(Tally(0, 0), t[v].id, books, removed, progress);
  }

  // ---------------------------------------------------------------------------
  // The chapters-per-day goal

  /** Milliseconds in a day, and the offset of `T23:59:59` into its day. */
  const MsPerDay: int := 1000 * 60 * 60 * 24
  const EndOfDayMs: int := MsPerDay - 1000

  /** `Math.ceil(a / b)` for a positive `b`. */
  function CeilDiv(a: int, b: int): (q: int)
    requires b > 0
    ensures (q - 1) * b < a <= q * b
  {
    if a % b == 0 then a / b else a / b + 1
  }

  /** What `calculateDailyGoal` returns: `null`, `'0.0'`, the rate
      `remaining / days` before `toFixed(1)`, or `'NaN'` for a date that does
      not parse. */
  datatype DailyGoal = NoGoal | NothingLeft | PerDay(remaining: int, days: int) | NotANumber

  /** `calculateDailyGoal`. Dates are day numbers: `parse` gives the day of a
      `YYYY-MM-DD` date (or nothing for an invalid one), `today` is the
      current day, and a day begins at `day * MsPerDay` in local time. */
  function CalculateDailyGoal(goalDate: Option<string>, total: int, completed: int, today: int, parse: string -> Option<int>): (r: DailyGoal)
    ensures goalDate.None? || goalDate.value == "" ==> r == NoGoal
    ensures r.PerDay? ==> r.remaining == total - completed > 0
    ensures r.NothingLeft? ==> total - completed <= 0
    ensures r.NotANumber? ==> goalDate.Some? && parse(goalDate.value).None?
  {
    if goalDate.None? || goalDate.value == "" then NoGoal
    else match parse(goalDate.value)
      case None =>
        // an invalid date: every comparison is false and every difference NaN
        if total - completed <= 0 then NothingLeft else NotANumber
      case Some(day) =>
        var target := day * MsPerDay + EndOfDayMs;
        var now := today * MsPerDay;
        if target < now then NoGoal
        else
          var diffDays := CeilDiv(target - now, MsPerDay);
          var chaptersRemaining := total - completed;
          if chaptersRemaining <= 0 then NothingLeft
          else PerDay(chaptersRemaining, diffDays)
  }

  /** For a valid date, the goal lapses exactly when the day is past, and the
      remaining chapters are spread over the days from today through the
      goal day, both included, so never over fewer than one. */
  lemma DailyGoalDays(date: string, total: int, completed: int, today: int, parse: string -> Option<int>)
    requires date != "" && parse(date).Some?
    ensures var r := CalculateDailyGoal(Some(date), total, completed, today, parse);
            && (r == NoGoal <==> parse(date).value < today)
            && (r.PerDay? ==> r.days == parse(date).value - today + 1 >= 1)
            && (parse(date).value >= today && total - completed > 0 ==> r.PerDay?)
  {
    var day := parse(date).value;
    var target := day * MsPerDay + EndOfDayMs;
    var now := today * MsPerDay;
    var k := day - today;
    assert target - now == k * MsPerDay + EndOfDayMs;
    if day < today {
      assert k * MsPerDay <= -MsPerDay;
    } else {
      assert k * MsPerDay >= 0;
      var q := CeilDiv(target - now, MsPerDay);
      assert (q - 1) * MsPerDay < k * MsPerDay + EndOfDayMs <= q * MsPerDay;
      assert k * MsPerDay < q * MsPerDay;
      assert (q - 1) * MsPerDay < (k + 1) * MsPerDay;
      assert q == k + 1;
    }
  }

  // ---------------------------------------------------------------------------
  // Navigation

  datatype View = Volumes | Books

  /** The tracker's navigation state: the view, the selected volume key and
      the book whose chapter dialog is open. */
  datatype Nav = Nav(view: View, selectedVolume: Option<string>, selectedBook: Option<Book>)

  const InitialNav: Nav := Nav(Volumes, None, None)

  /** `handleVolumeSelect`. */
  function SelectVolume(n: Nav, volumeId: string): (r: Nav)
    ensures r.view == Books && r.selectedVolume == Some(volumeId) && r.selectedBook == n.selectedBook
  {
    n.(selectedVolume := Some(volumeId), view := Books)
  }

  /** `handleBack`: the selection is cleared, the open book is kept. */
  function Back(n: Nav): (r: Nav)
    ensures r.view == Volumes && r.selectedVolume.None? && r.selectedBook == n.selectedBook
  {
    n.(view := Volumes, selectedVolume := None)
  }

  /** `handleBookSelect`, and the chapter dialog's close button. */
  function SelectBook(n: Nav, book: Book): (r: Nav)
    ensures r.selectedBook == Some(book) && r.view == n.view && r.selectedVolume == n.selectedVolume
  {
    n.(selectedBook := Some(book))
  }

  function CloseBook(n: Nav): (r: Nav)
    ensures r.selectedBook.None? && r.view == n.view && r.selectedVolume == n.selectedVolume
  {
    n.(selectedBook := None)
  }

  /** What is on screen: the library heading and grid, a volume's book list,
      the chapter dialog. A selected key is used only when it is non-empty. */
  predicate ShowsLibrary(n: Nav) {
    n.view == Volumes
  }

  predicate ShowsBookList(n: Nav) {
    n.view == Books && n.selectedVolume.Some? && n.selectedVolume.value != ""
  }

  predicate ShowsChapterDialog(n: Nav) {
    n.selectedBook.Some? && n.selectedVolume.Some? && n.selectedVolume.value != ""
  }

  /** Selecting a volume from anywhere shows its book list and never the
      library; going back shows the library and closes any chapter dialog. */
  lemma NavigationShows(n: Nav, volumeId: string)
    requires volumeId != ""
    ensures ShowsBookList(SelectVolume(n, volumeId)) && !ShowsLibrary(SelectVolume(n, volumeId))
    ensures ShowsLibrary(Back(n)) && !ShowsBookList(Back(n)) && !ShowsChapterDialog(Back(n))
  {
  }

  /** Going back after selecting a volume returns to the library exactly as
      it was. */
  lemma BackUndoesSelect(n: Nav, volumeId: string)
    requires n.view == Volumes && n.selectedVolume.None?
    ensures Back(SelectVolume(n, volumeId)) == n
  {
  }
}
