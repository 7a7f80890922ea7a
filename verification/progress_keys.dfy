/** The keys of the progress map. A book's chapter marks live under
    `volumeId_bookId`, a volume's goal date under `volumeId_goalDate`, and
    legacy notes under `volumeId_bookId_notes`. */
module ProgressKeys {
  import opened Types
  import opened Constants
  import opened TableChecks

  /** The progress key of one book (ChapterModal.tsx line 16). */
  function BookKey(volumeId: string, bookId: string): (r: string)
    ensures |r| == |volumeId| + 1 + |bookId|
    ensures r[..|volumeId|] == volumeId && r[|volumeId|] == '_' && r[|volumeId| + 1..] == bookId
  {
    volumeId + "_" + bookId
  }

  /** The key of a volume's goal date. It has the shape of a book key whose
      book id is `goalDate`. */
  function GoalKey(volumeId: string): (r: string)
    ensures r == BookKey(volumeId, "goalDate")
  {
    volumeId + "_goalDate"
  }

  /** The legacy notes key that is deleted whenever a book's marks are saved. */
  function NotesKey(progressKey: string): (r: string)
    ensures |r| == |progressKey| + 6
    ensures r[..|progressKey|] == progressKey && r[|progressKey|..] == "_notes"
  {
    progressKey + "_notes"
  }

  /** A volume id without `_` can be read back from any key built from it:
      two such keys are equal only when both parts are. */
  lemma BookKeyInjective(v1: string, b1: string, v2: string, b2: string)
    requires '_' !in v1 && '_' !in v2
    ensures BookKey(v1, b1) == BookKey(v2, b2) <==> v1 == v2 && b1 == b2
  {
    var k1, k2 := BookKey(v1, b1), BookKey(v2, b2);
    if k1 == k2 {
      assert |v1| == |v2|;
      assert v1 == k1[..|v1|] == k2[..|v2|] == v2;
      assert b1 == k1[|v1| + 1..] == k2[|v2| + 1..] == b2;
    }
  }

  /** A notes key is the book key of the book id extended by `_notes`. */
  lemma NotesKeyOfBookKey(v: string, b: string)
    ensures NotesKey(BookKey(v, b)) == BookKey(v, b + "_notes")
  {
  }

  /** A book whose id is key-safe never shares its key with a goal date. */
  lemma BookKeyNotGoalKey(v1: string, b: string, v2: string)
    requires KeySafe(v1) && KeySafe(v2) && KeySafe(b)
    ensures BookKey(v1, b) != GoalKey(v2)
  {
    BookKeyInjective(v1, b, v2, "goalDate");
  }

  /** A book whose id has no `_` never shares its key with a notes key. */
  lemma BookKeyNotNotesKey(v1: string, b1: string, v2: string, b2: string)
    requires '_' !in v1 && '_' !in v2 && '_' !in b1
    ensures BookKey(v1, b1) != NotesKey(BookKey(v2, b2))
  {
    NotesKeyOfBookKey(v2, b2);
    BookKeyInjective(v1, b1, v2, b2 + "_notes");
    var suffix := b2 + "_notes";
    assert suffix[|b2|] == '_';
  }

  /** A goal key never equals a notes key. */
  lemma GoalKeyNotNotesKey(v1: string, v2: string, b2: string)
    requires KeySafe(v1) && KeySafe(v2)
    ensures GoalKey(v1) != NotesKey(BookKey(v2, b2))
  {
    BookKeyNotNotesKey(v1, "goalDate", v2, b2);
  }

  /** In a well-formed table, two different books (by position) have
      different progress keys, and no book key collides with a goal or notes
      key. */
  lemma KeysCollisionFree(t: seq<VolumeEntry>, v1: nat, i1: nat, v2: nat, i2: nat)
    requires WellFormed(t)
    requires v1 < |t| && v2 < |t|
    requires i1 < |t[v1].volume.books| && i2 < |t[v2].volume.books|
    ensures var k1 := BookKey(t[v1].id, t[v1].volume.books[i1].id);
            var k2 := BookKey(t[v2].id, t[v2].volume.books[i2].id);
            && (k1 == k2 <==> v1 == v2 && i1 == i2)
            && (forall w :: 0 <= w < |t| ==> k1 != GoalKey(t[w].id))
            && (forall w, b :: 0 <= w < |t| ==> k1 != NotesKey(BookKey(t[w].id, b)))
  {
    var a1, a2 := t[v1].id, t[v2].id;
    var c1, c2 := t[v1].volume.books[i1].id, t[v2].volume.books[i2].id;
    assert KeySafe(a1) && KeySafe(a2);
    assert KeySafe(c1) && KeySafe(c2) by {
      assert BooksWellFormed(t[v1].volume.books) && BooksWellFormed(t[v2].volume.books);
    }
    BookKeyInjective(a1, c1, a2, c2);
    if a1 == a2 && c1 == c2 {
      assert VolumeIds(t)[v1] == VolumeIds(t)[v2];
      assert v1 == v2;
      assert BookIds(t[v1].volume.books)[i1] == BookIds(t[v1].volume.books)[i2];
    }
    forall w | 0 <= w < |t|
      ensures BookKey(a1, c1) != GoalKey(t[w].id)
    {
      BookKeyNotGoalKey(a1, c1, t[w].id);
    }
    forall w, b | 0 <= w < |t|
      ensures BookKey(a1, c1) != NotesKey(BookKey(t[w].id, b))
    {
      BookKeyNotNotesKey(a1, c1, t[w].id, b);
    }
  }

  /** Every locale's table gives collision-free progress keys. */
  lemma TableKeysCollisionFree(l: Locale, v1: nat, i1: nat, v2: nat, i2: nat)
    requires v1 < |ScripturesData(l)| && v2 < |ScripturesData(l)|
    requires i1 < |ScripturesData(l)[v1].volume.books| && i2 < |ScripturesData(l)[v2].volume.books|
    ensures var t := ScripturesData(l);
            var k1 := BookKey(t[v1].id, t[v1].volume.books[i1].id);
            var k2 := BookKey(t[v2].id, t[v2].volume.books[i2].id);
            && (k1 == k2 <==> v1 == v2 && i1 == i2)
            && (forall w :: 0 <= w < |t| ==> k1 != GoalKey(t[w].id))
            && (forall w, b :: 0 <= w < |t| ==> k1 != NotesKey(BookKey(t[w].id, b)))
  {
    TableWellFormed(l);
    KeysCollisionFree(ScripturesData(l), v1, i1, v2, i2);
  }
}
