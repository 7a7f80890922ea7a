/** Properties of the scripture table of constants.ts that the progress keys
    and the reading totals depend on. */
module TableChecks {
  import opened Types
  import opened Constants
  import opened IdCodes

  /** What the progress keys rely on: volume keys and the book ids of each
      volume are distinct and key-safe, and every book has a chapter. */
  ghost predicate WellFormed(t: seq<VolumeEntry>) {
    && DistinctIds(VolumeIds(t))
    && (forall v :: 0 <= v < |t| ==> KeySafe(t[v].id))
    && (forall v :: 0 <= v < |t| ==> BooksWellFormed(t[v].volume.books))
  }

  /** The book ids of one volume are distinct and key-safe, and every book has
      at least one chapter. */
  ghost predicate BooksWellFormed(books: seq<Book>) {
    && DistinctIds(BookIds(books))
    && (forall i :: 0 <= i < |books| ==> KeySafe(books[i].id) && books[i].chapters >= 1)
  }

  /** Every locale's table is well formed: volume keys and book ids are
      distinct, none contains `_` or equals `goalDate`, and no book is empty. */
  lemma TableWellFormed(l: Locale)
    ensures WellFormed(ScripturesData(l))
  {
    EnUsWellFormed();
    LayoutSharedByLocales(l);
    WellFormedTransfers(ScripturesData(l), EnUsScriptures);
  }

  /** The Book of Mormon, the first volume of every locale, has 239 chapters. */
  lemma BookOfMormonChapters(l: Locale)
    ensures ScripturesData(l)[0].id == "bom"
    ensures TotalChapters(ScripturesData(l)[0].volume.books) == 239
  {
    VolumeKeysInEveryLocale(l);
    BookOfMormonLayout(l);
    SameLayoutSameTotal(ScripturesData(l)[0].volume.books, EnUsBookOfMormon);
    EnUsBookOfMormonChapters();
  }

  /** Alma through Moroni: 173 chapters. */
  lemma EnUsBookOfMormonMiddleChapters()
    ensures TotalChapters(EnUsBookOfMormon[3..]) == 177
  {
    var b := EnUsBookOfMormon;
    EnUsBookOfMormonLaterChapters();
    assert b[6..][1..] == b[7..];
    assert TotalChapters(b[6..]) == 174;
    assert b[5..][1..] == b[6..];
    assert TotalChapters(b[5..]) == 175;
    assert b[4..][1..] == b[5..];
    assert TotalChapters(b[4..]) == 176;
    assert b[3..][1..] == b[4..];
  }

  lemma EnUsBookOfMormonLaterChapters()
    ensures TotalChapters(EnUsBookOfMormon[7..]) == 173
  {
    var b := EnUsBookOfMormon;
    assert b[14..][1..] == b[15..];
    assert TotalChapters(b[14..]) == 10;
    assert b[13..][1..] == b[14..];
    assert TotalChapters(b[13..]) == 25;
    assert b[12..][1..] == b[13..];
    assert TotalChapters(b[12..]) == 34;
    assert b[11..][1..] == b[12..];
    assert TotalChapters(b[11..]) == 35;
    assert b[10..][1..] == b[11..];
    assert TotalChapters(b[10..]) == 65;
    assert b[9..][1..] == b[10..];
    assert TotalChapters(b[9..]) == 81;
    assert b[8..][1..] == b[9..];
    assert TotalChapters(b[8..]) == 144;
    assert b[7..][1..] == b[8..];
    assert TotalChapters(b[7..]) == 173;
  }

  lemma EnUsBookOfMormonChapters()
    ensures TotalChapters(EnUsBookOfMormon) == 239
  {
    var b := EnUsBookOfMormon;
    EnUsBookOfMormonMiddleChapters();
    assert b[2..][1..] == b[3..];
    assert TotalChapters(b[2..]) == 184;
    assert b[1..][1..] == b[2..];
    assert TotalChapters(b[1..]) == 217;
    assert b[0..][1..] == b[1..];
    assert TotalChapters(b[0..]) == 239;
  }

  /** Tables with the same layout have the same totals. */
  lemma {:induction false} SameLayoutSameTotal(a: seq<Book>, b: seq<Book>)
    requires SameLayout(a, b)
    ensures TotalChapters(a) == TotalChapters(b)
    decreases |a|
  {
    if |a| > 0 {
      assert SameLayout(a[1..], b[1..]);
      SameLayoutSameTotal(a[1..], b[1..]);
    }
  }

  /** Well-formedness depends only on the layout, so it carries over from one
      locale to another. */
  lemma WellFormedTransfers(s: seq<VolumeEntry>, t: seq<VolumeEntry>)
    requires SameTableLayout(s, t)
    requires WellFormed(t)
    ensures WellFormed(s)
  {
    assert VolumeIds(s) == VolumeIds(t);
    forall v | 0 <= v < |s|
      ensures BooksWellFormed(s[v].volume.books)
    {
      var a, b := s[v].volume.books, t[v].volume.books;
      assert SameLayout(a, b);
      assert BookIds(a) == BookIds(b);
    }
  }

  lemma EnUsWellFormed()
    ensures WellFormed(EnUsScriptures)
  {
    EnUsVolumeKeysSafe();
    forall v | 0 <= v < |EnUsScriptures|
      ensures BooksWellFormed(EnUsScriptures[v].volume.books)
    {
      EnUsVolumeWellFormed(v);
    }
  }

  lemma EnUsVolumeKeysSafe()
    ensures DistinctIds(VolumeIds(EnUsScriptures))
    ensures forall v :: 0 <= v < |EnUsScriptures| ==> KeySafe(EnUsScriptures[v].id)
  {
    EnUsVolumeKeys();
    KeysSafeByList(EnUsScriptures);
  }

  /** A table whose volume keys are the five usual ones has distinct,
      key-safe volume keys. */
  lemma KeysSafeByList(t: seq<VolumeEntry>)
    requires VolumeIds(t) == ["bom", "dc", "pgp", "ot", "nt"]
    ensures DistinctIds(VolumeIds(t))
    ensures forall v :: 0 <= v < |t| ==> KeySafe(t[v].id)
  {
    UsualKeysSafe(VolumeIds(t));
    forall v | 0 <= v < |t|
      ensures KeySafe(t[v].id)
    {
      assert t[v].id == VolumeIds(t)[v];
    }
  }

  lemma UsualKeysSafe(ids: seq<string>)
    requires ids == ["bom", "dc", "pgp", "ot", "nt"]
    ensures DistinctIds(ids)
    ensures forall i :: 0 <= i < |ids| ==> KeySafe(ids[i])
  {
  }

  lemma EnUsVolumeWellFormed(v: int)
    requires 0 <= v < |EnUsScriptures|
    ensures BooksWellFormed(EnUsScriptures[v].volume.books)
  {
    var books := EnUsScriptures[v].volume.books;
    if v == 0 {
      assert books == EnUsBookOfMormon;
      BookOfMormonWellFormed();
    } else if v == 1 {
      assert books == EnUsDoctrineAndCovenants;
      DoctrineAndCovenantsWellFormed();
    } else if v == 2 {
      assert books == EnUsPearlOfGreatPrice;
      PearlOfGreatPriceWellFormed();
    } else if v == 3 {
      assert books == EnUsOldTestament;
      OldTestamentWellFormed();
    } else {
      assert books == EnUsNewTestament;
      NewTestamentWellFormed();
    }
  }

  // ---------------------------------------------------------------------------
  // Distinct book ids, through the numeric codes of IdCodes

  ghost predicate CodedBy(books: seq<Book>, codes: seq<int>) {
    |codes| == |books| && forall i :: 0 <= i < |books| ==> IdCode(books[i].id) == codes[i]
  }

  /** Books coded by distinct numbers, with safe ids and at least one
      chapter each, form a well-formed list. */
  lemma WellFormedByCode(books: seq<Book>, codes: seq<int>)
    requires CodedBy(books, codes) && DistinctInts(codes)
    requires forall i :: 0 <= i < |books| ==> KeySafe(books[i].id) && books[i].chapters >= 1
    ensures BooksWellFormed(books)
  {
    DistinctByCode(books, codes);
  }

  lemma DistinctByCode(books: seq<Book>, codes: seq<int>)
    requires CodedBy(books, codes) && DistinctInts(codes)
    ensures DistinctIds(BookIds(books))
  {
    forall i, j | 0 <= i < j < |books|
      ensures BookIds(books)[i] != BookIds(books)[j]
    {
      assert IdCode(books[i].id) == codes[i] && IdCode(books[j].id) == codes[j];
    }
  }

  lemma BookOfMormonWellFormed()
    ensures BooksWellFormed(EnUsBookOfMormon)
  {
    BookOfMormonCoded();
    BookOfMormonCodesDistinct();
    DistinctByCode(EnUsBookOfMormon, BookOfMormonIdCodes);
    BookOfMormonKeySafe();
  }

  lemma BookOfMormonCoded()
    ensures CodedBy(EnUsBookOfMormon, BookOfMormonIdCodes)
  {
    assert |BookOfMormonIdCodes| == |EnUsBookOfMormon|;
    assert forall i :: 0 <= i < |EnUsBookOfMormon| ==> IdCode(EnUsBookOfMormon[i].id) == BookOfMormonIdCodes[i];
  }

  lemma BookOfMormonKeySafe()
    ensures forall i :: 0 <= i < |EnUsBookOfMormon| ==> KeySafe(EnUsBookOfMormon[i].id) && EnUsBookOfMormon[i].chapters >= 1
  {
  }

  lemma DoctrineAndCovenantsWellFormed()
    ensures BooksWellFormed(EnUsDoctrineAndCovenants)
  {
    DoctrineAndCovenantsCoded();
    DoctrineAndCovenantsCodesDistinct();
    DistinctByCode(EnUsDoctrineAndCovenants, DoctrineAndCovenantsIdCodes);
    DoctrineAndCovenantsKeySafe();
  }

  lemma DoctrineAndCovenantsCoded()
    ensures CodedBy(EnUsDoctrineAndCovenants, DoctrineAndCovenantsIdCodes)
  {
    assert |DoctrineAndCovenantsIdCodes| == |EnUsDoctrineAndCovenants|;
    assert forall i :: 0 <= i < |EnUsDoctrineAndCovenants| ==> IdCode(EnUsDoctrineAndCovenants[i].id) == DoctrineAndCovenantsIdCodes[i];
  }

  lemma DoctrineAndCovenantsKeySafe()
    ensures forall i :: 0 <= i < |EnUsDoctrineAndCovenants| ==> KeySafe(EnUsDoctrineAndCovenants[i].id) && EnUsDoctrineAndCovenants[i].chapters >= 1
  {
  }

  lemma PearlOfGreatPriceWellFormed()
    ensures BooksWellFormed(EnUsPearlOfGreatPrice)
  {
    PearlOfGreatPriceCoded();
    PearlOfGreatPriceCodesDistinct();
    DistinctByCode(EnUsPearlOfGreatPrice, PearlOfGreatPriceIdCodes);
    PearlOfGreatPriceKeySafe();
  }

  lemma PearlOfGreatPriceCoded()
    ensures CodedBy(EnUsPearlOfGreatPrice, PearlOfGreatPriceIdCodes)
  {
    assert |PearlOfGreatPriceIdCodes| == |EnUsPearlOfGreatPrice|;
    assert forall i :: 0 <= i < |EnUsPearlOfGreatPrice| ==> IdCode(EnUsPearlOfGreatPrice[i].id) == PearlOfGreatPriceIdCodes[i];
  }

  lemma PearlOfGreatPriceKeySafe()
    ensures forall i :: 0 <= i < |EnUsPearlOfGreatPrice| ==> KeySafe(EnUsPearlOfGreatPrice[i].id) && EnUsPearlOfGreatPrice[i].chapters >= 1
  {
  }

  lemma OldTestamentWellFormed()
    ensures BooksWellFormed(EnUsOldTestament)
  {
    OldTestamentCoded();
    OldTestamentCodesDistinct();
    OldTestamentKeySafe();
    WellFormedByCode(EnUsOldTestament, OldTestamentIdCodes);
  }

  lemma OldTestamentCoded()
    ensures CodedBy(EnUsOldTestament, OldTestamentIdCodes)
  {
    assert |OldTestamentIdCodes| == |EnUsOldTestament|;
    OldTestamentCodedBelow20();
    OldTestamentCodedFrom20();
  }

  lemma OldTestamentCodedBelow20()
    ensures forall i :: 0 <= i < 20 ==> IdCode(EnUsOldTestament[i].id) == OldTestamentIdCodes[i]
  {
  }

  lemma OldTestamentCodedFrom20()
    ensures forall i :: 20 <= i < |EnUsOldTestament| ==> IdCode(EnUsOldTestament[i].id) == OldTestamentIdCodes[i]
  {
  }

  lemma OldTestamentKeySafe()
    ensures forall i :: 0 <= i < |EnUsOldTestament| ==> KeySafe(EnUsOldTestament[i].id) && EnUsOldTestament[i].chapters >= 1
  {
    OldTestamentKeySafeBelow20();
    OldTestamentKeySafeFrom20();
  }

  lemma OldTestamentKeySafeBelow20()
    ensures forall i :: 0 <= i < 20 ==> KeySafe(EnUsOldTestament[i].id) && EnUsOldTestament[i].chapters >= 1
  {
  }

  lemma OldTestamentKeySafeFrom20()
    ensures forall i :: 20 <= i < |EnUsOldTestament| ==> KeySafe(EnUsOldTestament[i].id) && EnUsOldTestament[i].chapters >= 1
  {
  }

  lemma NewTestamentWellFormed()
    ensures BooksWellFormed(EnUsNewTestament)
  {
    NewTestamentCoded();
    NewTestamentCodesDistinct();
    NewTestamentKeySafe();
    WellFormedByCode(EnUsNewTestament, NewTestamentIdCodes);
  }

  lemma NewTestamentCoded()
    ensures CodedBy(EnUsNewTestament, NewTestamentIdCodes)
  {
    assert |NewTestamentIdCodes| == |EnUsNewTestament|;
    NewTestamentCodedBelow14();
    NewTestamentCodedFrom14();
  }

  lemma NewTestamentCodedBelow14()
    ensures forall i :: 0 <= i < 14 ==> IdCode(EnUsNewTestament[i].id) == NewTestamentIdCodes[i]
  {
  }

  lemma NewTestamentCodedFrom14()
    ensures forall i :: 14 <= i < |EnUsNewTestament| ==> IdCode(EnUsNewTestament[i].id) == NewTestamentIdCodes[i]
  {
  }

  lemma NewTestamentKeySafe()
    ensures forall i :: 0 <= i < |EnUsNewTestament| ==> KeySafe(EnUsNewTestament[i].id) && EnUsNewTestament[i].chapters >= 1
  {
  }
}
