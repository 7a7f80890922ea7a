/** The static scripture table (constants.ts): for each locale the five
    volumes with their books and chapter counts, and the lookup with its en-US
    fallback. Only the display names differ between locales; the ids and the
    chapter counts, from which progress keys and totals are made, are the same
    in all three. */
module Constants {
  import opened Types

  /** The pt-BR table (lines 4-54 of constants.ts). */
  const PtBrScriptures: seq<VolumeEntry> := [
    VolumeEntry("bom", Volume("O Livro de Mórmon", PtBrBookOfMormon)),
    VolumeEntry("dc", Volume("Doutrina e Convênios", PtBrDoctrineAndCovenants)),
    VolumeEntry("pgp", Volume("Pérola de Grande Valor", PtBrPearlOfGreatPrice)),
    VolumeEntry("ot", Volume("O Velho Testamento", PtBrOldTestament)),
    VolumeEntry("nt", Volume("O Novo Testamento", PtBrNewTestament))
  ]

  const PtBrBookOfMormon: seq<Book> := [
    Book("1-ne", "1 Néfi", 22),
    Book("2-ne", "2 Néfi", 33),
    Book("jacob", "Jacó", 7),
    Book("enos", "Enos", 1),
    Book("jarom", "Jarom", 1),
    Book("omni", "Ômni", 1),
    Book("wom", "Palavras de Mórmon", 1),
    Book("mosiah", "Mosias", 29),
    Book("alma", "Alma", 63),
    Book("helaman", "Helamã", 16),
    Book("3-ne", "3 Néfi", 30),
    Book("4-ne", "4 Néfi", 1),
    Book("mormon", "Mórmon", 9),
    Book("ether", "Éter", 15),
    Book("moroni", "Morôni", 10)]

  const PtBrDoctrineAndCovenants: seq<Book> := [
    Book("dc", "Seções", 138),
    Book("od", "Declarações Oficiais", 2)]

  const PtBrPearlOfGreatPrice: seq<Book> := [
    Book("moses", "Moisés", 8),
    Book("abraham", "Abraão", 5),
    Book("js-m", "Joseph Smith—Mateus", 1),
    Book("js-h", "Joseph Smith—História", 1),
    Book("aof", "Regras de Fé", 1)]

  const PtBrOldTestament: seq<Book> := [
    Book("gen", "Gênesis", 50),
    Book("ex", "Êxodo", 40),
    Book("lev", "Levítico", 27),
    Book("num", "Números", 36),
    Book("deut", "Deuteronômio", 34),
    Book("josh", "Josué", 24),
    Book("judg", "Juízes", 21),
    Book("ruth", "Rute", 4),
    Book("1-sam", "1 Samuel", 31),
    Book("2-sam", "2 Samuel", 24),
    Book("1-kgs", "1 Reis", 22),
    Book("2-kgs", "2 Reis", 25),
    Book("1-chr", "1 Crônicas", 29),
    Book("2-chr", "2 Crônicas", 36),
    Book("ezra", "Esdras", 10),
    Book("neh", "Neemias", 13),
    Book("esth", "Ester", 10),
    Book("job", "Jó", 42),
    Book("ps", "Salmos", 150),
    Book("prov", "Provérbios", 31),
    Book("eccl", "Eclesiastes", 12),
    Book("song", "Cantares de Salomão", 8),
    Book("isa", "Isaías", 66),
    Book("jer", "Jeremias", 52),
    Book("lam", "Lamentações", 5),
    Book("ezek", "Ezequiel", 48),
    Book("dan", "Daniel", 12),
    Book("hosea", "Oseias", 14),
    Book("joel", "Joel", 3),
    Book("amos", "Amós", 9),
    Book("obad", "Obadias", 1),
    Book("jonah", "Jonas", 4),
    Book("micah", "Miqueias", 7),
    Book("nahum", "Naum", 3),
    Book("hab", "Habacuque", 3),
    Book("zeph", "Sofonias", 3),
    Book("hag", "Ageu", 2),
    Book("zech", "Zacarias", 14),
    Book("mal", "Malaquias", 4)]

  const PtBrNewTestament: seq<Book> := [
    Book("matt", "Mateus", 28),
    Book("mark", "Marcos", 16),
    Book("luke", "Lucas", 24),
    Book("john", "João", 21),
    Book("acts", "Atos", 28),
    Book("rom", "Romanos", 16),
    Book("1-cor", "1 Coríntios", 16),
    Book("2-cor", "2 Coríntios", 13),
    Book("gal", "Gálatas", 6),
    Book("eph", "Efésios", 6),
    Book("philip", "Filipenses", 4),
    Book("col", "Colossenses", 4),
    Book("1-thes", "1 Tessalonicenses", 5),
    Book("2-thes", "2 Tessalonicenses", 3),
    Book("1-tim", "1 Timóteo", 6),
    Book("2-tim", "2 Timóteo", 4),
    Book("titus", "Tito", 3),
    Book("philem", "Filemom", 1),
    Book("heb", "Hebreus", 13),
    Book("james", "Tiago", 5),
    Book("1-pet", "1 Pedro", 5),
    Book("2-pet", "2 Pedro", 3),
    Book("1-john", "1 João", 5),
    Book("2-john", "2 João", 1),
    Book("3-john", "3 João", 1),
    Book("jude", "Judas", 1),
    Book("rev", "Apocalipse", 22)]

  /** The en-US table (lines 55-86 of constants.ts). */
  const EnUsScriptures: seq<VolumeEntry> := [
    VolumeEntry("bom", Volume("The Book of Mormon", EnUsBookOfMormon)),
    VolumeEntry("dc", Volume("Doctrine and Covenants", EnUsDoctrineAndCovenants)),
    VolumeEntry("pgp", Volume("Pearl of Great Price", EnUsPearlOfGreatPrice)),
    VolumeEntry("ot", Volume("Old Testament", EnUsOldTestament)),
    VolumeEntry("nt", Volume("New Testament", EnUsNewTestament))
  ]

  const EnUsBookOfMormon: seq<Book> := [
    Book("1-ne", "1 Nephi", 22),
    Book("2-ne", "2 Nephi", 33),
    Book("jacob", "Jacob", 7),
    Book("enos", "Enos", 1),
    Book("jarom", "Jarom", 1),
    Book("omni", "Omni", 1),
    Book("wom", "Words of Mormon", 1),
    Book("mosiah", "Mosiah", 29),
    Book("alma", "Alma", 63),
    Book("helaman", "Helaman", 16),
    Book("3-ne", "3 Nephi", 30),
    Book("4-ne", "4 Nephi", 1),
    Book("mormon", "Mormon", 9),
    Book("ether", "Ether", 15),
    Book("moroni", "Moroni", 10)]

  const EnUsDoctrineAndCovenants: seq<Book> := [
    Book("dc", "Sections", 138),
    Book("od", "Official Declarations", 2)]

  const EnUsPearlOfGreatPrice: seq<Book> := [
    Book("moses", "Moses", 8),
    Book("abraham", "Abraham", 5),
    Book("js-m", "Joseph Smith—Matthew", 1),
    Book("js-h", "Joseph Smith—History", 1),
    Book("aof", "Articles of Faith", 1)]

  const EnUsOldTestament: seq<Book> := [
    Book("gen", "Genesis", 50),
    Book("ex", "Exodus", 40),
    Book("lev", "Leviticus", 27),
    Book("num", "Numbers", 36),
    Book("deut", "Deuteronomy", 34),
    Book("josh", "Joshua", 24),
    Book("judg", "Judges", 21),
    Book("ruth", "Ruth", 4),
    Book("1-sam", "1 Samuel", 31),
    Book("2-sam", "2 Samuel", 24),
    Book("1-kgs", "1 Kings", 22),
    Book("2-kgs", "2 Kings", 25),
    Book("1-chr", "1 Chronicles", 29),
    Book("2-chr", "2 Chronicles", 36),
    Book("ezra", "Ezra", 10),
    Book("neh", "Nehemiah", 13),
    Book("esth", "Esther", 10),
    Book("job", "Job", 42),
    Book("ps", "Psalms", 150),
    Book("prov", "Proverbs", 31),
    Book("eccl", "Ecclesiastes", 12),
    Book("song", "Song of Solomon", 8),
    Book("isa", "Isaiah", 66),
    Book("jer", "Jeremiah", 52),
    Book("lam", "Lamentations", 5),
    Book("ezek", "Ezekiel", 48),
    Book("dan", "Daniel", 12),
    Book("hosea", "Hosea", 14),
    Book("joel", "Joel", 3),
    Book("amos", "Amos", 9),
    Book("obad", "Obadiah", 1),
    Book("jonah", "Jonah", 4),
    Book("micah", "Micah", 7),
    Book("nahum", "Nahum", 3),
    Book("hab", "Habakkuk", 3),
    Book("zeph", "Zephaniah", 3),
    Book("hag", "Haggai", 2),
    Book("zech", "Zechariah", 14),
    Book("mal", "Malachi", 4)]

  const EnUsNewTestament: seq<Book> := [
    Book("matt", "Matthew", 28),
    Book("mark", "Mark", 16),
    Book("luke", "Luke", 24),
    Book("john", "John", 21),
    Book("acts", "Acts", 28),
    Book("rom", "Romans", 16),
    Book("1-cor", "1 Corinthians", 16),
    Book("2-cor", "2 Corinthians", 13),
    Book("gal", "Galatians", 6),
    Book("eph", "Ephesians", 6),
    Book("philip", "Philippians", 4),
    Book("col", "Colossians", 4),
    Book("1-thes", "1 Thessalonians", 5),
    Book("2-thes", "2 Thessalonians", 3),
    Book("1-tim", "1 Timothy", 6),
    Book("2-tim", "2 Timothy", 4),
    Book("titus", "Titus", 3),
    Book("philem", "Philemon", 1),
    Book("heb", "Hebrews", 13),
    Book("james", "James", 5),
    Book("1-pet", "1 Peter", 5),
    Book("2-pet", "2 Peter", 3),
    Book("1-john", "1 John", 5),
    Book("2-john", "2 John", 1),
    Book("3-john", "3 John", 1),
    Book("jude", "Jude", 1),
    Book("rev", "Revelation", 22)]

  /** The es-ES table (lines 87-118 of constants.ts). */
  const EsEsScriptures: seq<VolumeEntry> := [
    VolumeEntry("bom", Volume("El Libro de Mormón", EsEsBookOfMormon)),
    VolumeEntry("dc", Volume("Doctrina y Convenios", EsEsDoctrineAndCovenants)),
    VolumeEntry("pgp", Volume("Perla de Gran Precio", EsEsPearlOfGreatPrice)),
    VolumeEntry("ot", Volume("Antiguo Testamento", EsEsOldTestament)),
    VolumeEntry("nt", Volume("Nuevo Testamento", EsEsNewTestament))
  ]

  const EsEsBookOfMormon: seq<Book> := [
    Book("1-ne", "1 Nefi", 22),
    Book("2-ne", "2 Nefi", 33),
    Book("jacob", "Jacob", 7),
    Book("enos", "Enós", 1),
    Book("jarom", "Jarom", 1),
    Book("omni", "Omni", 1),
    Book("wom", "Palabras de Mormón", 1),
    Book("mosiah", "Mosíah", 29),
    Book("alma", "Alma", 63),
    Book("helaman", "Helamán", 16),
    Book("3-ne", "3 Nefi", 30),
    Book("4-ne", "4 Nefi", 1),
    Book("mormon", "Mormón", 9),
    Book("ether", "Éter", 15),
    Book("moroni", "Moroni", 10)]

  const EsEsDoctrineAndCovenants: seq<Book> := [
    Book("dc", "Secciones", 138),
    Book("od", "Declaraciones Oficiales", 2)]

  const EsEsPearlOfGreatPrice: seq<Book> := [
    Book("moses", "Moisés", 8),
    Book("abraham", "Abraham", 5),
    Book("js-m", "José Smith—Mateo", 1),
    Book("js-h", "José Smith—Historia", 1),
    Book("aof", "Artículos de Fe", 1)]

  const EsEsOldTestament: seq<Book> := [
    Book("gen", "Génesis", 50),
    Book("ex", "Éxodo", 40),
    Book("lev", "Levítico", 27),
    Book("num", "Números", 36),
    Book("deut", "Deuteronomio", 34),
    Book("josh", "Josué", 24),
    Book("judg", "Jueces", 21),
    Book("ruth", "Rut", 4),
    Book("1-sam", "1 Samuel", 31),
    Book("2-sam", "2 Samuel", 24),
    Book("1-kgs", "1 Reyes", 22),
    Book("2-kgs", "2 Reyes", 25),
    Book("1-chr", "1 Crónicas", 29),
    Book("2-chr", "2 Crónicas", 36),
    Book("ezra", "Esdras", 10),
    Book("neh", "Nehemías", 13),
    Book("esth", "Ester", 10),
    Book("job", "Job", 42),
    Book("ps", "Salmos", 150),
    Book("prov", "Proverbios", 31),
    Book("eccl", "Eclesiastés", 12),
    Book("song", "El Cantar de los Cantares", 8),
    Book("isa", "Isaías", 66),
    Book("jer", "Jeremías", 52),
    Book("lam", "Lamentaciones", 5),
    Book("ezek", "Ezequiel", 48),
    Book("dan", "Daniel", 12),
    Book("hosea", "Oseas", 14),
    Book("joel", "Joel", 3),
    Book("amos", "Amós", 9),
    Book("obad", "Abdías", 1),
    Book("jonah", "Jonás", 4),
    Book("micah", "Miqueas", 7),
    Book("nahum", "Nahúm", 3),
    Book("hab", "Habacuc", 3),
    Book("zeph", "Sofonías", 3),
    Book("hag", "Hageo", 2),
    Book("zech", "Zacarías", 14),
    Book("mal", "Malaquías", 4)]

  const EsEsNewTestament: seq<Book> := [
    Book("matt", "Mateo", 28),
    Book("mark", "Marcos", 16),
    Book("luke", "Lucas", 24),
    Book("john", "Juan", 21),
    Book("acts", "Hechos", 28),
    Book("rom", "Romanos", 16),
    Book("1-cor", "1 Corintios", 16),
    Book("2-cor", "2 Corintios", 13),
    Book("gal", "Gálatas", 6),
    Book("eph", "Efesios", 6),
    Book("philip", "Filipenses", 4),
    Book("col", "Colosenses", 4),
    Book("1-thes", "1 Tesalonicenses", 5),
    Book("2-thes", "2 Tesalonicenses", 3),
    Book("1-tim", "1 Timoteo", 6),
    Book("2-tim", "2 Timoteo", 4),
    Book("titus", "Tito", 3),
    Book("philem", "Filemón", 1),
    Book("heb", "Hebreos", 13),
    Book("james", "Santiago", 5),
    Book("1-pet", "1 Pedro", 5),
    Book("2-pet", "2 Pedro", 3),
    Book("1-john", "1 Juan", 5),
    Book("2-john", "2 Juan", 1),
    Book("3-john", "3 Juan", 1),
    Book("jude", "Judas", 1),
    Book("rev", "Apocalipsis", 22)]

  /** `scripturesData[lang]` for a supported locale. */
  function ScripturesData(l: Locale): seq<VolumeEntry> {
    match l
    case PtBR => PtBrScriptures
    case EnUS => EnUsScriptures
    case EsES => EsEsScriptures
  }

  /** `getScriptures(lang)`: the table of the locale, or the en-US table for a
      language tag that is not in the table. */
  function GetScriptures(lang: string): (r: seq<VolumeEntry>)
    ensures lang !in {"pt-BR", "en-US", "es-ES"} ==> r == EnUsScriptures
    ensures forall l: Locale :: lang == LocaleKey(l) ==> r == ScripturesData(l)
  {
    ScripturesData(Resolve(lang))
  }

  /** `scriptures[volumeId]`: the first volume stored under that key. */
  function FindVolume(t: seq<VolumeEntry>, volumeId: string): (r: Option<Volume>)
    ensures r.Some? <==> volumeId in VolumeIds(t)
    ensures r.Some? ==> exists v :: 0 <= v < |t| && t[v].id == volumeId && t[v].volume == r.value
  {
    if |t| == 0 then None
    else if t[0].id == volumeId then Some(t[0].volume)
    else FindVolume(t[1..], volumeId)
  }

  // ---------------------------------------------------------------------------
  // Shape of a table

  /** The keys of a table, in table order (`Object.keys(scriptures)`). */
  function VolumeIds(t: seq<VolumeEntry>): (r: seq<string>)
    ensures |r| == |t|
    ensures forall v :: 0 <= v < |t| ==> r[v] == t[v].id
  {
    if |t| == 0 then [] else [t[0].id] + VolumeIds(t[1..])
  }

  function BookIds(books: seq<Book>): (r: seq<string>)
    ensures |r| == |books|
    ensures forall i :: 0 <= i < |books| ==> r[i] == books[i].id
  {
    if |books| == 0 then [] else [books[0].id] + BookIds(books[1..])
  }

  /** Sum of the chapter counts of a list of books. */
  function TotalChapters(books: seq<Book>): nat {
    if |books| == 0 then 0 else books[0].chapters + TotalChapters(books[1..])
  }

  /** Two lists of books agree on everything but the display names. */
  ghost predicate SameLayout(a: seq<Book>, b: seq<Book>) {
    |a| == |b| && forall i :: 0 <= i < |a| ==> a[i].id == b[i].id && a[i].chapters == b[i].chapters
  }

  /** Rows `lo` to `hi - 1` of two lists of books agree on ids and chapter
      counts. */
  ghost predicate SameRows(a: seq<Book>, b: seq<Book>, lo: nat, hi: nat) {
    forall i :: lo <= i < hi && i < |a| && i < |b| ==> a[i].id == b[i].id && a[i].chapters == b[i].chapters
  }

  /** Two tables agree on everything but the display names. */
  ghost predicate SameTableLayout(s: seq<VolumeEntry>, t: seq<VolumeEntry>) {
    |s| == |t| && forall v :: 0 <= v < |s| ==> s[v].id == t[v].id && SameLayout(s[v].volume.books, t[v].volume.books)
  }

  /** An id that can stand on either side of the `_` of a progress key. */
  predicate KeySafe(id: string) {
    '_' !in id && id != "goalDate"
  }

  ghost predicate DistinctIds(ids: seq<string>) {
    forall i, j :: 0 <= i < j < |ids| ==> ids[i] != ids[j]
  }

  // ---------------------------------------------------------------------------
  // Properties of the table

  /** Every locale lists the same five volume keys in the same order. */
  lemma VolumeKeysInEveryLocale(l: Locale)
    ensures VolumeIds(ScripturesData(l)) == ["bom", "dc", "pgp", "ot", "nt"]
  {
    match l
    case PtBR => PtBrVolumeKeys();
    case EnUS => EnUsVolumeKeys();
    case EsES => EsEsVolumeKeys();
  }

  lemma PtBrVolumeKeys()
    ensures VolumeIds(PtBrScriptures) == ["bom", "dc", "pgp", "ot", "nt"]
  {
  }

  lemma EnUsVolumeKeys()
    ensures VolumeIds(EnUsScriptures) == ["bom", "dc", "pgp", "ot", "nt"]
  {
  }

  lemma EsEsVolumeKeys()
    ensures VolumeIds(EsEsScriptures) == ["bom", "dc", "pgp", "ot", "nt"]
  {
  }

  /** Per volume, the pt-BR and es-ES tables have the en-US ids and chapter
      counts in the en-US order; only the names differ. */
  lemma LayoutSharedByLocales(l: Locale)
    ensures SameTableLayout(ScripturesData(l), EnUsScriptures)
  {
    BookOfMormonLayout(l);
    DoctrineAndCovenantsLayout(l);
    PearlOfGreatPriceLayout(l);
    OldTestamentLayout(l);
    NewTestamentLayout(l);
  }

  lemma BookOfMormonLayout(l: Locale)
    ensures SameLayout(ScripturesData(l)[0].volume.books, EnUsBookOfMormon)
  {
    match l
    case PtBR => PtBrBookOfMormonLayout();
    case EnUS =>
    case EsES => EsEsBookOfMormonLayout();
  }

  lemma PtBrBookOfMormonLayout()
    ensures SameLayout(PtBrBookOfMormon, EnUsBookOfMormon)
  {
  }

  lemma EsEsBookOfMormonLayout()
    ensures SameLayout(EsEsBookOfMormon, EnUsBookOfMormon)
  {
  }

  lemma DoctrineAndCovenantsLayout(l: Locale)
    ensures SameLayout(ScripturesData(l)[1].volume.books, EnUsDoctrineAndCovenants)
  {
    match l
    case PtBR => assert SameLayout(PtBrDoctrineAndCovenants, EnUsDoctrineAndCovenants);
    case EnUS =>
    case EsES => assert SameLayout(EsEsDoctrineAndCovenants, EnUsDoctrineAndCovenants);
  }

  lemma PearlOfGreatPriceLayout(l: Locale)
    ensures SameLayout(ScripturesData(l)[2].volume.books, EnUsPearlOfGreatPrice)
  {
    match l
    case PtBR => assert SameLayout(PtBrPearlOfGreatPrice, EnUsPearlOfGreatPrice);
    case EnUS =>
    case EsES => assert SameLayout(EsEsPearlOfGreatPrice, EnUsPearlOfGreatPrice);
  }

  lemma OldTestamentLayout(l: Locale)
    ensures SameLayout(ScripturesData(l)[3].volume.books, EnUsOldTestament)
  {
    match l
    case PtBR => PtBrOldTestamentLayout();
    case EnUS =>
    case EsES => EsEsOldTestamentLayout();
  }

  lemma PtBrOldTestamentLayout()
    ensures SameLayout(PtBrOldTestament, EnUsOldTestament)
  {
    PtBrOldTestamentRows0();
    PtBrOldTestamentRows13();
    PtBrOldTestamentRows26();
  }

  lemma PtBrOldTestamentRows0()
    ensures SameRows(PtBrOldTestament, EnUsOldTestament, 0, 13)
  {
  }

  lemma PtBrOldTestamentRows13()
    ensures SameRows(PtBrOldTestament, EnUsOldTestament, 13, 26)
  {
  }

  lemma PtBrOldTestamentRows26()
    ensures SameRows(PtBrOldTestament, EnUsOldTestament, 26, 39)
  {
  }

  lemma EsEsOldTestamentLayout()
    ensures SameLayout(EsEsOldTestament, EnUsOldTestament)
  {
    EsEsOldTestamentRows0();
    EsEsOldTestamentRows13();
    EsEsOldTestamentRows26();
  }

  lemma EsEsOldTestamentRows0()
    ensures SameRows(EsEsOldTestament, EnUsOldTestament, 0, 13)
  {
  }

  lemma EsEsOldTestamentRows13()
    ensures SameRows(EsEsOldTestament, EnUsOldTestament, 13, 26)
  {
  }

  lemma EsEsOldTestamentRows26()
    ensures SameRows(EsEsOldTestament, EnUsOldTestament, 26, 39)
  {
  }

  lemma NewTestamentLayout(l: Locale)
    ensures SameLayout(ScripturesData(l)[4].volume.books, EnUsNewTestament)
  {
    match l
    case PtBR => PtBrNewTestamentLayout();
    case EnUS =>
    case EsES => EsEsNewTestamentLayout();
  }

  lemma PtBrNewTestamentLayout()
    ensures SameLayout(PtBrNewTestament, EnUsNewTestament)
  {
    PtBrNewTestamentRows0();
    PtBrNewTestamentRows14();
  }

  lemma PtBrNewTestamentRows0()
    ensures SameRows(PtBrNewTestament, EnUsNewTestament, 0, 14)
  {
  }

  lemma PtBrNewTestamentRows14()
    ensures SameRows(PtBrNewTestament, EnUsNewTestament, 14, 27)
  {
  }

  lemma EsEsNewTestamentLayout()
    ensures SameLayout(EsEsNewTestament, EnUsNewTestament)
  {
    EsEsNewTestamentRows0();
    EsEsNewTestamentRows14();
  }

  lemma EsEsNewTestamentRows0()
    ensures SameRows(EsEsNewTestament, EnUsNewTestament, 0, 14)
  {
  }

  lemma EsEsNewTestamentRows14()
    ensures SameRows(EsEsNewTestament, EnUsNewTestament, 14, 27)
  {
  }

}
