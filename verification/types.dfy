/** The record shapes of the application: locales, the scripture table's
    books and volumes, the reading-progress map, the generator form and the
    uploaded file. */
module Types {

  datatype Option<+T> = None | Some(value: T)

  /** The three supported languages (`Language` in the application). */
  datatype Locale = PtBR | EnUS | EsES

  /** The language tag a locale is stored under. */
  function LocaleKey(l: Locale): string {
    match l
    case PtBR => "pt-BR"
    case EnUS => "en-US"
    case EsES => "es-ES"
  }

  /** Lookup of a language tag in a table keyed by locale, falling back to
      en-US when the tag is not one of the three (`table[lang] || table['en-US']`).
      Tags naming inherited `Object.prototype` members are not modelled. */
  function Resolve(key: string): (l: Locale)
    ensures LocaleKey(l) == key || (l == EnUS && key !in {"pt-BR", "en-US", "es-ES"})
  {
    if key == "pt-BR" then PtBR
    else if key == "es-ES" then EsES
    else EnUS
  }

  /** Every locale is found again from its own tag, and an unknown tag lands
      on en-US. */
  lemma ResolveLocaleKey(l: Locale, other: string)
    ensures Resolve(LocaleKey(l)) == l
    ensures other !in {"pt-BR", "en-US", "es-ES"} ==> Resolve(other) == EnUS
  {
  }

  /** One book of a volume; `chapters` is never negative in the table. */
  datatype Book = Book(id: string, name: string, chapters: nat)

  datatype Volume = Volume(name: string, books: seq<Book>)

  /** One key of the scripture table with its volume, in table order. */
  datatype VolumeEntry = VolumeEntry(id: string, volume: Volume)

  /** A value stored in the progress map: a chapter array under a book key,
      or a string (a goal date, or notes left by older versions). */
  datatype Entry = Chapters(marks: seq<bool>) | Text(value: string)

  type Progress = map<string, Entry>

  datatype UploadedFile = UploadedFile(name: string, base64Data: string, mimeType: string)

  /** The generator form (`GeneratorOptions`). */
  datatype GeneratorOptions = GeneratorOptions(
    theme: string,
    contextText: string,
    time: string,
    audience: string,
    generationMode: string,
    sources: seq<string>,
    uploadedFile: Option<UploadedFile>)
}
