/** The records shared by the components: one ad-copy variation, the page's
    loading state, and the browser `File` the user picks. */
module AdTypes {
  import opened Wrappers

  /** One generated variation, with the five string fields of the response. */
  datatype AdCopy = AdCopy(
    tone: string,
    headline: string,
    primaryTextParagraph: string,
    primaryTextBullets: string,
    description: string)

  /** Progress of the one generation the page runs at a time. */
  datatype LoadingState = Idle | Analyzing | Success | Error

  /** A browser `File`, reduced to its MIME type (`file.type`, possibly
      empty), the one property the code reads, and a name standing for the
      file's identity. The bytes are reached only through
      the reader, whose result is a parameter wherever it matters. */
  datatype File = File(name: string, mimeType: string)

  /** The JSON names of the fields of `AdCopy`, in declaration order. */
  const FieldNames: seq<string> :=
    ["tone", "headline", "primaryTextParagraph", "primaryTextBullets", "description"]

  /** The field of `ad` a JSON name refers to; `None` for a name that is not a field. */
  function FieldValue(ad: AdCopy, name: string): (v: Option<string>)
    ensures v.Some? <==> name in FieldNames
  {
    if name == "tone" then Some(ad.tone)
    else if name == "headline" then Some(ad.headline)
    else if name == "primaryTextParagraph" then Some(ad.primaryTextParagraph)
    else if name == "primaryTextBullets" then Some(ad.primaryTextBullets)
    else if name == "description" then Some(ad.description)
    else None
  }

  /** The five field names cover the whole record: two variations that agree
      on every named field are the same variation. */
  lemma FieldNamesDetermineRecord(a: AdCopy, b: AdCopy)
    requires forall n :: n in FieldNames ==> FieldValue(a, n) == FieldValue(b, n)
    ensures a == b
  {
    assert FieldValue(a, FieldNames[0]) == FieldValue(b, FieldNames[0]);
    assert FieldValue(a, FieldNames[1]) == FieldValue(b, FieldNames[1]);
    assert FieldValue(a, FieldNames[2]) == FieldValue(b, FieldNames[2]);
    assert FieldValue(a, FieldNames[3]) == FieldValue(b, FieldNames[3]);
    assert FieldValue(a, FieldNames[4]) == FieldValue(b, FieldNames[4]);
  }
}
