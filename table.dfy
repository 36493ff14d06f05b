/**
 * The fortune table `jrys.json` as the program sees it after `json.loads`: a
 * JSON object whose keys keep their file order. Score keys map to lists of
 * fortune entries; `_user_last_images` maps user ids to the background each
 * user last received.
 */
module FortuneTable {
  import opened Wrappers

  /** One element of a score key's list; a field is `None` when it is absent. */
  datatype FortuneEntry =
    | Fortune(summary: Option<string>, luckyStar: Option<string>, signText: Option<string>, unsignText: Option<string>)
    | NotAnObject

  /**
   * A `_user_last_images` record. A missing, `null` or empty `path` is the
   * empty string (all three are falsy and treated alike by every reader).
   */
  datatype LastImage = LastImage(path: string, shouldCleanup: bool)

  /** A top-level value: a list of entries, an object of records, or any other JSON value. */
  datatype Value =
    | Entries(entries: seq<FortuneEntry>)
    | Records(records: map<string, LastImage>)
    | Other

  /** An insertion-ordered JSON object. */
  datatype Doc = Doc(keys: seq<string>, values: map<string, Value>)

  const LastImagesKey: string := "_user_last_images"

  const EmptyDoc: Doc := Doc([], map[])

  /** Every key is listed exactly once, in order. */
  predicate WellFormed(d: Doc) {
    && (forall i, j :: 0 <= i < j < |d.keys| ==> d.keys[i] != d.keys[j])
    && (forall k :: k in d.values ==> k in d.keys)
    && (forall i :: 0 <= i < |d.keys| ==> d.keys[i] in d.values)
  }

  /** `d[k] = v`: an existing key keeps its place, a new one goes last. */
  function Set(d: Doc, k: string, v: Value): (r: Doc)
    requires WellFormed(d)
    ensures WellFormed(r)
    ensures k in r.values && r.values[k] == v
    ensures forall k' :: k' != k ==> (k' in r.values <==> k' in d.values) && (k' in d.values ==> r.values[k'] == d.values[k'])
    ensures k in d.values ==> r.keys == d.keys
    ensures k !in d.values ==> r.keys == d.keys + [k]
  {
    Doc(if k in d.values then d.keys else d.keys + [k], d.values[k := v])
  }

  /** Setting a key twice is setting it once to the second value. */
  lemma SetTwice(d: Doc, k: string, v: Value, w: Value)
    requires WellFormed(d)
    ensures Set(Set(d, k, v), k, w) == Set(d, k, w)
  {
    assert d.values[k := v][k := w] == d.values[k := w];
  }

  lemma EmptyDocIsWellFormed()
    ensures WellFormed(EmptyDoc) && EmptyDoc.keys == []
  {
  }

  /**
   * A JSON object held by reference: the plugin and the resource manager can
   * share one, and an update through either is seen by both.
   */
  class JsonObject {
    var doc: Doc

    constructor(d: Doc)
      ensures doc == d
    {
      doc := d;
    }

    method Put(k: string, v: Value)
      requires WellFormed(doc)
      modifies this
      ensures doc == Set(old(doc), k, v)
    {
      doc := Set(doc, k, v);
    }
  }
}
