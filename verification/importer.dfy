/** Importing a saved song list: records missing any required field are
    dropped. The import fails when the list is missing or not an array,
    when it holds a `null` element, or when no record is kept. */
module Importer {
  import opened Wrappers

  /** The JSON values a record field can hold once parsed; `Missing` is a
      field that is absent (read as `undefined`). */
  datatype JsValue =
    | Missing
    | Null
    | Bool(b: bool)
    | Num(x: real)
    | Str(s: string)
    | Array(items: seq<JsValue>)
    | Object

  /** JavaScript truthiness: false, 0, "", null and undefined are falsy
      (NaN cannot come out of JSON). Arrays and objects are truthy even
      when empty. */
  predicate Truthy(v: JsValue)
  {
    match v
    case Missing => false
    case Null => false
    case Bool(b) => b
    case Num(x) => x != 0.0
    case Str(s) => |s| > 0
    case Array(_) => true
    case Object => true
  }

  /** An imported song record: the four fields the import filter checks and
      the other exported fields the model keeps. Any further field, such as
      the export date, is not represented. */
  datatype SongRecord = SongRecord(
    name: JsValue, camelotKey: JsValue, bpm: JsValue, key: JsValue,
    energy: JsValue, duration: JsValue, isManual: JsValue)

  /** The import's validity test: all four required fields truthy. */
  predicate HasRequiredFields(r: SongRecord)
  {
    Truthy(r.name) && Truthy(r.camelotKey) && Truthy(r.bpm) && Truthy(r.key)
  }

  /** `songs.filter(...)`: the records passing the test, in their order. */
  function ValidSongs(records: seq<SongRecord>): (r: seq<SongRecord>)
    ensures |r| <= |records|
    ensures forall x :: x in r <==> x in records && HasRequiredFields(x)
  {
    if |records| == 0 then []
    else (if HasRequiredFields(records[0]) then [records[0]] else []) + ValidSongs(records[1..])
  }

  /** The filter distributes over concatenation, so it keeps the surviving
      records in their original relative order. */
  lemma {:induction false} ValidSongsConcat(a: seq<SongRecord>, b: seq<SongRecord>)
    ensures ValidSongs(a + b) == ValidSongs(a) + ValidSongs(b)
    decreases |a|
  {
    if |a| == 0 {
      assert a + b == b;
    } else {
      assert (a + b)[1..] == a[1..] + b;
      ValidSongsConcat(a[1..], b);
    }
  }

  /** One element of the parsed `songs` array. A `null` element is kept
      apart because reading a field of it throws. Any other value that is
      not an object (a number, a string, an array, a boolean) reads every
      field as `undefined`, so it is an `Item` whose fields are all
      `Missing`. */
  datatype JsonItem = NullItem | Item(record: SongRecord)

  /** The records of an array without `null` elements, in order. */
  function Records(items: seq<JsonItem>): (r: seq<SongRecord>)
    requires NullItem !in items
    ensures |r| == |items| && forall i :: 0 <= i < |items| ==> items[i] == Item(r[i])
    ensures forall x :: x in r <==> Item(x) in items
  {
    var r := seq(|items|, i requires 0 <= i < |items| => if items[i].Item? then items[i].record else SongRecord(Missing, Missing, Missing, Missing, Missing, Missing, Missing));
    assert forall i :: 0 <= i < |items| ==> items[i] == Item(r[i]) by {
      forall i | 0 <= i < |items| ensures items[i] == Item(r[i]) {
        assert items[i] != NullItem;
      }
    }
    r
  }

  /** Why an import fails. `NullElement` is the field read on a `null`
      element throwing inside the filter; the handler catches it like the
      other two and the whole import is abandoned. */
  datatype ImportError = InvalidFormat | NullElement | NoValidSongs

  /** The list handling of `handleImportFile`. `songs` is the `songs` field
      of the parsed file, None when it is missing or not an array; on
      success the valid records are appended to the current list. */
  function ImportSongs(current: seq<SongRecord>, songs: Option<seq<JsonItem>>)
    : (r: Result<seq<SongRecord>, ImportError>)
    ensures songs.None? ==> r == Failure(InvalidFormat)
    ensures songs.Some? && NullItem in songs.value ==> r == Failure(NullElement)
    ensures songs.Some? && NullItem !in songs.value ==>
              (r.Failure? <==> forall x :: Item(x) in songs.value ==> !HasRequiredFields(x))
    ensures r.Failure? ==>
              || (songs.None? && r.error == InvalidFormat)
              || (songs.Some? && NullItem in songs.value && r.error == NullElement)
              || (songs.Some? && NullItem !in songs.value && r.error == NoValidSongs)
    ensures r.Success? ==>
              && songs.Some? && NullItem !in songs.value
              && r.value == current + ValidSongs(Records(songs.value))
              && |current| < |r.value|
              && r.value[..|current|] == current
              && (forall x :: x in r.value[|current|..] <==> Item(x) in songs.value && HasRequiredFields(x))
              && |r.value| <= |current| + |songs.value|
  {
    match songs
    case None => Failure(InvalidFormat)
    case Some(items) =>
      if NullItem in items then
        Failure(NullElement)
      else
        var valid := ValidSongs(Records(items));
        if |valid| == 0 then
          Failure(NoValidSongs)
        else
          assert valid[0] in Records(items) && HasRequiredFields(valid[0]);
          var r := current + valid;
          assert r[..|current|] == current && r[|current|..] == valid;
          Success(r)
  }

  /** A `null` element anywhere in the list fails the whole import, even
      when valid records surround it. */
  lemma NullFailsImport(current: seq<SongRecord>, before: seq<JsonItem>, after: seq<JsonItem>)
    ensures ImportSongs(current, Some(before + [NullItem] + after)) == Failure(NullElement)
  {
    assert (before + [NullItem] + after)[|before|] == NullItem;
  }

  /** A record whose tempo is 0 or whose name is empty is dropped, and one
      bad record beside a good one does not fail the import. */
  lemma DropsFalsyRecord(good: SongRecord, bad: SongRecord)
    requires HasRequiredFields(good)
    requires bad.bpm == Num(0.0) || bad.name == Str("")
    ensures ImportSongs([], Some([Item(bad), Item(good)])) == Success([good])
  {
    assert Records([Item(bad), Item(good)]) == [bad, good];
    assert [bad, good][1..] == [good];
    assert [good][1..] == [];
    assert ValidSongs([good]) == [good];
    assert ValidSongs([bad, good]) == [good];
  }
}
