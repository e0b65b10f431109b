/** JSON values as the reader builds them: the fields of an object keep the order of their text. */
module JsonValues {

  datatype Json =
    | JNull
    | JBool(truth: bool)
    | JNumber(number: int)
    | JString(text: string)
    | JVector(items: seq<Json>)
    | JObject(entries: seq<Entry>)

  datatype Entry = Entry(key: string, value: Json)

  /** The position of the first entry with the key, or the number of entries. */
  function Find(entries: seq<Entry>, key: string): (i: nat)
    ensures i <= |entries|
    ensures i < |entries| ==> entries[i].key == key
    ensures forall k :: 0 <= k < i ==> entries[k].key != key
  {
    if entries == [] || entries[0].key == key then 0 else 1 + Find(entries[1..], key)
  }

  ghost predicate DistinctKeys(entries: seq<Entry>)
  {
    forall i, j :: 0 <= i < j < |entries| ==> entries[i].key != entries[j].key
  }

  ghost predicate NoKey(entries: seq<Entry>, key: string)
  {
    forall k :: 0 <= k < |entries| ==> entries[k].key != key
  }

  lemma FoundAt(entries: seq<Entry>, i: nat)
    requires i < |entries| && DistinctKeys(entries)
    ensures Find(entries, entries[i].key) == i
  {
    var j := Find(entries, entries[i].key);
    assert !(i < j);
  }
}
