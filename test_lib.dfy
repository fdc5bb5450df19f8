/**
 * Deterministic builders of test data: object keys, records, lists of records
 * and of their ids, JSON objects keyed by object key, and the JSON array of a
 * keyed set's values. The id text of index `i` is always its decimal text.
 */
module TestLib {
  import opened Decimal

  /** The type name every generated key carries. */
  const TypeName: string := "TestData"

  /** Identifies one stored object: its type name and its id text. */
  datatype ObjectKey = ObjectKey(typeName: string, id: string)

  /** The test record: a number and a text. */
  datatype TestData = TestData(id: int, text: string)

  datatype JsonValue = JsonInt(n: int) | JsonString(s: string)

  type JsonObject = map<string, JsonValue>

  /** JSON objects keyed by the key of the object each one encodes. */
  type DataSet = map<ObjectKey, JsonObject>

  /** The key of the object with index `index`: the test type name and the index's decimal text. */
  function GenerateKey(index: int): (key: ObjectKey)
    ensures key.typeName == TypeName && |key.id| > 0 && (key.id[0] == '-' <==> index < 0)
  {
    ObjectKey(TypeName, IntToDecimal(index))
  }

  /** A generated key has the test type name, and its id reads back as the index. */
  lemma GenerateKeyReadsBack(index: int)
    ensures GenerateKey(index).typeName == "TestData"
    ensures DecimalToInt(GenerateKey(index).id) == index
  {
    DecimalRoundTrip(index);
  }

  /** Keys of distinct indices are distinct. */
  lemma GenerateKeyInjective(a: int, b: int)
    ensures GenerateKey(a) == GenerateKey(b) ==> a == b
  {
    IntToDecimalInjective(a, b);
  }

  function GenerateData(index: int): (data: TestData)
    ensures data.id == index && IsDecimalText(data.text) && DecimalToInt(data.text) == data.id
  {
    DecimalRoundTrip(index);
    TestData(index, IntToDecimal(index))
  }

  /** The JSON form of `GenerateData(index)`: exactly the fields "id" and "text". */
  function GenerateDataJson(index: int): (data: JsonObject)
    ensures data.Keys == {"id", "text"}
    ensures data["id"] == JsonInt(GenerateData(index).id)
    ensures data["text"] == JsonString(GenerateData(index).text)
  {
    map["id" := JsonInt(index), "text" := JsonString(IntToDecimal(index))]
  }

  /** How many indices lie in the inclusive range `from..to`. */
  function RangeSize(from: int, to: int): nat {
    if from <= to then to - from + 1 else 0
  }

  /** The records of the indices `from..to`, in increasing order. */
  method GenerateDataRange(from: int, to: int) returns (list: seq<TestData>)
    ensures |list| == RangeSize(from, to)
    ensures forall k :: 0 <= k < |list| ==> list[k] == GenerateData(from + k)
  {
    list := [];
    var i := from;
    while i <= to
      invariant from <= i <= if from <= to then to + 1 else from
      invariant |list| == i - from
      invariant forall k :: 0 <= k < |list| ==> list[k] == GenerateData(from + k)
    {
      list := list + [TestData(i, IntToDecimal(i))];
      i := i + 1;
    }
  }

  /** The id texts of the indices `from..to`, in increasing order. */
  method GenerateDataKeys(from: int, to: int) returns (list: seq<string>)
    ensures |list| == RangeSize(from, to)
    ensures forall k :: 0 <= k < |list| ==> list[k] == GenerateData(from + k).text
  {
    list := [];
    var i := from;
    while i <= to
      invariant from <= i <= if from <= to then to + 1 else from
      invariant |list| == i - from
      invariant forall k :: 0 <= k < |list| ==> list[k] == GenerateData(from + k).text
    {
      list := list + [IntToDecimal(i)];
      i := i + 1;
    }
  }

  /** The keys of the indices `from..to`. */
  ghost function KeyRange(from: int, to: int): (keys: set<ObjectKey>)
    decreases to - from
  {
    if from > to then {} else KeyRange(from, to - 1) + {GenerateKey(to)}
  }

  /** A key belongs to `KeyRange(from, to)` exactly when it is the key of an index in `from..to`. */
  lemma {:induction false} KeyRangeMembers(from: int, to: int, key: ObjectKey)
    ensures key in KeyRange(from, to) <==> (exists i :: from <= i <= to && key == GenerateKey(i))
    decreases if from <= to then to - from + 1 else 0
  {
    if from <= to {
      KeyRangeMembers(from, to - 1, key);
    }
  }

  /** The key of an index outside `from..to` is not in `KeyRange(from, to)`. */
  lemma KeyRangeExcludes(from: int, to: int, index: int)
    requires index < from || to < index
    ensures GenerateKey(index) !in KeyRange(from, to)
  {
    KeyRangeMembers(from, to, GenerateKey(index));
    if i :| from <= i <= to && GenerateKey(index) == GenerateKey(i) {
      GenerateKeyInjective(index, i);
    }
  }

  /** Inserting the JSON object of index `i` after those of `from..i-1` adds a new entry under a new key. */
  lemma JsonRangeStep(data: DataSet, from: int, i: int)
    requires from <= i
    requires data.Keys == KeyRange(from, i - 1) && |data| == i - from
    requires forall j :: from <= j < i ==> GenerateKey(j) in data && data[GenerateKey(j)] == GenerateDataJson(j)
    ensures var next := data[GenerateKey(i) := GenerateDataJson(i)];
      next.Keys == KeyRange(from, i) && |next| == i + 1 - from &&
      forall j :: from <= j < i + 1 ==> GenerateKey(j) in next && next[GenerateKey(j)] == GenerateDataJson(j)
  {
    var key := GenerateKey(i);
    KeyRangeExcludes(from, i - 1, i);
    var next := data[key := GenerateDataJson(i)];
    assert next.Keys == data.Keys + {key};
    forall j | from <= j < i + 1
      ensures GenerateKey(j) in next && next[GenerateKey(j)] == GenerateDataJson(j)
    {
      if j < i {
        GenerateKeyInjective(j, i);
      }
    }
  }

  /** The JSON objects of the indices `from..to`, each under its own key. */
  method GenerateDataJsonRange(from: int, to: int) returns (data: DataSet)
    ensures data.Keys == KeyRange(from, to)
    ensures forall i :: from <= i <= to ==> GenerateKey(i) in data && data[GenerateKey(i)] == GenerateDataJson(i)
    ensures |data| == RangeSize(from, to)
  {
    data := map[];
    var i := from;
    while i <= to
      invariant from <= i <= if from <= to then to + 1 else from
      invariant data.Keys == KeyRange(from, i - 1) && |data| == i - from
      invariant forall j :: from <= j < i ==> GenerateKey(j) in data && data[GenerateKey(j)] == GenerateDataJson(j)
    {
      JsonRangeStep(data, from, i);
      data := data[GenerateKey(i) := GenerateDataJson(i)];
      i := i + 1;
    }
    var last := i - 1;
    assert last == to || (from > to && KeyRange(from, last) == {} == KeyRange(from, to));
  }

  /** The values of a data set, with multiplicity. */
  ghost function Values(data: DataSet): multiset<JsonObject>
    decreases |data|
  {
    if data == map[] then multiset{}
    else
      var key :| key in data;
      multiset{data[key]} + Values(data - {key})
  }

  /** Names the key `Values` takes apart first. */
  lemma ValuesChoice(data: DataSet, key: ObjectKey) returns (chosen: ObjectKey)
    requires key in data
    ensures chosen in data && Values(data) == multiset{data[chosen]} + Values(data - {chosen})
  {
    chosen :| chosen in data && Values(data) == multiset{data[chosen]} + Values(data - {chosen});
  }

  lemma RemoveOneKey(data: DataSet, key: ObjectKey)
    requires key in data
    ensures |data - {key}| == |data| - 1
  {
    assert (data - {key}).Keys == data.Keys - {key};
  }

  lemma RemoveTwoKeys(data: DataSet, a: ObjectKey, b: ObjectKey)
    requires a in data && b in data && a != b
    ensures (data - {a}) - {b} == (data - {b}) - {a}
    ensures (data - {a})[b] == data[b]
  {
  }

  /** Taking any one entry out first gives the same multiset of values. */
  lemma {:induction false} ValuesRemove(data: DataSet, key: ObjectKey)
    requires key in data
    ensures Values(data) == multiset{data[key]} + Values(data - {key})
    decreases |data|
  {
    var chosen := ValuesChoice(data, key);
    if chosen != key {
      RemoveOneKey(data, chosen);
      RemoveOneKey(data, key);
      RemoveTwoKeys(data, chosen, key);
      RemoveTwoKeys(data, key, chosen);
      ValuesRemove(data - {chosen}, key);
      ValuesRemove(data - {key}, chosen);
    }
  }

  /** The values of a data set as a JSON array, one element per entry. */
  method DataListJson(data: DataSet) returns (list: seq<JsonObject>)
    ensures |list| == |data|
    ensures multiset(list) == Values(data)
  {
    list := [];
    var rest := data;
    while rest != map[]
      invariant |list| + |rest| == |data|
      invariant multiset(list) + Values(rest) == Values(data)
      decreases |rest|
    {
      var key :| key in rest;
      ValuesRemove(rest, key);
      list := list + [rest[key]];
      RemoveOneKey(rest, key);
      rest := rest - {key};
    }
  }
}
