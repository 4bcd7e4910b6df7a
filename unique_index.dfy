/** A unique index on one string field of a collection: an insert whose key is
    already present is refused with a duplicate-key error. */
module UniqueIndex {
  import opened Common

  /** No two records share a key. */
  predicate Unique<T>(records: seq<T>, key: T -> string) {
    forall i, j :: 0 <= i < j < |records| ==> key(records[i]) != key(records[j])
  }

  /** Whether some record already has this key. */
  predicate Taken<T>(records: seq<T>, key: T -> string, k: string) {
    exists i :: 0 <= i < |records| && key(records[i]) == k
  }

  /** An insert checked against the index on the field `path`. */
  function Insert<T>(records: seq<T>, key: T -> string, path: string, x: T): (r: Result<seq<T>>)
    ensures r.Fail? <==> Taken(records, key, key(x))
    ensures r.Fail? ==> r.error == DuplicateKey(path)
    ensures r.Ok? ==> r.value == records + [x]
  {
    if Taken(records, key, key(x)) then Fail(DuplicateKey(path)) else Ok(records + [x])
  }

  /** Inserting through the index keeps the keys unique. */
  lemma InsertKeepsUnique<T>(records: seq<T>, key: T -> string, path: string, x: T)
    requires Unique(records, key)
    ensures Insert(records, key, path, x).Ok? ==> Unique(Insert(records, key, path, x).value, key)
  {
    var r := Insert(records, key, path, x);
    if r.Ok? {
      var t := r.value;
      forall i, j | 0 <= i < j < |t| ensures key(t[i]) != key(t[j]) {
        if j == |records| {
          assert t[j] == x && t[i] == records[i];
        }
      }
    }
  }
}
