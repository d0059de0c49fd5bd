/**
 * The value view of a person's document list: each document seen as its
 * (DocumentType, DocumentNumber) pair, which is all that document equality
 * looks at, and the add-if-absent / remove-first-equal operations on it.
 */
module DocumentKeys {
  import opened Primitives

  datatype DocKey = DocKey(documentType: int32, documentNumber: string)

  /** `List.IndexOf` under value equality: the first position holding `k`, or -1. */
  function IndexOf(keys: seq<DocKey>, k: DocKey): (i: int)
    ensures -1 <= i < |keys|
    ensures i == -1 <==> k !in keys
    ensures 0 <= i ==> keys[i] == k && k !in keys[..i]
    decreases |keys|
  {
    if keys == [] then -1
    else if keys[0] == k then 0
    else
      var j := IndexOf(keys[1..], k);
      if j == -1 then -1 else j + 1
  }

  predicate NoDuplicates(keys: seq<DocKey>) {
    forall i, j | 0 <= i < j < |keys| :: keys[i] != keys[j]
  }

  /** `AddDocument` on the values: append unless an equal pair is present. */
  function AddIfAbsent(keys: seq<DocKey>, k: DocKey): (r: seq<DocKey>)
    ensures k in r
    ensures k in keys ==> r == keys
    ensures k !in keys ==> r == keys + [k]
  {
    if k in keys then keys else keys + [k]
  }

  /** `RemoveDocument` on the values: drop the first equal pair, if there is one. */
  function RemoveFirst(keys: seq<DocKey>, k: DocKey): (r: seq<DocKey>)
    ensures k !in keys ==> r == keys
    ensures k in keys ==> |r| == |keys| - 1
  {
    var i := IndexOf(keys, k);
    if i < 0 then keys else keys[..i] + keys[i + 1..]
  }

  /** Removing an absent pair changes nothing; removing a present one takes out exactly its first occurrence and keeps the order of the rest. */
  lemma RemoveFirstEffect(keys: seq<DocKey>, k: DocKey)
    ensures k !in keys ==> RemoveFirst(keys, k) == keys
    ensures k in keys ==> |RemoveFirst(keys, k)| == |keys| - 1
    ensures k in keys ==> multiset(RemoveFirst(keys, k)) == multiset(keys) - multiset{k}
    ensures k in keys ==> exists i | 0 <= i < |keys| :: keys[i] == k && k !in keys[..i] && RemoveFirst(keys, k) == keys[..i] + keys[i + 1..]
  {
    if k in keys {
      var i := IndexOf(keys, k);
      assert keys == keys[..i] + [keys[i]] + keys[i + 1..];
      assert multiset(keys) == multiset(keys[..i]) + multiset{k} + multiset(keys[i + 1..]);
    }
  }

  /** Adding keeps a duplicate-free list duplicate-free, and adding the same pair twice is adding it once. */
  lemma AddIfAbsentKeepsNoDuplicates(keys: seq<DocKey>, k: DocKey)
    requires NoDuplicates(keys)
    ensures NoDuplicates(AddIfAbsent(keys, k))
    ensures AddIfAbsent(AddIfAbsent(keys, k), k) == AddIfAbsent(keys, k)
  {
  }

  /** Removing keeps a duplicate-free list duplicate-free, and afterwards the pair is gone. */
  lemma RemoveFirstKeepsNoDuplicates(keys: seq<DocKey>, k: DocKey)
    requires NoDuplicates(keys)
    ensures NoDuplicates(RemoveFirst(keys, k))
    ensures k !in RemoveFirst(keys, k)
  {
    var i := IndexOf(keys, k);
    if i >= 0 {
      var r := RemoveFirst(keys, k);
      assert forall p | 0 <= p < |r| :: r[p] == if p < i then keys[p] else keys[p + 1];
    }
  }

  /** The calls that touch a person's document list. */
  datatype DocumentCall = AddDocument(key: DocKey) | RemoveDocument(key: DocKey)

  function ApplyCalls(keys: seq<DocKey>, calls: seq<DocumentCall>): seq<DocKey>
    decreases |calls|
  {
    if calls == [] then keys
    else
      var next := match calls[0]
        case AddDocument(k) => AddIfAbsent(keys, k)
        case RemoveDocument(k) => RemoveFirst(keys, k);
      ApplyCalls(next, calls[1..])
  }

  /** If only AddDocument and RemoveDocument touch the list, it never holds two equal documents. */
  lemma {:induction false} CallsKeepNoDuplicates(keys: seq<DocKey>, calls: seq<DocumentCall>)
    requires NoDuplicates(keys)
    ensures NoDuplicates(ApplyCalls(keys, calls))
    decreases |calls|
  {
    if calls != [] {
      match calls[0]
      case AddDocument(k) =>
        AddIfAbsentKeepsNoDuplicates(keys, k);
        CallsKeepNoDuplicates(AddIfAbsent(keys, k), calls[1..]);
      case RemoveDocument(k) =>
        RemoveFirstKeepsNoDuplicates(keys, k);
        CallsKeepNoDuplicates(RemoveFirst(keys, k), calls[1..]);
    }
  }

  /** In particular, starting from a new person's empty list. */
  lemma CallsFromEmptyKeepNoDuplicates(calls: seq<DocumentCall>)
    ensures NoDuplicates(ApplyCalls([], calls))
  {
    CallsKeepNoDuplicates([], calls);
  }
}
