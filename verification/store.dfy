/** The record store, reduced to what the core relies on: an append-only
    sequence of records, `insert_item` appending one record under a fresh
    id, `fetch_all_items` returning the sequence. */
module Store {
  import opened Values

  /** One stored report (a row of the `items` table). */
  datatype Record = Record(
    id: nat,
    kind: string,
    title: string,
    description: string,
    contact: string,
    phash: string,
    embedding: Value,
    createdAt: string)

  /** The fields a caller supplies to `insert_item`. */
  datatype Draft = Draft(
    kind: string,
    title: string,
    description: string,
    contact: string,
    phash: string,
    embedding: Value)

  /** The largest id in use, 0 for an empty store. */
  function MaxId(store: seq<Record>): (m: nat)
    ensures forall i :: 0 <= i < |store| ==> store[i].id <= m
    ensures |store| > 0 ==> exists i :: 0 <= i < |store| && store[i].id == m
    ensures |store| == 0 ==> m == 0
  {
    if |store| == 0 then 0
    else
      var rest := MaxId(store[..|store| - 1]);
      var last := store[|store| - 1].id;
      if last >= rest then last else rest
  }

  /** The id `AUTOINCREMENT` hands out: above every id in use. */
  function NextId(store: seq<Record>): (id: nat)
    ensures id >= 1
    ensures forall i :: 0 <= i < |store| ==> store[i].id < id
  {
    MaxId(store) + 1
  }

  predicate UniqueIds(store: seq<Record>)
  {
    forall i, j :: 0 <= i < j < |store| ==> store[i].id != store[j].id
  }

  /** `insert_item(draft)` at time `now`: the store grows by exactly one
      record at its end, carrying the supplied fields, the given creation
      time and an id that no earlier record has. */
  function Insert(store: seq<Record>, draft: Draft, now: string): (r: (seq<Record>, nat))
    ensures |r.0| == |store| + 1 && r.0[..|store|] == store
    ensures r.0[|store|] == Record(r.1, draft.kind, draft.title, draft.description,
                                   draft.contact, draft.phash, draft.embedding, now)
    ensures forall i :: 0 <= i < |store| ==> store[i].id != r.1
  {
    var id := NextId(store);
    var rec := Record(id, draft.kind, draft.title, draft.description, draft.contact,
                      draft.phash, draft.embedding, now);
    (store + [rec], id)
  }

  /** Inserting keeps ids unique. */
  lemma InsertKeepsIdsUnique(store: seq<Record>, draft: Draft, now: string)
    requires UniqueIds(store)
    ensures UniqueIds(Insert(store, draft, now).0)
  {
  }

  /** Inserting n drafts one after another and fetching returns n more
      records, in insertion order, each with the supplied fields. */
  function InsertAll(store: seq<Record>, drafts: seq<Draft>, now: string): seq<Record>
    decreases |drafts|
  {
    if |drafts| == 0 then store
    else InsertAll(Insert(store, drafts[0], now).0, drafts[1..], now)
  }

  predicate Carries(r: Record, d: Draft)
  {
    r.kind == d.kind && r.title == d.title && r.description == d.description
    && r.contact == d.contact && r.phash == d.phash && r.embedding == d.embedding
  }

  lemma {:induction false} InsertAllAppends(store: seq<Record>, drafts: seq<Draft>, now: string)
    requires UniqueIds(store)
    ensures var r := InsertAll(store, drafts, now);
            && |r| == |store| + |drafts|
            && r[..|store|] == store
            && (forall k :: 0 <= k < |drafts| ==> Carries(r[|store| + k], drafts[k]))
            && UniqueIds(r)
    decreases |drafts|
  {
    if |drafts| > 0 {
      var s1 := Insert(store, drafts[0], now).0;
      InsertKeepsIdsUnique(store, drafts[0], now);
      InsertAllAppends(s1, drafts[1..], now);
      var r := InsertAll(s1, drafts[1..], now);
      assert r[..|store|] == r[..|s1|][..|store|];
      forall k | 0 <= k < |drafts|
        ensures Carries(r[|store| + k], drafts[k])
      {
        if k == 0 {
          assert r[|store|] == r[..|s1|][|store|];
        } else {
          assert drafts[k] == drafts[1..][k - 1];
          assert r[|store| + k] == r[|s1| + (k - 1)];
        }
      }
    }
  }
}
