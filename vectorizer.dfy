/**
 The embedding backfill (`vectorizer.py`): every product key is read in batches, the
 product's text fields are flattened to one string, the batch's strings are embedded in
 one call, and each embedding is written back under the product's `$.embedding` path.

 The Redis JSON store is a map from key to document; the embedding model is the
 parameter `embedMany`, which may fail (`None`, the exception the batch handler catches)
 or return any number of vectors; `fault` says which keys the store refuses to write
 for reasons outside the model, such as a lost connection.
 */
module Vectorizer {
  import opened Text
  import opened Documents

  /** The default of `BATCH_SIZE`. */
  const DEFAULT_BATCH_SIZE: nat := 128

  type Embedding = seq<real>

  /** A stored product: its JSON text fields and the `embedding` field, if set. */
  datatype StoredDoc = StoredDoc(fields: Doc, embedding: Option<Embedding>)

  type Store = map<string, StoredDoc>

  /** What `json().get(key)` returns: the whole stored object, `embedding` included, or
      `None` for a missing key. */
  type Product = Option<StoredDoc>

  /** `not p`: a missing product, or the empty JSON object (no text field and no
      `embedding`). */
  predicate Falsy(p: Product)
  {
    p.None? || (p.value.fields == [] && p.value.embedding.None?)
  }

  // ---------------------------------------------------------------- prepare_texts

  /** The text of one product: `""` for a falsy product (a missing key reads as `None`,
      and an empty dict is falsy), otherwise `f"{name} {brand} {category} {description}"`
      with `""` for each absent field. */
  function ProductText(p: Product): string
  {
    if Falsy(p) then ""
    else
      var d := p.value.fields;
      Get(d, "name", "") + " " + Get(d, "brand", "") + " " + Get(d, "category", "") + " " + Get(d, "description", "")
  }

  /** The four fields the text is made of, in the order they appear in it. */
  function TextFields(d: Doc): seq<string>
  {
    [Get(d, "name", ""), Get(d, "brand", ""), Get(d, "category", ""), Get(d, "description", "")]
  }

  /** A product's text is its four fields joined by single spaces; a falsy product gives
      the empty text. */
  lemma ProductTextIsJoin(p: Product)
    ensures Falsy(p) ==> ProductText(p) == ""
    ensures !Falsy(p) ==> ProductText(p) == Join(TextFields(p.value.fields), " ")
  {
    if !Falsy(p) {
      var fs := TextFields(p.value.fields);
      JoinFour(fs[0], fs[1], fs[2], fs[3], " ");
      assert fs == [fs[0], fs[1], fs[2], fs[3]];
    }
  }

  lemma JoinFour(a: string, b: string, c: string, d: string, sep: string)
    ensures Join([a, b, c, d], sep) == a + sep + b + sep + c + sep + d
  {
    var xs := [a, b, c, d];
    assert xs[1..] == [b, c, d] && xs[1..][1..] == [c, d] && xs[1..][1..][1..] == [d];
    assert Join([c, d], sep) == c + sep + d;
    assert Join([b, c, d], sep) == b + sep + (c + sep + d);
  }

  /** When none of the four fields holds a space, the text splits back into them. */
  lemma ProductTextSplitsBack(d: StoredDoc)
    requires !Falsy(Some(d))
    requires forall i :: 0 <= i < 4 ==> ' ' !in TextFields(d.fields)[i]
    ensures Split(ProductText(Some(d)), ' ') == TextFields(d.fields)
  {
    ProductTextIsJoin(Some(d));
    SplitJoin(TextFields(d.fields), ' ');
  }

  /** A truthy product with none of the four fields gives three spaces; so does a product
      whose only key is the `embedding` an earlier run wrote. */
  lemma ProductTextWithoutFields(d: StoredDoc)
    requires !Falsy(Some(d))
    requires forall i :: 0 <= i < |d.fields| ==>
      d.fields[i].0 != "name" && d.fields[i].0 != "brand" && d.fields[i].0 != "category" && d.fields[i].0 != "description"
    ensures ProductText(Some(d)) == "   "
    ensures d.fields == [] ==> d.embedding.Some?
  {
  }

  /** `prepare_texts`: one text per product, in order. */
  method PrepareTexts(products: seq<Product>) returns (texts: seq<string>)
    ensures |texts| == |products|
    ensures forall i :: 0 <= i < |products| ==> texts[i] == ProductText(products[i])
  {
    texts := [];
    for i := 0 to |products|
      invariant |texts| == i
      invariant forall k :: 0 <= k < i ==> texts[k] == ProductText(products[k])
    {
      var p := products[i];
      if Falsy(p) {
        texts := texts + [""];
        continue;
      }
      var d := p.value.fields;
      var name := Get(d, "name", "");
      var brand := Get(d, "brand", "");
      var category := Get(d, "category", "");
      var description := Get(d, "description", "");
      var text := name + " " + brand + " " + category + " " + description;
      assert text == ProductText(p);
      texts := texts + [text];
    }
  }

  /** The texts `prepare_texts` makes. */
  function Texts(products: seq<Product>): seq<string>
  {
    seq(|products|, i requires 0 <= i < |products| => ProductText(products[i]))
  }

  // ---------------------------------------------------------------- the store

  /** `redis_client.json().get(key)`: the document, or `None` for a missing key. */
  function Fetch(m: Store, key: string): Product
  {
    if key in m then Some(m[key]) else None
  }

  /** `fetch_products`: one product per key, in order; a missing key reads as `None`, any
      other as the whole stored object, the `embedding` of an earlier run included. */
  function FetchAll(m: Store, keys: seq<string>): (ps: seq<Product>)
    ensures |ps| == |keys|
    ensures forall i :: 0 <= i < |keys| ==>
      (ps[i].None? <==> keys[i] !in m) && (ps[i].Some? ==> ps[i].value == m[keys[i]])
  {
    seq(|keys|, i requires 0 <= i < |keys| => Fetch(m, keys[i]))
  }

  /** The store after `json().set(key, "$.embedding", e)`: setting a path below the root
      of a missing key is an error, and so is a refused write; either leaves the store as
      it was. */
  function Write(m: Store, key: string, e: Embedding, fault: string -> bool): Store
  {
    if key in m && !fault(key) then m[key := m[key].(embedding := Some(e))] else m
  }

  /** The store after the loop of `update_embeddings`: `zip(keys, embeddings)` pairs the
      lists up to the shorter one, and a failed write is skipped. */
  function WriteAll(m: Store, keys: seq<string>, embs: seq<Embedding>, fault: string -> bool): Store
    decreases |keys|
  {
    if keys == [] || embs == [] then m
    else WriteAll(Write(m, keys[0], embs[0], fault), keys[1..], embs[1..], fault)
  }

  /** After a successful write the product is truthy: a product stored as `{}` reads as
      `{"embedding": e}` from then on, and its text is three spaces rather than empty. */
  lemma WrittenProductIsTruthy(m: Store, key: string, e: Embedding, fault: string -> bool)
    requires key in m && !fault(key)
    ensures Fetch(Write(m, key, e, fault), key) == Some(m[key].(embedding := Some(e)))
    ensures !Falsy(Fetch(Write(m, key, e, fault), key))
    ensures m[key].fields == [] ==> ProductText(Fetch(Write(m, key, e, fault), key)) == "   "
  {
  }

  /** `prepare_texts(fetch_products(["k"]))` for a store holding `{"embedding": [1.0]}`
      under `k`. */
  lemma EmbeddingOnlyProductText()
    ensures Texts(FetchAll(map["k" := StoredDoc([], Some([1.0]))], ["k"])) == ["   "]
  {
    var ps := FetchAll(map["k" := StoredDoc([], Some([1.0]))], ["k"]);
    assert ps[0] == Some(StoredDoc([], Some([1.0])));
    assert ProductText(ps[0]) == "" + " " + "" + " " + "" + " " + "" == "   ";
    assert Texts(ps) == [ProductText(ps[0])];
  }

  /** Two stores hold the same keys with the same text fields. */
  ghost predicate SameFields(m: Store, n: Store)
  {
    m.Keys == n.Keys && forall k :: k in m ==> m[k].fields == n[k].fields
  }

  /** Writing embeddings keeps every key and every text field; a document changes only if
      it is one of the paired keys and the store accepted a write to it. */
  lemma {:induction false} WriteAllFrame(m: Store, keys: seq<string>, embs: seq<Embedding>, fault: string -> bool)
    ensures SameFields(WriteAll(m, keys, embs, fault), m)
    ensures forall k :: k in m && WriteAll(m, keys, embs, fault)[k] != m[k] ==>
      !fault(k) && k in keys[..Min(|keys|, |embs|)]
    decreases |keys|
  {
    if keys != [] && embs != [] {
      var m1 := Write(m, keys[0], embs[0], fault);
      WriteAllFrame(m1, keys[1..], embs[1..], fault);
      forall k | k in m && WriteAll(m, keys, embs, fault)[k] != m[k]
        ensures !fault(k) && k in keys[..Min(|keys|, |embs|)]
      {
        if WriteAll(m, keys, embs, fault)[k] != m1[k] {
          assert k in keys[1..][..Min(|keys| - 1, |embs| - 1)];
          assert keys[1..][..Min(|keys| - 1, |embs| - 1)] == keys[1..Min(|keys|, |embs|)];
        } else {
          assert k == keys[0];
        }
      }
    }
  }

  /** Each key written successfully ends with its own embedding (when the keys are
      distinct, as the keys of a scan are). */
  lemma {:induction false} WriteAllStoresPairs(m: Store, keys: seq<string>, embs: seq<Embedding>, fault: string -> bool, j: nat)
    requires forall a, b :: 0 <= a < b < |keys| ==> keys[a] != keys[b]
    requires j < |keys| && j < |embs|
    requires keys[j] in m && !fault(keys[j])
    ensures keys[j] in WriteAll(m, keys, embs, fault)
      && WriteAll(m, keys, embs, fault)[keys[j]] == m[keys[j]].(embedding := Some(embs[j]))
    decreases |keys|
  {
    var m1 := Write(m, keys[0], embs[0], fault);
    if j == 0 {
      WriteAllFrame(m1, keys[1..], embs[1..], fault);
      assert keys[0] !in keys[1..][..Min(|keys| - 1, |embs| - 1)];
    } else {
      WriteAllStoresPairs(m1, keys[1..], embs[1..], fault, j - 1);
    }
  }

  /** A failed write does not stop the loop: the store ends as if the failing pair had
      never been in the lists. */
  lemma {:induction false} FailedWriteIsSkipped(m: Store, keys: seq<string>, embs: seq<Embedding>, fault: string -> bool, j: nat)
    requires j < |keys| && j < |embs|
    requires keys[j] !in m || fault(keys[j])
    ensures WriteAll(m, keys, embs, fault) == WriteAll(m, keys[..j] + keys[j + 1..], embs[..j] + embs[j + 1..], fault)
    decreases |keys|
  {
    if j == 0 {
      assert keys[..0] + keys[1..] == keys[1..];
      assert embs[..0] + embs[1..] == embs[1..];
    } else {
      var m1 := Write(m, keys[0], embs[0], fault);
      WriteAllFrame(m, [keys[0]], [embs[0]], fault);
      assert keys[j] in m1 <==> keys[j] in m;
      FailedWriteIsSkipped(m1, keys[1..], embs[1..], fault, j - 1);
      var ks := keys[..j] + keys[j + 1..];
      var es := embs[..j] + embs[j + 1..];
      assert ks[0] == keys[0] && es[0] == embs[0];
      assert ks[1..] == keys[1..][..j - 1] + keys[1..][j..];
      assert es[1..] == embs[1..][..j - 1] + embs[1..][j..];
    }
  }

  // ---------------------------------------------------------------- batches

  /** `[keys[i:i+size] for i in range(0, len(keys), size)]`. */
  function Batches(keys: seq<string>, size: nat): seq<seq<string>>
    requires size > 0
    decreases |keys|
  {
    if keys == [] then []
    else if |keys| <= size then [keys]
    else [keys[..size]] + Batches(keys[size..], size)
  }

  /** Every batch holds between one and `size` keys, all but the last exactly `size`, and
      there are as many batches as it takes to hold the keys: `ceil(len(keys) / size)`. */
  lemma {:induction false} BatchesShape(keys: seq<string>, size: nat)
    requires size > 0
    ensures var bs := Batches(keys, size);
      |bs| * size >= |keys| && |bs| * size < |keys| + size
      && (forall j :: 0 <= j < |bs| ==> 0 < |bs[j]| <= size)
      && (forall j :: 0 <= j < |bs| - 1 ==> |bs[j]| == size)
    decreases |keys|
  {
    if |keys| > size {
      var rest := Batches(keys[size..], size);
      BatchesShape(keys[size..], size);
      assert (|rest| + 1) * size == |rest| * size + size;
      assert Batches(keys, size)[1..] == rest;
    }
  }

  /** Batch `j` is the slice `keys[j*size:(j+1)*size]` that the loop takes at offset
      `j*size`, clipped to the end of the list as Python slices are. */
  lemma {:induction false} BatchAt(keys: seq<string>, size: nat, j: nat)
    requires size > 0 && j < |Batches(keys, size)|
    ensures j * size < |keys|
    ensures Batches(keys, size)[j] == keys[j * size..Min(j * size + size, |keys|)]
    decreases |keys|
  {
    if j > 0 {
      assert |keys| > size;
      assert Batches(keys, size)[j] == Batches(keys[size..], size)[j - 1];
      BatchAt(keys[size..], size, j - 1);
      var o := (j - 1) * size;
      assert o + size == j * size;
      SliceOfDrop(keys, size, o, Min(o + size, |keys| - size));
    }
  }

  lemma SliceOfDrop(keys: seq<string>, d: nat, lo: nat, hi: nat)
    requires d <= |keys| && lo <= hi <= |keys| - d
    ensures keys[d..][lo..hi] == keys[d + lo..d + hi]
  {
  }

  /** The same count as an integer division. */
  lemma BatchCount(keys: seq<string>, size: nat)
    requires size > 0
    ensures |Batches(keys, size)| == (|keys| + size - 1) / size
  {
    BatchesShape(keys, size);
    CeilingDivision(|Batches(keys, size)|, |keys|, size);
  }

  lemma CeilingDivision(c: nat, n: nat, size: nat)
    requires size > 0 && c * size >= n && c * size < n + size
    ensures c == (n + size - 1) / size
  {
    DivisionIsUnique(n + size - 1, size, c);
  }

  lemma DivisionIsUnique(x: int, size: nat, c: int)
    requires size > 0 && c * size <= x < c * size + size
    ensures x / size == c
  {
    var q := x / size;
    if q > c {
      MultiplyMonotone(c + 1, q, size);
    } else if q < c {
      MultiplyMonotone(q + 1, c, size);
    }
  }

  lemma MultiplyMonotone(a: int, b: int, size: nat)
    requires a <= b
    ensures a * size <= b * size
  {
  }

  function Flatten(bs: seq<seq<string>>): seq<string>
  {
    if bs == [] then [] else bs[0] + Flatten(bs[1..])
  }

  /** The batches, concatenated in order, are the key list. */
  lemma {:induction false} BatchesCoverKeys(keys: seq<string>, size: nat)
    requires size > 0
    ensures Flatten(Batches(keys, size)) == keys
    decreases |keys|
  {
    if |keys| > size {
      BatchesCoverKeys(keys[size..], size);
      var bs := Batches(keys, size);
      assert bs[1..] == Batches(keys[size..], size);
      assert keys == keys[..size] + keys[size..];
    }
  }

  /** What `process_all_products` does to the store: each batch is fetched, flattened and
      embedded in one call; a failed call leaves the store as it is, a successful one writes
      the embeddings back. */
  function ProcessBatches(m: Store, bs: seq<seq<string>>, embedMany: seq<string> -> Option<seq<Embedding>>,
                          fault: string -> bool): Store
    decreases |bs|
  {
    if bs == [] then m else ProcessBatches(ProcessBatch(m, bs[0], embedMany, fault), bs[1..], embedMany, fault)
  }

  /** The store after the body of the batch loop for one batch. */
  function ProcessBatch(m: Store, batch: seq<string>, embedMany: seq<string> -> Option<seq<Embedding>>,
                        fault: string -> bool): Store
  {
    match embedMany(Texts(FetchAll(m, batch)))
    case None => m
    case Some(es) => WriteAll(m, batch, es, fault)
  }

  /** The batches from offset `i` on: the slice `keys[i:i+size]`, then the batches from
      `i + size` on. */
  lemma BatchesFrom(keys: seq<string>, i: nat, size: nat)
    requires size > 0 && i < |keys|
    ensures Batches(keys[i..], size) ==
      [keys[i..Min(i + size, |keys|)]] + Batches(keys[Min(i + size, |keys|)..], size)
  {
    if |keys| - i > size {
      assert keys[i..][..size] == keys[i..i + size];
      assert keys[i..][size..] == keys[i + size..];
    } else {
      assert keys[i..Min(i + size, |keys|)] == keys[i..];
      assert keys[Min(i + size, |keys|)..] == [];
    }
  }

  /** One turn of the batch loop: the batch at offset `i` moves from the batches still to
      do to the batches done. */
  lemma BatchLoopStep(keys: seq<string>, i: nat, size: nat, done: seq<seq<string>>, all: seq<seq<string>>)
    requires size > 0 && i < |keys|
    requires all == done + Batches(keys[Min(i, |keys|)..], size)
    ensures Batches(keys[Min(i, |keys|)..], size)
      == [keys[i..Min(i + size, |keys|)]] + Batches(keys[Min(i + size, |keys|)..], size)
    ensures all == (done + [keys[i..Min(i + size, |keys|)]]) + Batches(keys[Min(i + size, |keys|)..], size)
  {
    BatchesFrom(keys, i, size);
    assert Min(i, |keys|) == i;
  }

  /** One more reported outcome: batch `j` is judged on the store the batches before it
      left behind. */
  lemma BatchOkStep(oks: seq<bool>, done: seq<seq<string>>, ok: bool, b: seq<string>, m: Store,
                    embedMany: seq<string> -> Option<seq<Embedding>>, fault: string -> bool)
    requires |oks| == |done|
    requires forall j :: 0 <= j < |done| ==>
      oks[j] == embedMany(Texts(FetchAll(ProcessBatches(m, done[..j], embedMany, fault), done[j]))).Some?
    requires ok == embedMany(Texts(FetchAll(ProcessBatches(m, done, embedMany, fault), b))).Some?
    ensures var oks', done' := oks + [ok], done + [b];
      |oks'| == |done'|
      && forall j :: 0 <= j < |done'| ==>
        oks'[j] == embedMany(Texts(FetchAll(ProcessBatches(m, done'[..j], embedMany, fault), done'[j]))).Some?
  {
    var oks', done' := oks + [ok], done + [b];
    forall j | 0 <= j < |done'|
      ensures oks'[j] == embedMany(Texts(FetchAll(ProcessBatches(m, done'[..j], embedMany, fault), done'[j]))).Some?
    {
      if j < |done| {
        assert done'[..j] == done[..j];
      } else {
        assert done'[..j] == done;
      }
    }
  }

  /** Running two lists of batches one after the other is running their concatenation. */
  lemma {:induction false} ProcessBatchesAppend(m: Store, bs: seq<seq<string>>, cs: seq<seq<string>>,
                                               embedMany: seq<string> -> Option<seq<Embedding>>, fault: string -> bool)
    ensures ProcessBatches(m, bs + cs, embedMany, fault)
      == ProcessBatches(ProcessBatches(m, bs, embedMany, fault), cs, embedMany, fault)
    decreases |bs|
  {
    if bs == [] {
      assert bs + cs == cs;
    } else {
      assert (bs + cs)[0] == bs[0] && (bs + cs)[1..] == bs[1..] + cs;
      ProcessBatchesAppend(ProcessBatch(m, bs[0], embedMany, fault), bs[1..], cs, embedMany, fault);
    }
  }

  /** The loop's store after one more batch. */
  lemma ProcessBatchesSnoc(m: Store, bs: seq<seq<string>>, b: seq<string>,
                           embedMany: seq<string> -> Option<seq<Embedding>>, fault: string -> bool)
    ensures ProcessBatches(m, bs + [b], embedMany, fault)
      == ProcessBatch(ProcessBatches(m, bs, embedMany, fault), b, embedMany, fault)
  {
    ProcessBatchesAppend(m, bs, [b], embedMany, fault);
    ProcessBatchesFirst(ProcessBatches(m, bs, embedMany, fault), b, [], embedMany, fault);
    assert [b] + [] == [b];
  }

  lemma ProcessBatchesFirst(m: Store, b: seq<string>, rest: seq<seq<string>>,
                            embedMany: seq<string> -> Option<seq<Embedding>>, fault: string -> bool)
    ensures ProcessBatches(m, [b] + rest, embedMany, fault)
      == ProcessBatches(ProcessBatch(m, b, embedMany, fault), rest, embedMany, fault)
  {
    assert ([b] + rest)[0] == b && ([b] + rest)[1..] == rest;
  }

  /** A batch whose embedding call fails, on the texts of the store the batches before it
      left behind, does not stop the later batches: the store ends as if that batch had not
      been in the list. */
  lemma FailedBatchIsSkipped(m: Store, bs: seq<seq<string>>, embedMany: seq<string> -> Option<seq<Embedding>>,
                             fault: string -> bool, j: nat)
    requires j < |bs|
    requires embedMany(Texts(FetchAll(ProcessBatches(m, bs[..j], embedMany, fault), bs[j]))).None?
    ensures ProcessBatches(m, bs, embedMany, fault) == ProcessBatches(m, bs[..j] + bs[j + 1..], embedMany, fault)
  {
    var mj := ProcessBatches(m, bs[..j], embedMany, fault);
    assert bs == bs[..j] + ([bs[j]] + bs[j + 1..]);
    ProcessBatchesAppend(m, bs[..j], [bs[j]] + bs[j + 1..], embedMany, fault);
    ProcessBatchesFirst(mj, bs[j], bs[j + 1..], embedMany, fault);
    ProcessBatchesAppend(m, bs[..j], bs[j + 1..], embedMany, fault);
  }

  /** The whole run keeps every key and every text field, and leaves every document whose
      key is not in the key list as it was. */
  lemma {:induction false} ProcessBatchesFrame(m: Store, bs: seq<seq<string>>, embedMany: seq<string> -> Option<seq<Embedding>>,
                                              fault: string -> bool)
    ensures SameFields(ProcessBatches(m, bs, embedMany, fault), m)
    ensures forall k :: k in m && k !in Flatten(bs) ==> ProcessBatches(m, bs, embedMany, fault)[k] == m[k]
    decreases |bs|
  {
    if bs != [] {
      var m1 := ProcessBatch(m, bs[0], embedMany, fault);
      if embedMany(Texts(FetchAll(m, bs[0]))).Some? {
        var es := embedMany(Texts(FetchAll(m, bs[0]))).value;
        WriteAllFrame(m, bs[0], es, fault);
        assert forall k :: k in bs[0][..Min(|bs[0]|, |es|)] ==> k in bs[0];
      }
      ProcessBatchesFrame(m1, bs[1..], embedMany, fault);
      assert Flatten(bs) == bs[0] + Flatten(bs[1..]);
    }
  }

  // ---------------------------------------------------------------- the backfill job

  /** The Redis database the backfill writes to. */
  class ProductStore {
    var docs: Store

    constructor (initial: Store)
      ensures docs == initial
    {
      docs := initial;
    }

    /** One `json().set(key, "$.embedding", e)` with its outcome. */
    method SetEmbedding(key: string, e: Embedding, fault: string -> bool) returns (ok: bool)
      modifies this
      ensures ok == (key in old(docs) && !fault(key))
      ensures docs == Write(old(docs), key, e, fault)
    {
      ok := key in docs && !fault(key);
      if ok {
        docs := docs[key := docs[key].(embedding := Some(e))];
      }
    }

    /** `update_embeddings`: one write attempt per pair of `zip(keys, embeddings)`, each
        failure caught and reported, the loop going on. `written[j]` says whether the write
        of `keys[j]` succeeded. */
    method UpdateEmbeddings(keys: seq<string>, embs: seq<Embedding>, fault: string -> bool) returns (written: seq<bool>)
      modifies this
      ensures |written| == Min(|keys|, |embs|)
      ensures forall j :: 0 <= j < |written| ==> written[j] == (keys[j] in old(docs) && !fault(keys[j]))
      ensures docs == WriteAll(old(docs), keys, embs, fault)
    {
      written := [];
      var j := 0;
      while j < |keys| && j < |embs|
        invariant j <= |keys| && j <= |embs| && |written| == j
        invariant WriteAll(docs, keys[j..], embs[j..], fault) == WriteAll(old(docs), keys, embs, fault)
        invariant docs.Keys == old(docs).Keys
        invariant forall t :: 0 <= t < j ==> written[t] == (keys[t] in old(docs) && !fault(keys[t]))
      {
        assert keys[j..][1..] == keys[j + 1..] && embs[j..][1..] == embs[j + 1..];
        var ok := SetEmbedding(keys[j], embs[j], fault);
        written := written + [ok];
        j := j + 1;
      }
    }

    /** The body of the batch loop: fetch, flatten, embed in one call and write back; a
        failing embedding call is caught and leaves the store as it was. */
    method EmbedBatch(batchKeys: seq<string>, embedMany: seq<string> -> Option<seq<Embedding>>,
                      fault: string -> bool) returns (ok: bool)
      modifies this
      ensures ok == embedMany(Texts(FetchAll(old(docs), batchKeys))).Some?
      ensures docs == ProcessBatch(old(docs), batchKeys, embedMany, fault)
      ensures SameFields(docs, old(docs))
    {
      var products := FetchAll(docs, batchKeys);
      var texts := PrepareTexts(products);
      assert texts == Texts(products);
      var embeddings := embedMany(texts);
      ok := embeddings.Some?;
      if ok {
        WriteAllFrame(docs, batchKeys, embeddings.value, fault);
        var _ := UpdateEmbeddings(batchKeys, embeddings.value, fault);
      }
    }

    /** `process_all_products` over the keys the scan found. `batchOk[j]` says whether the
        embedding call of the `j`-th batch succeeded. A `BATCH_SIZE` of zero makes `range`
        raise before any batch, and a negative one gives no batches: the store is left as
        it was in both cases. */
    method ProcessAllProducts(keys: seq<string>, batchSize: int,
                              embedMany: seq<string> -> Option<seq<Embedding>>, fault: string -> bool)
      returns (batchOk: seq<bool>)
      modifies this
      ensures batchSize <= 0 ==> batchOk == [] && docs == old(docs)
      ensures batchSize > 0 ==>
        var bs := Batches(keys, batchSize);
        |batchOk| == |bs|
        && (forall j :: 0 <= j < |bs| ==>
              batchOk[j] == embedMany(Texts(FetchAll(ProcessBatches(old(docs), bs[..j], embedMany, fault), bs[j]))).Some?)
        && docs == ProcessBatches(old(docs), bs, embedMany, fault)
    {
      batchOk := [];
      if batchSize <= 0 {
        return;
      }
      ghost var start := docs;
      ghost var all := Batches(keys, batchSize);
      ghost var done: seq<seq<string>> := [];
      ghost var rest := all;
      var i := 0;
      assert keys[Min(i, |keys|)..] == keys;
      while i < |keys|
        invariant 0 <= i
        invariant rest == Batches(keys[Min(i, |keys|)..], batchSize)
        invariant all == done + rest
        invariant |batchOk| == |done|
        invariant docs == ProcessBatches(start, done, embedMany, fault)
        invariant forall j :: 0 <= j < |done| ==>
          batchOk[j] == embedMany(Texts(FetchAll(ProcessBatches(start, done[..j], embedMany, fault), done[j]))).Some?
        decreases |keys| - i
      {
        var batchKeys := keys[i..Min(i + batchSize, |keys|)];
        BatchLoopStep(keys, i, batchSize, done, all);
        ProcessBatchesSnoc(start, done, batchKeys, embedMany, fault);
        var ok := EmbedBatch(batchKeys, embedMany, fault);
        BatchOkStep(batchOk, done, ok, batchKeys, start, embedMany, fault);
        batchOk := batchOk + [ok];
        done := done + [batchKeys];
        rest := rest[1..];
        i := i + batchSize;
      }
      assert keys[Min(i, |keys|)..] == [];
      assert done == all;
    }
  }
}
