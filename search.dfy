/**
 The command loop of the search CLI (`search.py`): read a line, stop on `exit` or
 `quit`, otherwise embed the query, fetch the nearest products, rerank them with a
 cross-encoder and show the top five before and after reranking.

 The embedding model, the vector store and the cross-encoder are parameters: `embed`
 maps the query to a vector, `knn` answers a nearest-neighbour query for a vector and
 a result count, and `rerank` takes the query, the flattened candidate texts and the
 reranker's limit and returns the reranker's (documents, scores) pair.
 */
module Search {
  import opened Text
  import opened Documents
  import opened Fusion

  /** `num_results=10`: candidates fetched for reranking. */
  const NUM_RESULTS: nat := 10
  /** `limit=5`: the reranker returns at most this many scores. */
  const RERANK_LIMIT: nat := 5
  /** Entries printed by each of the two displays. */
  const DISPLAY_COUNT: nat := 5

  type Vector = seq<real>

  /** One line of input, as `search_loop` reads it. */
  datatype Command = Quit | Query(text: string)

  /** The check at the top of the loop: the line is stripped, and its lower-cased form
      `exit` or `quit` ends the loop. */
  function Classify(line: string): Command
  {
    var q := Trim(line);
    if Lower(q) == "exit" || Lower(q) == "quit" then Quit else Query(q)
  }

  /** The loop ends exactly on `exit` or `quit` in any mix of cases, surrounded by any
      whitespace; every other line is a query made of the stripped line, which neither
      starts nor ends with whitespace. */
  lemma ClassifyIsCaseInsensitive(line: string)
    ensures Classify(line) == Quit <==>
      EqualsIgnoringCase(Trim(line), "exit") || EqualsIgnoringCase(Trim(line), "quit")
    ensures Classify(line).Query? ==>
      var q := Classify(line).text;
      q == Trim(line) && (q == [] || (!IsSpace(q[0]) && !IsSpace(q[|q| - 1])))
  {
    LowerMatchesIgnoringCase(Trim(line), "exit");
    LowerMatchesIgnoringCase(Trim(line), "quit");
    TrimIsSlice(line);
  }

  /** `f"{k}: {v}"`. */
  function FieldText(f: Field): string
  {
    f.0 + ": " + f.1
  }

  /** `join_fields`: every field as `key: value`, in the document's order, separated by
      single spaces. */
  function JoinFields(doc: Doc): string
  {
    Join(seq(|doc|, i requires 0 <= i < |doc| => FieldText(doc[i])), " ")
  }

  /** `join_fields` is determined by three facts: no fields give the empty text, one field
      gives its `key: value` text, and the text of two runs of fields is their texts with
      one space between. */
  lemma {:induction false} JoinFieldsAppend(d1: Doc, d2: Doc)
    ensures JoinFields([]) == ""
    ensures |d1| == 1 ==> JoinFields(d1) == FieldText(d1[0])
    ensures d1 != [] && d2 != [] ==> JoinFields(d1 + d2) == JoinFields(d1) + " " + JoinFields(d2)
  {
    if d1 != [] && d2 != [] {
      var p1 := seq(|d1|, i requires 0 <= i < |d1| => FieldText(d1[i]));
      var p2 := seq(|d2|, i requires 0 <= i < |d2| => FieldText(d2[i]));
      assert seq(|d1 + d2|, i requires 0 <= i < |d1 + d2| => FieldText((d1 + d2)[i])) == p1 + p2;
      JoinAppend(p1, p2, " ");
    }
  }

  /** The rerank text of a document is its `key: value` texts plus one space between each
      two fields. */
  function FieldsLength(doc: Doc): nat
  {
    if doc == [] then 0 else |doc[0].0| + 2 + |doc[0].1| + FieldsLength(doc[1..])
  }

  lemma JoinFieldsLength(doc: Doc)
    requires doc != []
    ensures |JoinFields(doc)| == FieldsLength(doc) + |doc| - 1
  {
    var pieces := seq(|doc|, i requires 0 <= i < |doc| => FieldText(doc[i]));
    JoinLength(pieces, " ");
    PiecesLength(doc);
  }

  lemma {:induction false} PiecesLength(doc: Doc)
    ensures TotalLength(seq(|doc|, i requires 0 <= i < |doc| => FieldText(doc[i]))) == FieldsLength(doc)
  {
    if doc != [] {
      PiecesLength(doc[1..]);
      var pieces := seq(|doc|, i requires 0 <= i < |doc| => FieldText(doc[i]));
      assert pieces[1..] == seq(|doc[1..]|, i requires 0 <= i < |doc[1..]| => FieldText(doc[1..][i]));
    }
  }

  /** `[join_fields(doc) for doc in results]`. */
  function RerankInputs(results: seq<Doc>): seq<string>
  {
    seq(|results|, i requires 0 <= i < |results| => JoinFields(results[i]))
  }

  /** The rerank texts are one per candidate, in retrieval order: the texts of a list of
      candidates are the texts of its parts, so each text depends on its own candidate only. */
  lemma RerankInputsAppend(r1: seq<Doc>, r2: seq<Doc>)
    ensures |RerankInputs(r1 + r2)| == |r1| + |r2|
    ensures RerankInputs(r1 + r2) == RerankInputs(r1) + RerankInputs(r2)
    ensures RerankInputs([]) == [] && forall d: Doc :: RerankInputs([d]) == [JoinFields(d)]
  {
    assert RerankInputs(r1 + r2) == RerankInputs(r1) + RerankInputs(r2);
  }

  /** `xs[:n]`. */
  function Take<T>(xs: seq<T>, n: nat): (r: seq<T>)
    ensures |r| == Min(n, |xs|)
    ensures forall i :: 0 <= i < |r| ==> r[i] == xs[i]
  {
    if |xs| <= n then xs else xs[..n]
  }

  /** What one query shows: nothing found, or the top of the retrieved list and the top of
      the reranked list. */
  datatype Outcome = NoResults | Shown(knnTop: seq<Doc>, rerankedTop: seq<Ranked>)

  /** The scores the reranker gives the candidates of `query`. */
  function Scores(query: string, results: seq<Doc>,
                  rerank: (string, seq<string>, nat) -> (seq<string>, seq<real>)): seq<real>
  {
    rerank(query, RerankInputs(results), RERANK_LIMIT).1
  }

  /** `o` is what one pass of the loop body shows for `query`. */
  ghost predicate Answers(query: string, embed: string -> Vector, knn: (Vector, nat) -> seq<Doc>,
                          rerank: (string, seq<string>, nat) -> (seq<string>, seq<real>), o: Outcome)
  {
    var results := knn(embed(query), NUM_RESULTS);
    if results == [] then o == NoResults
    else o == Shown(Take(results, DISPLAY_COUNT),
                    Take(StableSortByScore(Zip(results, Scores(query, results, rerank))), DISPLAY_COUNT))
  }

  /** The body of the loop for one query. The reranker's returned documents are not
      used: its scores are matched to the candidates by position. */
  method RunQuery(query: string, embed: string -> Vector, knn: (Vector, nat) -> seq<Doc>,
                  rerank: (string, seq<string>, nat) -> (seq<string>, seq<real>)) returns (o: Outcome)
    ensures Answers(query, embed, knn, rerank, o)
    ensures o == NoResults <==> knn(embed(query), NUM_RESULTS) == []
    ensures o.Shown? ==> |o.knnTop| == Min(DISPLAY_COUNT, |knn(embed(query), NUM_RESULTS)|)
    ensures o.Shown? ==> |o.rerankedTop| <= DISPLAY_COUNT
    ensures o.Shown? ==> forall k, l :: 0 <= k < l < |o.rerankedTop| ==> o.rerankedTop[k].score >= o.rerankedTop[l].score
  {
    var embedding := embed(query);
    var results := knn(embedding, NUM_RESULTS);
    if results == [] {
      return NoResults;
    }
    var joined := RerankInputs(results);
    var (_, scores) := rerank(query, joined, RERANK_LIMIT);
    var final := Fuse(results, scores);
    o := Shown(Take(results, DISPLAY_COUNT), Take(final, DISPLAY_COUNT));
  }

  /** `search_loop` over the lines the user types. The loop ends at the first `exit` or
      `quit` (`quit` is then true) or when the input runs out; every line before that is
      answered, in order, including those that find nothing. */
  method SearchLoop(lines: seq<string>, embed: string -> Vector, knn: (Vector, nat) -> seq<Doc>,
                    rerank: (string, seq<string>, nat) -> (seq<string>, seq<real>))
    returns (outcomes: seq<Outcome>, quit: bool)
    ensures |outcomes| <= |lines|
    ensures quit <==> |outcomes| < |lines|
    ensures quit ==> Classify(lines[|outcomes|]) == Quit
    ensures forall k :: 0 <= k < |outcomes| ==>
      Classify(lines[k]).Query? && Answers(Classify(lines[k]).text, embed, knn, rerank, outcomes[k])
  {
    outcomes, quit := [], false;
    var i := 0;
    while i < |lines|
      invariant i == |outcomes| <= |lines|
      invariant forall k :: 0 <= k < i ==>
        Classify(lines[k]).Query? && Answers(Classify(lines[k]).text, embed, knn, rerank, outcomes[k])
    {
      var command := Classify(lines[i]);
      if command == Quit {
        quit := true;
        return;
      }
      var o := RunQuery(command.text, embed, knn, rerank);
      outcomes := outcomes + [o];
      i := i + 1;
    }
  }
}
