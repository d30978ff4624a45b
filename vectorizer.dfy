/** `TextVectorizer` (src/text_vectorizer.py): ingestion of a text file into
    the `ai_context` table, batched embedding into the similarity index, and
    similarity search mapping index positions back to table rows.

    The table is a map from id to text with an auto-increment counter; the
    index is the sequence of vectors added to it; the embedding service and
    `index.search` are oracles. */
module Vectorizer {
  import opened Wrappers
  import opened Text
  import opened Services

  /** One `(record_id, text)` pair returned by `insert_texts_from_file`. */
  datatype Record = Record(id: int, text: string)

  /** One `(id, text, distance)` triple returned by `search_similar`. */
  datatype SearchResult = SearchResult(id: int, text: string, distance: real)

  /** The embedding service: the answer to call number `n` on a list of
      texts. */
  type EmbeddingService = (nat, seq<string>) -> EmbedAnswer

  /** `index.search(query_vector, k)` over the vectors of the index. */
  type NearestSearch = (seq<Vector>, Vector, int) -> seq<Hit>

  function Min(a: int, b: int): int
  {
    if a <= b then a else b
  }

  /** The lines of a file that are not blank, each stripped, in file order. */
  function NonBlankLines(lines: seq<string>): seq<string>
  {
    if lines == [] then []
    else
      var init := NonBlankLines(lines[..|lines| - 1]);
      var text := Strip(lines[|lines| - 1]);
      if text != "" then init + [text] else init
  }

  /** Texts paired with consecutive ids starting at `first`. */
  function Numbered(texts: seq<string>, first: int): (records: seq<Record>)
    ensures |records| == |texts|
  {
    if texts == [] then []
    else Numbered(texts[..|texts| - 1], first) + [Record(first + |texts| - 1, texts[|texts| - 1])]
  }

  /** The rows a sequence of records puts into the table. */
  function RowsOf(records: seq<Record>): map<int, string>
  {
    if records == [] then map[]
    else RowsOf(records[..|records| - 1])[records[|records| - 1].id := records[|records| - 1].text]
  }

  /** `[record[1] for record in batch]`. */
  function Texts(records: seq<Record>): seq<string>
  {
    seq(|records|, i requires 0 <= i < |records| => records[i].text)
  }

  /** `get_embeddings`: the vectors of a successful call, `[]` after an
      exception. Vectors come only from a call that succeeded, and they are
      all of its vectors. */
  function GetEmbeddings(answer: EmbedAnswer): (vectors: seq<Vector>)
    ensures answer.Embedded? ==> vectors == answer.vectors
    ensures vectors != [] ==> answer == Embedded(vectors)
  {
    match answer
    case Embedded(vectors) => vectors
    case EmbedFailed(_) => []
  }

  /** What `get_embeddings` prints: its error message when the call
      raises, nothing otherwise. */
  function EmbedLog(answer: EmbedAnswer): seq<Event>
  {
    if answer.EmbedFailed? then [Say(EmbedError)] else []
  }

  /** `text_records[i:i + batch_size]`. */
  function BatchAt(records: seq<Record>, i: nat, size: nat): seq<Record>
    requires i <= |records|
  {
    records[i..Min(i + size, |records|)]
  }

  /** The batches `process_and_store` visits from offset `i` on. */
  function Batches(records: seq<Record>, size: nat, i: nat): seq<seq<Record>>
    requires size > 0
    decreases |records| - i
  {
    if i >= |records| then []
    else [BatchAt(records, i, size)] + Batches(records, size, i + size)
  }

  /** The vectors `process_and_store` adds to the index for the batches at
      offsets `i, i + size, ...`, the first of them being embedding call
      number `b`: every vector a call returns, and nothing for a call that
      returns none. */
  function StoredFrom(records: seq<Record>, size: nat, service: EmbeddingService, i: nat, b: nat): seq<Vector>
    requires size > 0
    decreases |records| - i
  {
    if i >= |records| then []
    else GetEmbeddings(service(b, Texts(BatchAt(records, i, size)))) + StoredFrom(records, size, service, i + size, b + 1)
  }

  /** The rows `search_similar` fetches for the hits of the index, in hit
      order: position `p` is looked up as id `p + 1`, and a miss is skipped. */
  function Lookup(rows: map<int, string>, hits: seq<Hit>): seq<SearchResult>
  {
    if hits == [] then []
    else
      var init := Lookup(rows, hits[..|hits| - 1]);
      var h := hits[|hits| - 1];
      if h.position + 1 in rows then init + [SearchResult(h.position + 1, rows[h.position + 1], h.distance)]
      else init
  }

  /** `search_similar(query, k)`: embed the query, search the index with its
      vector, look the positions up. `get_embeddings` returns `[]` on error,
      so `[0]` raises and nothing is found. */
  function Search(rows: map<int, string>, index: seq<Vector>, query: string, k: int,
                  embedder: seq<string> -> EmbedAnswer, nearest: NearestSearch): Result<seq<SearchResult>>
  {
    var embedded := GetEmbeddings(embedder([query]));
    if embedded == [] then Failure("list index out of range")
    else Success(Lookup(rows, nearest(index, embedded[0], k)))
  }

  /** The batch at offset `i` contributes its call's vectors in front of
      those of the batches after it. */
  lemma StoredStep(records: seq<Record>, size: nat, service: EmbeddingService, i: nat, b: nat)
    requires size > 0 && i < |records|
    ensures StoredFrom(records, size, service, i, b) ==
            GetEmbeddings(service(b, Texts(records[i..Min(i + size, |records|)]))) + StoredFrom(records, size, service, i + size, b + 1)
  {
  }

  /** One batch of `process_and_store`: what is still to be stored after
      it is the rest of the batches, whether or not its vectors were added. */
  lemma StoreStep(total: seq<Vector>, index: seq<Vector>, embeddings: seq<Vector>,
                  records: seq<Record>, size: nat, service: EmbeddingService, i: nat, b: nat)
    requires size > 0 && i < |records|
    requires total == index + StoredFrom(records, size, service, i, b)
    requires embeddings == GetEmbeddings(service(b, Texts(records[i..Min(i + size, |records|)])))
    ensures total == (index + embeddings) + StoredFrom(records, size, service, i + size, b + 1)
    ensures embeddings == [] ==> total == index + StoredFrom(records, size, service, i + size, b + 1)
  {
    var rest := StoredFrom(records, size, service, i + size, b + 1);
    StoredStep(records, size, service, i, b);
    assert index + (embeddings + rest) == (index + embeddings) + rest;
    if embeddings == [] {
      assert index + embeddings == index;
    }
  }

  lemma NonBlankLinesSnoc(lines: seq<string>, j: nat)
    requires j < |lines|
    ensures NonBlankLines(lines[..j + 1]) ==
            NonBlankLines(lines[..j]) + (if Strip(lines[j]) != "" then [Strip(lines[j])] else [])
  {
    assert lines[..j + 1][..j] == lines[..j];
  }

  /** One line of `insert_texts_from_file`'s loop: a non-blank line adds
      one record, numbered after the ones before it; a blank one adds none. */
  lemma IngestStep(lines: seq<string>, j: nat, first: int, before: seq<Record>, text: string, after: seq<Record>)
    requires j < |lines|
    requires before == Numbered(NonBlankLines(lines[..j]), first) && text == Strip(lines[j])
    requires after == before + (if text != "" then [Record(first + |before|, text)] else [])
    ensures after == Numbered(NonBlankLines(lines[..j + 1]), first)
  {
    var texts := NonBlankLines(lines[..j]);
    NonBlankLinesSnoc(lines, j);
    if text != "" {
      NumberedKept(texts, NonBlankLines(lines[..j + 1]), first, before, text, after);
    } else {
      NumberedSkipped(texts, NonBlankLines(lines[..j + 1]), first, before, after);
    }
  }

  lemma NumberedKept(texts: seq<string>, next: seq<string>, first: int, before: seq<Record>, text: string, after: seq<Record>)
    requires before == Numbered(texts, first) && next == texts + [text]
    requires after == before + [Record(first + |before|, text)]
    ensures after == Numbered(next, first)
  {
    NumberedSnoc(texts, text, first);
  }

  lemma NumberedSkipped(texts: seq<string>, next: seq<string>, first: int, before: seq<Record>, after: seq<Record>)
    requires before == Numbered(texts, first) && next == texts + []
    requires after == before + []
    ensures after == Numbered(next, first)
  {
    assert next == texts;
    assert after == before;
  }

  lemma NumberedSnoc(texts: seq<string>, text: string, first: int)
    ensures Numbered(texts + [text], first) == Numbered(texts, first) + [Record(first + |texts|, text)]
  {
    assert (texts + [text])[..|texts|] == texts;
  }

  lemma RowsOfSnoc(table: map<int, string>, records: seq<Record>, r: Record)
    ensures (table + RowsOf(records))[r.id := r.text] == table + RowsOf(records + [r])
  {
    assert (records + [r])[..|records|] == records;
  }

  // Ingestion

  /** Lines are taken one by one: the records of a file are those of its
      first part followed by those of the rest. */
  lemma {:induction false} NonBlankLinesAppend(a: seq<string>, b: seq<string>)
    ensures NonBlankLines(a + b) == NonBlankLines(a) + NonBlankLines(b)
    decreases |b|
  {
    if b == [] {
      assert a + b == a;
    } else {
      assert (a + b)[..|a + b| - 1] == a + b[..|b| - 1];
      NonBlankLinesAppend(a, b[..|b| - 1]);
    }
  }

  /** A single line yields its stripped text, or nothing exactly when it is
      whitespace only. */
  lemma NonBlankLine(line: string)
    ensures NonBlankLines([line]) == (if Strip(line) != "" then [Strip(line)] else [])
    ensures NonBlankLines([line]) == [] <==> AllSpace(line)
  {
    assert [line][..0] == [];
    StripEmptyIff(line);
  }

  /** Every text kept is non-empty and already stripped. */
  lemma {:induction false} NonBlankLinesStripped(lines: seq<string>)
    ensures |NonBlankLines(lines)| <= |lines|
    ensures forall q :: 0 <= q < |NonBlankLines(lines)| ==>
              NonBlankLines(lines)[q] != "" && Strip(NonBlankLines(lines)[q]) == NonBlankLines(lines)[q]
  {
    if lines != [] {
      NonBlankLinesStripped(lines[..|lines| - 1]);
      StripIdempotent(lines[|lines| - 1]);
    }
  }

  /** Record `p` carries id `first + p` and the `p`-th text. */
  lemma {:induction false} NumberedAt(texts: seq<string>, first: int)
    ensures forall p :: 0 <= p < |texts| ==> Numbered(texts, first)[p] == Record(first + p, texts[p])
  {
    if texts != [] {
      NumberedAt(texts[..|texts| - 1], first);
    }
  }

  /** With ids handed out by an auto-increment counter, the ids are strictly
      increasing in file order, and the texts are those of the lines. */
  lemma NumberedIdsIncrease(texts: seq<string>, first: int)
    ensures forall p, q :: 0 <= p < q < |Numbered(texts, first)| ==>
              Numbered(texts, first)[p].id < Numbered(texts, first)[q].id
    ensures Texts(Numbered(texts, first)) == texts
  {
    NumberedAt(texts, first);
  }

  /** The rows ingestion writes hold exactly the ids `first ..
      first + |texts| - 1`, id `first + p` holding text `p`. */
  lemma {:induction false} RowsOfNumbered(texts: seq<string>, first: int)
    ensures forall id :: id in RowsOf(Numbered(texts, first)) <==> first <= id < first + |texts|
    ensures forall p :: 0 <= p < |texts| ==> RowsOf(Numbered(texts, first))[first + p] == texts[p]
  {
    if texts != [] {
      var init := texts[..|texts| - 1];
      RowsOfNumbered(init, first);
      var recs := Numbered(texts, first);
      var before := RowsOf(Numbered(init, first));
      assert recs[..|recs| - 1] == Numbered(init, first);
      assert recs[|recs| - 1] == Record(first + |init|, texts[|texts| - 1]);
      assert RowsOf(recs) == before[first + |init| := texts[|texts| - 1]];
      forall p | 0 <= p < |init|
        ensures RowsOf(recs)[first + p] == texts[p]
      {
        assert before[first + p] == init[p] == texts[p];
      }
    }
  }

  // Search

  /** Hits are looked up one at a time, in the order the index returns
      them. */
  lemma {:induction false} LookupAppend(rows: map<int, string>, a: seq<Hit>, b: seq<Hit>)
    ensures Lookup(rows, a + b) == Lookup(rows, a) + Lookup(rows, b)
    decreases |b|
  {
    if b == [] {
      assert a + b == a;
    } else {
      assert (a + b)[..|a + b| - 1] == a + b[..|b| - 1];
      LookupAppend(rows, a, b[..|b| - 1]);
    }
  }

  /** A single hit for position `p` yields the row of id `p + 1` with the
      hit's distance, or nothing when the table has no such row. */
  lemma LookupOne(rows: map<int, string>, h: Hit)
    ensures Lookup(rows, [h]) ==
            (if h.position + 1 in rows then [SearchResult(h.position + 1, rows[h.position + 1], h.distance)] else [])
  {
    assert [h][..0] == [];
  }

  /** Every result is a row of the table, carrying the row's own id and
      text, and comes from some hit whose position is one less than the id;
      there are at most as many results as hits. */
  lemma {:induction false} LookupSound(rows: map<int, string>, hits: seq<Hit>)
    ensures |Lookup(rows, hits)| <= |hits|
    ensures forall q :: 0 <= q < |Lookup(rows, hits)| ==>
              var r := Lookup(rows, hits)[q];
              r.id in rows && r.text == rows[r.id] &&
              exists h :: h in hits && h.position + 1 == r.id && h.distance == r.distance
  {
    if hits != [] {
      var init := hits[..|hits| - 1];
      LookupSound(rows, init);
      forall h | h in init
        ensures h in hits
      {
      }
    }
  }

  /** Every hit whose id is in the table is reported. */
  lemma {:induction false} LookupComplete(rows: map<int, string>, hits: seq<Hit>)
    ensures forall h :: h in hits && h.position + 1 in rows ==>
              SearchResult(h.position + 1, rows[h.position + 1], h.distance) in Lookup(rows, hits)
  {
    if hits != [] {
      var init := hits[..|hits| - 1];
      LookupComplete(rows, init);
      assert hits == init + [hits[|hits| - 1]];
    }
  }

  /** FAISS pads a short answer with position -1; with ids starting at 1 a
      padding hit never yields a result. */
  lemma LookupSkipsPadding(rows: map<int, string>, hits: seq<Hit>, h: Hit)
    requires forall id :: id in rows ==> id >= 1
    requires h.position < 0
    ensures Lookup(rows, hits + [h]) == Lookup(rows, hits)
  {
    LookupAppend(rows, hits, [h]);
    LookupOne(rows, h);
  }

  /** The search fails exactly when the query could not be embedded;
      otherwise it returns at most as many results as the index returned
      hits, hence at most `k` when the index keeps to its contract. */
  lemma SearchOutcome(rows: map<int, string>, index: seq<Vector>, query: string, k: int,
                      embedder: seq<string> -> EmbedAnswer, nearest: NearestSearch)
    requires forall v :: |nearest(index, v, k)| <= k
    ensures Search(rows, index, query, k, embedder, nearest).Failure? <==> GetEmbeddings(embedder([query])) == []
    ensures Search(rows, index, query, k, embedder, nearest).Success? ==>
              |Search(rows, index, query, k, embedder, nearest).value| <= k
  {
    var embedded := GetEmbeddings(embedder([query]));
    if embedded != [] {
      LookupSound(rows, nearest(index, embedded[0], k));
    }
  }

  class TextVectorizer {
    /** `self.index`: the vectors added to the FAISS index, in order. */
    var index: seq<Vector>
    /** The `ai_context` table the vectorizer connects to: id to text. */
    var rows: map<int, string>
    /** The table's next auto-increment id. */
    var nextId: int

    /** Every id in the table was handed out by the auto-increment counter. */
    ghost predicate Valid()
      reads this
    {
      nextId >= 1 && forall id :: id in rows ==> 1 <= id < nextId
    }

    /** `TextVectorizer(config_path)`: a new, empty index, over the table as
        it currently stands. */
    constructor (table: map<int, string>, autoIncrement: int)
      requires autoIncrement >= 1 && forall id :: id in table ==> 1 <= id < autoIncrement
      ensures Valid()
      ensures index == [] && rows == table && nextId == autoIncrement
    {
      index := [];
      rows := table;
      nextId := autoIncrement;
    }

    /** `setup_database`: the table is dropped and created again, so it is
        empty and, with the schema's AUTO_INCREMENT id at its default start,
        its ids start over at 1. */
    method SetupDatabase()
      modifies this
      ensures Valid()
      ensures rows == map[] && nextId == 1 && index == old(index)
    {
      rows := map[];
      nextId := 1;
    }

    /** `INSERT INTO ai_context (text) VALUES (%s)` and `cursor.lastrowid`. */
    method InsertRow(text: string) returns (id: int)
      requires Valid()
      modifies this
      ensures Valid()
      ensures id == old(nextId) && id !in old(rows)
      ensures rows == old(rows)[id := text] && nextId == id + 1 && index == old(index)
    {
      id := nextId;
      rows := rows[id := text];
      nextId := nextId + 1;
    }

    /** `insert_texts_from_file`: one row per non-blank line, in file order,
        holding the stripped line; the records pair each text with the id
        its own insert was given. */
    method InsertTextsFromFile(lines: seq<string>) returns (records: seq<Record>)
      requires Valid()
      modifies this
      ensures Valid()
      ensures records == Numbered(NonBlankLines(lines), old(nextId))
      ensures rows == old(rows) + RowsOf(records)
      ensures nextId == old(nextId) + |records|
      ensures index == old(index)
    {
      ghost var table, first := rows, nextId;
      records := [];
      var j := 0;
      while j < |lines|
        invariant 0 <= j <= |lines|
        invariant Valid()
        invariant records == Numbered(NonBlankLines(lines[..j]), first)
        invariant rows == table + RowsOf(records) && nextId == first + |records|
        invariant index == old(index)
      {
        records := IngestLine(lines, j, table, first, records);
        j := j + 1;
      }
      assert lines[..j] == lines;
    }

    /** The body of `insert_texts_from_file`'s loop for line `j`: the line
        is stripped and inserted unless nothing is left of it. */
    method IngestLine(lines: seq<string>, j: nat, ghost table: map<int, string>, ghost first: int, records: seq<Record>)
      returns (extended: seq<Record>)
      requires j < |lines|
      requires Valid() && rows == table + RowsOf(records) && nextId == first + |records|
      requires records == Numbered(NonBlankLines(lines[..j]), first)
      modifies this
      ensures Valid() && rows == table + RowsOf(extended) && nextId == first + |extended|
      ensures extended == Numbered(NonBlankLines(lines[..j + 1]), first)
      ensures index == old(index)
    {
      var text := Strip(lines[j]);
      if text != "" {
        var id := InsertRow(text);
        extended := records + [Record(id, text)];
        RowsOfSnoc(table, records, Record(id, text));
        assert extended == records + [Record(first + |records|, text)];
      } else {
        extended := records;
        assert extended == records + [];
      }
      IngestStep(lines, j, first, records, text, extended);
    }

    /** `process_and_store(text_records, batch_size)`: the batches are the
        slices at offsets 0, batch_size, 2 * batch_size, ...; each batch's
        vectors are appended to the index unless its embedding call returned
        none. `range` with a step of 0 raises; a negative step visits nothing. */
    method ProcessAndStore(records: seq<Record>, batchSize: int, service: EmbeddingService) returns (raised: bool)
      modifies this
      ensures raised <==> batchSize == 0
      ensures index == old(index) + (if batchSize > 0 then StoredFrom(records, batchSize, service, 0, 0) else [])
      ensures rows == old(rows) && nextId == old(nextId)
    {
      if batchSize == 0 {
        raised := true;
        return;
      }
      raised := false;
      if batchSize > 0 {
        StoreBatches(records, batchSize, service);
      }
    }

    /** The `for` loop of `process_and_store` for a positive step. */
    method StoreBatches(records: seq<Record>, batchSize: nat, service: EmbeddingService)
      requires batchSize > 0
      modifies this
      ensures index == old(index) + StoredFrom(records, batchSize, service, 0, 0)
      ensures rows == old(rows) && nextId == old(nextId)
    {
      var i: nat := 0;
      var call: nat := 0;
      ghost var total := index + StoredFrom(records, batchSize, service, 0, 0);
      while i < |records|
        invariant total == index + StoredFrom(records, batchSize, service, i, call)
        invariant rows == old(rows) && nextId == old(nextId)
        decreases |records| - i
      {
        var batch := records[i..Min(i + batchSize, |records|)];
        var embeddings := GetEmbeddings(service(call, Texts(batch)));
        StoreStep(total, index, embeddings, records, batchSize, service, i, call);
        if embeddings != [] {
          index := index + embeddings;
        }
        i, call := i + batchSize, call + 1;
      }
      assert index + [] == index;
    }

    /** `search_similar(query, k)`: the rows of the positions `index.search`
        returns, in the order it returns them. */
    method SearchSimilar(query: string, k: int, embedder: seq<string> -> EmbedAnswer, nearest: NearestSearch)
      returns (found: Result<seq<SearchResult>>, log: seq<Event>)
      ensures found == Search(rows, index, query, k, embedder, nearest)
      ensures log == EmbedLog(embedder([query]))
    {
      var answer := embedder([query]);
      log := EmbedLog(answer);
      var embedded := GetEmbeddings(answer);
      if embedded == [] {
        return Failure("list index out of range"), log;
      }
      var hits := nearest(index, embedded[0], k);
      var results: seq<SearchResult> := [];
      var j := 0;
      while j < |hits|
        invariant 0 <= j <= |hits|
        invariant results == Lookup(rows, hits[..j])
      {
        assert hits[..j + 1][..j] == hits[..j];
        var mysqlId := hits[j].position + 1;
        if mysqlId in rows {
          results := results + [SearchResult(mysqlId, rows[mysqlId], hits[j].distance)];
        }
        j := j + 1;
      }
      assert hits[..j] == hits;
      found := Success(results);
    }
  }
}
