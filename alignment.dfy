/** How `process_and_store` couples index positions to table ids.

    `search_similar` reads position `p` of the index as table id `p + 1`.
    That reading is right only when the table's ids start at 1 and every
    batch's embedding call succeeded: a batch whose call returns nothing is
    skipped, and every later vector lands `|batch|` positions earlier than
    its record. */
module Alignment {
  import opened Text
  import opened Services
  import opened Vectorizer

  /** An embedding model, one vector per text. */
  type Embedding = string -> Vector

  /** What a call that succeeds returns: one vector per text, in input
      order. */
  function EmbedAll(embed: Embedding, texts: seq<string>): (vs: seq<Vector>)
    ensures |vs| == |texts|
  {
    seq(|texts|, j requires 0 <= j < |texts| => embed(texts[j]))
  }

  /** Embedding call number `c` answers every list of texts as `embed`
      would. */
  ghost predicate Faithful(service: EmbeddingService, embed: Embedding, c: nat)
  {
    forall ts :: service(c, ts) == Embedded(EmbedAll(embed, ts))
  }

  /** Embedding call number `c` returns no vectors, whatever it is asked. */
  ghost predicate Dropped(service: EmbeddingService, c: nat)
  {
    forall ts :: GetEmbeddings(service(c, ts)) == []
  }

  /** `vs` holds, position by position, the embeddings of the texts of
      `records[from..]`. */
  ghost predicate EmbedsFrom(vs: seq<Vector>, records: seq<Record>, from: nat, embed: Embedding)
    requires from <= |records|
  {
    |vs| == |records| - from && forall p :: 0 <= p < |vs| ==> vs[p] == embed(records[from + p].text)
  }

  /** Position `p`, which `search_similar` reads as id `p + 1`, holds the
      embedding of the text of row `p + shift + 1`. */
  ghost predicate ReadsAt(index: seq<Vector>, rows: map<int, string>, embed: Embedding, p: int, shift: int)
    requires 0 <= p < |index|
  {
    p + shift + 1 in rows && index[p] == embed(rows[p + shift + 1])
  }

  /** Every position in `[from, upto)` holds the embedding of the row
      `shift` ids after the one it is read as. */
  ghost predicate ReadsShifted(index: seq<Vector>, rows: map<int, string>, embed: Embedding,
                               from: int, upto: int, shift: int)
  {
    forall p :: from <= p < upto && 0 <= p < |index| ==> ReadsAt(index, rows, embed, p, shift)
  }

  /** Row `q + 1` holds the text of record `q`. */
  ghost predicate RowHolds(rows: map<int, string>, records: seq<Record>, q: int)
    requires 0 <= q < |records|
  {
    q + 1 in rows && rows[q + 1] == records[q].text
  }

  function Flatten(batches: seq<seq<Record>>): seq<Record>
  {
    if batches == [] then [] else batches[0] + Flatten(batches[1..])
  }

  // Batching

  /** The batches cover `records[i..]` exactly once, in order. */
  lemma {:induction false} BatchesCover(records: seq<Record>, size: nat, i: nat)
    requires size > 0 && i <= |records|
    ensures Flatten(Batches(records, size, i)) == records[i..]
    decreases |records| - i
  {
    if i < |records| {
      var m := Min(i + size, |records|);
      var bs := Batches(records, size, i);
      var rest := Batches(records, size, i + size);
      assert bs == [records[i..m]] + rest;
      assert bs[1..] == rest;
      if i + size < |records| {
        BatchesCover(records, size, i + size);
      }
      assert Flatten(rest) == records[m..];
      assert Flatten(bs) == records[i..m] + Flatten(rest);
      assert records[i..] == records[i..m] + records[m..];
    }
  }

  /** Batch `k` is non-empty and holds at most `size` records, exactly
      `size` unless it is the last. */
  ghost predicate BatchFits(bs: seq<seq<Record>>, k: int, size: nat)
    requires 0 <= k < |bs|
  {
    0 < |bs[k]| <= size && (k < |bs| - 1 ==> |bs[k]| == size)
  }

  /** Every batch is non-empty and holds `size` records, except that the
      last may hold fewer. */
  lemma {:induction false} BatchSizes(records: seq<Record>, size: nat, i: nat)
    requires size > 0
    ensures forall k :: 0 <= k < |Batches(records, size, i)| ==> BatchFits(Batches(records, size, i), k, size)
    decreases |records| - i
  {
    if i < |records| {
      BatchSizes(records, size, i + size);
      var bs := Batches(records, size, i);
      var rest := Batches(records, size, i + size);
      assert bs == [BatchAt(records, i, size)] + rest;
      forall k | 0 <= k < |bs|
        ensures BatchFits(bs, k, size)
      {
        if k > 0 {
          assert BatchFits(rest, k - 1, size);
          assert bs[k] == rest[k - 1];
        } else if i + size >= |records| {
          assert rest == [];
        }
      }
    }
  }

  /** Batch `k` is the slice starting at offset `i + k * size`. */
  lemma BatchOffsets(records: seq<Record>, size: nat, i: nat, k: nat)
    requires size > 0
    requires k < |Batches(records, size, i)|
    ensures i + k * size < |records|
    ensures Batches(records, size, i)[k] == records[i + k * size..Min(i + k * size + size, |records|)]
  {
    BatchOffsetFrom(size, i, 0, k);
    assert i + (k - 0) * size == i + k * size;
    BatchesAt(records, size, i, 0, k, i + k * size);
  }

  /** `BatchOffsets` for an offset `s` given by `BatchOffset`: batch
      `d - b` from offset `i` is the slice at `s`. */
  lemma {:induction false} BatchesAt(records: seq<Record>, size: nat, i: nat, b: nat, d: nat, s: nat)
    requires size > 0 && b <= d
    requires BatchOffset(size, i, b, d, s) && d - b < |Batches(records, size, i)|
    ensures s < |records| && Batches(records, size, i)[d - b] == records[s..Min(s + size, |records|)]
    decreases d - b
  {
    var bs := Batches(records, size, i);
    assert i < |records| && bs == [BatchAt(records, i, size)] + Batches(records, size, i + size);
    if b < d {
      assert bs[d - b] == Batches(records, size, i + size)[d - (b + 1)];
      BatchesAt(records, size, i + size, b + 1, d, s);
    }
  }

  // Storing

  /** The vectors a sequence of batches contributes, batch `k` being
      embedding call number `b + k`: each batch adds every vector its call
      returns, after those of the batches before it, or nothing. */
  function PerBatch(batches: seq<seq<Record>>, service: EmbeddingService, b: nat): seq<Vector>
  {
    if batches == [] then []
    else GetEmbeddings(service(b, Texts(batches[0]))) + PerBatch(batches[1..], service, b + 1)
  }

  /** What `process_and_store` adds is the batch-by-batch contribution of
      the batches it visits. */
  lemma {:induction false} StoredPerBatch(records: seq<Record>, size: nat, service: EmbeddingService, i: nat, b: nat)
    requires size > 0
    ensures StoredFrom(records, size, service, i, b) == PerBatch(Batches(records, size, i), service, b)
    decreases |records| - i
  {
    if i < |records| {
      var bs := Batches(records, size, i);
      assert bs == [BatchAt(records, i, size)] + Batches(records, size, i + size);
      assert bs[1..] == Batches(records, size, i + size);
      StoredPerBatch(records, size, service, i + size, b + 1);
      StoredStep(records, size, service, i, b);
      assert PerBatch(bs, service, b) == GetEmbeddings(service(b, Texts(bs[0]))) + PerBatch(bs[1..], service, b + 1);
    }
  }

  /** When every call from number `b` on succeeds, the vectors stored for
      the batches from offset `i` on are the embeddings of
      `records[i..]`, in record order. */
  lemma {:induction false} StoredAllFaithful(records: seq<Record>, size: nat, service: EmbeddingService,
                                             embed: Embedding, i: nat, b: nat)
    requires size > 0 && i <= |records|
    requires forall c :: b <= c ==> Faithful(service, embed, c)
    ensures EmbedsFrom(StoredFrom(records, size, service, i, b), records, i, embed)
    decreases |records| - i
  {
    if i < |records| {
      var m := Min(i + size, |records|);
      StoredBatch(records, size, service, embed, i, b);
      var head := GetEmbeddings(service(b, Texts(BatchAt(records, i, size))));
      var rest := StoredFrom(records, size, service, i + size, b + 1);
      if i + size < |records| {
        StoredAllFaithful(records, size, service, embed, i + size, b + 1);
      } else {
        assert rest == [];
      }
      assert EmbedsFrom(rest, records, m, embed);
      assert StoredFrom(records, size, service, i, b) == head + rest;
    }
  }

  /** One successful call stores the embeddings of its batch. */
  lemma StoredBatch(records: seq<Record>, size: nat, service: EmbeddingService, embed: Embedding, i: nat, b: nat)
    requires i < |records|
    requires Faithful(service, embed, b)
    ensures EmbedsFrom(GetEmbeddings(service(b, Texts(BatchAt(records, i, size)))), records[..Min(i + size, |records|)], i, embed)
  {
    var batch := BatchAt(records, i, size);
    assert service(b, Texts(batch)) == Embedded(EmbedAll(embed, Texts(batch)));
  }

  /** `stored`, the vectors for `records[i..]`, lacks those of the dropped
      records `records[s..e]`: before them each vector is that of its own
      record, after them that of the record `e - s` places further on. */
  ghost predicate ShiftedFrom(stored: seq<Vector>, records: seq<Record>, i: nat, s: nat, e: nat, embed: Embedding)
    requires i <= s <= e <= |records|
  {
    && |stored| == |records| - i - (e - s)
    && (forall p :: 0 <= p < s - i ==> stored[p] == embed(records[i + p].text))
    && (forall p :: s - i <= p < |stored| ==> stored[p] == embed(records[i + p + (e - s)].text))
  }

  /** When call number `d` returns nothing and every other call from `b` on
      succeeds, the vectors before offset `s = i + (d - b) * size` are those
      of their records, the dropped batch `records[s..e]` has none, and every
      later vector sits `e - s` positions before its record. */
  lemma {:induction false} StoredOneDropped(records: seq<Record>, size: nat, service: EmbeddingService,
                                            embed: Embedding, d: nat, i: nat, b: nat, s: nat)
    requires size > 0 && b <= d
    requires BatchOffset(size, i, b, d, s) && i <= s < |records|
    requires Dropped(service, d)
    requires forall c :: b <= c && c != d ==> Faithful(service, embed, c)
    ensures ShiftedFrom(StoredFrom(records, size, service, i, b), records, i, s, Min(s + size, |records|), embed)
    decreases d - b
  {
    if b == d {
      DroppedHere(records, size, service, embed, d, s);
      var e := Min(s + size, |records|);
      var stored := StoredFrom(records, size, service, i, b);
      assert forall p :: 0 <= p < |stored| ==> stored[p] == embed(records[e + p].text);
    } else {
      BatchOffsetAfter(size, i + size, b + 1, d, s);
      StoredOneDropped(records, size, service, embed, d, i + size, b + 1, s);
      StoredBatch(records, size, service, embed, i, b);
      SkippedAfter(records, size, service, embed, i, b, s);
    }
  }

  /** Call number `d` is the one for the batch at offset `s`, when call
      number `b` is the one for the batch at offset `i`. */
  ghost predicate BatchOffset(size: nat, i: nat, b: nat, d: nat, s: nat)
    decreases d - b
  {
    if b >= d then b == d && s == i else BatchOffset(size, i + size, b + 1, d, s)
  }

  lemma {:induction false} BatchOffsetFrom(size: nat, i: nat, b: nat, d: nat)
    requires b <= d
    ensures BatchOffset(size, i, b, d, i + (d - b) * size)
    decreases d - b
  {
    if b < d {
      BatchOffsetFrom(size, i + size, b + 1, d);
      assert i + size + (d - (b + 1)) * size == i + (d - b) * size;
    }
  }

  lemma BatchOffsetAfter(size: nat, i: nat, b: nat, d: nat, s: nat)
    requires BatchOffset(size, i, b, d, s)
    ensures i <= s
    decreases d - b
  {
    if b < d {
      BatchOffsetAfter(size, i + size, b + 1, d, s);
    }
  }

  /** The dropped batch itself: nothing is stored for it, and the batches
      after it are stored faithfully. */
  lemma DroppedHere(records: seq<Record>, size: nat, service: EmbeddingService,
                    embed: Embedding, d: nat, s: nat)
    requires size > 0 && s < |records|
    requires Dropped(service, d)
    requires forall c :: d < c ==> Faithful(service, embed, c)
    ensures EmbedsFrom(StoredFrom(records, size, service, s, d), records, Min(s + size, |records|), embed)
  {
    var rest := StoredFrom(records, size, service, s + size, d + 1);
    assert GetEmbeddings(service(d, Texts(BatchAt(records, s, size)))) == [];
    assert StoredFrom(records, size, service, s, d) == rest;
    if s + size < |records| {
      StoredAllFaithful(records, size, service, embed, s + size, d + 1);
    } else {
      assert rest == [];
    }
  }

  /** A faithful batch before the dropped one puts its vectors in front of
      the shifted ones. */
  lemma SkippedAfter(records: seq<Record>, size: nat, service: EmbeddingService,
                     embed: Embedding, i: nat, b: nat, s: nat)
    requires size > 0
    requires i + size <= s < |records|
    requires EmbedsFrom(GetEmbeddings(service(b, Texts(BatchAt(records, i, size)))), records[..Min(i + size, |records|)], i, embed)
    requires ShiftedFrom(StoredFrom(records, size, service, i + size, b + 1), records, i + size, s, Min(s + size, |records|), embed)
    ensures ShiftedFrom(StoredFrom(records, size, service, i, b), records, i, s, Min(s + size, |records|), embed)
  {
    var head := GetEmbeddings(service(b, Texts(BatchAt(records, i, size))));
    var rest := StoredFrom(records, size, service, i + size, b + 1);
    var stored := StoredFrom(records, size, service, i, b);
    assert stored == head + rest;
    assert |head| == size;
    forall p | 0 <= p < |stored|
      ensures p < s - i ==> stored[p] == embed(records[i + p].text)
      ensures s - i <= p ==> stored[p] == embed(records[i + p + (Min(s + size, |records|) - s)].text)
    {
      if p < size {
        assert stored[p] == head[p];
      } else {
        assert stored[p] == rest[p - size];
      }
    }
  }

  // The coupling `search_similar` relies on

  /** A freshly set-up table filled by `insert_texts_from_file` and an empty
      index filled by `process_and_store` with every embedding call
      succeeding: the table's ids are exactly the positions of the index
      plus one, and position `p` holds the embedding of the text
      `search_similar` reads for it, that of id `p + 1`. */
  lemma AlignedWhenAllSucceed(texts: seq<string>, size: nat, service: EmbeddingService, embed: Embedding)
    requires size > 0
    requires forall c :: Faithful(service, embed, c)
    ensures var records := Numbered(texts, 1);
            var rows := map[] + RowsOf(records);
            var index := [] + StoredFrom(records, size, service, 0, 0);
            && (forall id :: id in rows <==> 1 <= id <= |index|)
            && ReadsShifted(index, rows, embed, 0, |index|, 0)
  {
    var records := Numbered(texts, 1);
    var rows := map[] + RowsOf(records);
    var index := [] + StoredFrom(records, size, service, 0, 0);
    assert rows == RowsOf(records);
    assert index == StoredFrom(records, size, service, 0, 0);
    RowsOfNumbered(texts, 1);
    StoredAllFaithful(records, size, service, embed, 0, 0);
    RowsAt(texts);
    assert ShiftedFrom(index, records, 0, |index|, |index|, embed);
    ReadBack(index, rows, records, embed, |index|, 0);
  }

  /** The ingestion run of the vectorizer's `__main__`: set the table up,
      ingest the file, embed the records in batches of `size`. When every
      embedding call succeeds, the table's ids are exactly the index
      positions plus one, and each position holds the embedding of the row
      `search_similar` reads for it. Saving the index is not modelled. */
  method IngestAndIndex(table: map<int, string>, autoIncrement: int, lines: seq<string>, size: nat,
                        service: EmbeddingService, ghost embed: Embedding)
    returns (v: TextVectorizer)
    requires autoIncrement >= 1 && forall id :: id in table ==> 1 <= id < autoIncrement
    requires size > 0
    requires forall c :: Faithful(service, embed, c)
    ensures fresh(v) && v.Valid()
    ensures forall id :: id in v.rows <==> 1 <= id <= |v.index|
    ensures ReadsShifted(v.index, v.rows, embed, 0, |v.index|, 0)
  {
    v := new TextVectorizer(table, autoIncrement);
    v.SetupDatabase();
    var records := v.InsertTextsFromFile(lines);
    var raised := v.ProcessAndStore(records, size, service);
    AlignedWhenAllSucceed(NonBlankLines(lines), size, service, embed);
  }

  /** With ids starting at 1 and batch `d` dropped, the positions before
      `d * size` are read correctly, and every position from `d * size` on
      is read as the id of a record `shift` places before the one whose
      embedding it holds, `shift` being the size of the dropped batch. */
  lemma ShiftedAfterDrop(texts: seq<string>, size: nat, service: EmbeddingService, embed: Embedding, d: nat)
    requires size > 0
    requires d * size < |texts|
    requires Dropped(service, d)
    requires forall c :: c != d ==> Faithful(service, embed, c)
    ensures var index := StoredFrom(Numbered(texts, 1), size, service, 0, 0);
            var shift := Min(d * size + size, |texts|) - d * size;
            && |index| == |texts| - shift
            && ReadsShifted(index, RowsOf(Numbered(texts, 1)), embed, 0, d * size, 0)
            && ReadsShifted(index, RowsOf(Numbered(texts, 1)), embed, d * size, |index|, shift)
  {
    FirstBatchOffset(size, d);
    ShiftedAfterDropAt(texts, size, service, embed, d, d * size);
  }

  /** Batch `d` of a file starts at offset `d * size`. */
  lemma FirstBatchOffset(size: nat, d: nat)
    ensures BatchOffset(size, 0, 0, d, d * size)
  {
    BatchOffsetFrom(size, 0, 0, d);
    assert 0 + (d - 0) * size == d * size;
  }

  /** `ShiftedAfterDrop` for the offset `s` of the dropped batch. */
  lemma ShiftedAfterDropAt(texts: seq<string>, size: nat, service: EmbeddingService, embed: Embedding, d: nat, s: nat)
    requires size > 0
    requires BatchOffset(size, 0, 0, d, s) && s < |texts|
    requires Dropped(service, d)
    requires forall c :: c != d ==> Faithful(service, embed, c)
    ensures var index := StoredFrom(Numbered(texts, 1), size, service, 0, 0);
            var shift := Min(s + size, |texts|) - s;
            && |index| == |texts| - shift
            && ReadsShifted(index, RowsOf(Numbered(texts, 1)), embed, 0, s, 0)
            && ReadsShifted(index, RowsOf(Numbered(texts, 1)), embed, s, |index|, shift)
  {
    var records := Numbered(texts, 1);
    var rows := RowsOf(records);
    var index := StoredFrom(records, size, service, 0, 0);
    var shift := Min(s + size, |records|) - s;
    assert ShiftedFrom(index, records, 0, s, s + shift, embed) by {
      StoredOneDropped(records, size, service, embed, d, 0, 0, s);
    }
    assert forall q :: 0 <= q < |records| ==> RowHolds(rows, records, q) by {
      RowsAt(texts);
    }
    ReadBack(index, rows, records, embed, s, shift);
  }

  /** Reading the index back through the table: position `p` holds the
      embedding of record `p` before `s` and of record `p + shift` from `s`
      on, and row `q + 1` holds record `q`. */
  lemma ReadBack(index: seq<Vector>, rows: map<int, string>, records: seq<Record>, embed: Embedding, s: nat, shift: nat)
    requires s + shift <= |records|
    requires forall q :: 0 <= q < |records| ==> RowHolds(rows, records, q)
    requires ShiftedFrom(index, records, 0, s, s + shift, embed)
    ensures ReadsShifted(index, rows, embed, 0, s, 0)
    ensures ReadsShifted(index, rows, embed, s, |index|, shift)
  {
    forall p | 0 <= p < s && 0 <= p < |index|
      ensures ReadsAt(index, rows, embed, p, 0)
    {
      assert RowHolds(rows, records, p);
    }
    forall p | s <= p < |index| && 0 <= p < |index|
      ensures ReadsAt(index, rows, embed, p, shift)
    {
      assert RowHolds(rows, records, p + shift);
    }
  }

  /** Row `q + 1` of a table filled from 1 holds record `q`. */
  lemma RowsAt(texts: seq<string>)
    ensures forall q :: 0 <= q < |texts| ==> RowHolds(RowsOf(Numbered(texts, 1)), Numbered(texts, 1), q)
  {
    var records := Numbered(texts, 1);
    var rows := RowsOf(records);
    RowsOfNumbered(texts, 1);
    NumberedAt(texts, 1);
    forall q | 0 <= q < |texts|
      ensures RowHolds(rows, records, q)
    {
      assert records[q].text == texts[q];
      assert 1 + q in rows && rows[1 + q] == texts[q];
    }
  }

  /** A file of three lines A, B, C stored one record per batch with the
      second embedding call failing: the search reads position 1 as id 2,
      the row holding B, but the vector there is the embedding of C. */
  lemma DroppedBatchMisaligns(lines: seq<string>, service: EmbeddingService, embed: Embedding)
    requires lines == ["A", "B", "C"]
    requires Dropped(service, 1)
    requires forall c :: c != 1 ==> Faithful(service, embed, c)
    requires embed("B") != embed("C")
    ensures var records := Numbered(NonBlankLines(lines), 1);
            var rows := RowsOf(records);
            var index := StoredFrom(records, 1, service, 0, 0);
            && |index| == 2 && 2 in rows && rows[2] == "B" && index[1] == embed("C") && index[1] != embed(rows[2])
  {
    IngestThreeLines(lines);
    var records := Numbered(lines, 1);
    var rows := RowsOf(records);
    var index := StoredFrom(records, 1, service, 0, 0);
    ShiftedAfterDrop(lines, 1, service, embed, 1);
    RowsAt(lines);
    NumberedAt(lines, 1);
    assert ReadsAt(index, rows, embed, 1, 1);
    assert RowHolds(rows, records, 1);
    assert RowHolds(rows, records, 2);
  }

  lemma IngestThreeLines(lines: seq<string>)
    requires lines == ["A", "B", "C"]
    ensures NonBlankLines(lines) == lines
  {
    StripOne('A');
    StripOne('B');
    StripOne('C');
    NonBlankLine("A");
    NonBlankLine("B");
    NonBlankLine("C");
    assert lines == ["A"] + ["B"] + ["C"];
    NonBlankLinesAppend(["A"] + ["B"], ["C"]);
    NonBlankLinesAppend(["A"], ["B"]);
  }

  lemma StripOne(c: char)
    requires !IsSpace(c)
    ensures Strip([c]) == [c]
  {
    assert "" + [c] + "" == [c];
    StripPadded("", [c], "");
  }
}
