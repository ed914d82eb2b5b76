/** The dump ingester's state and its driver loop: the four record buffers
    flushed in batches, the progress statistics behind the running mean of the
    line size, and the error log. The database is modelled by the sequence of
    batches each collection has received. */
module Ingest {
  import opened Base
  import opened Seqs
  import opened Taxonomy
  import opened Entities
  import opened ParseData

  /** `BATCH_SIZE`: the number of records written in one batch. */
  const BatchSize: nat := 100

  /** One line of the dump: its length, and the record it decodes to, or
      `None` when decoding it raises a JSON decode error. */
  datatype Line = Line(size: nat, decoded: Option<RawEntity>)

  /** One entry of the error log: the entity and the exception. */
  datatype ErrorRecord = ErrorRecord(entity: string, error: Failure)

  function ItemsOf(ds: seq<Derived>): (r: seq<ItemRecord>)
    ensures |r| == |ds|
  {
    if ds == [] then [] else ItemsOf(ds[..|ds| - 1]) + [ds[|ds| - 1].item]
  }

  function ObjectsOf(ds: seq<Derived>): (r: seq<ObjectsRecord>)
    ensures |r| == |ds|
  {
    if ds == [] then [] else ObjectsOf(ds[..|ds| - 1]) + [ds[|ds| - 1].objects]
  }

  function LiteralsOf(ds: seq<Derived>): (r: seq<LiteralsRecord>)
    ensures |r| == |ds|
  {
    if ds == [] then [] else LiteralsOf(ds[..|ds| - 1]) + [ds[|ds| - 1].literals]
  }

  function TypesOf(ds: seq<Derived>): (r: seq<TypesRecord>)
    ensures |r| == |ds|
  {
    if ds == [] then [] else TypesOf(ds[..|ds| - 1]) + [ds[|ds| - 1].types]
  }

  /** `buffer`: the records waiting for the next write, one list per collection. */
  datatype Buffer = Buffer(items: seq<ItemRecord>, objects: seq<ObjectsRecord>,
                           literals: seq<LiteralsRecord>, types: seq<TypesRecord>)

  /** The batches each collection has received through `insert_many`, in order. */
  datatype Written = Written(items: seq<seq<ItemRecord>>, objects: seq<seq<ObjectsRecord>>,
                             literals: seq<seq<LiteralsRecord>>, types: seq<seq<TypesRecord>>)

  const Empty: Buffer := Buffer([], [], [], [])

  /** `buffer[key].append(join[key])` for every key. */
  function Append(b: Buffer, d: Derived): Buffer {
    Buffer(b.items + [d.item], b.objects + [d.objects], b.literals + [d.literals], b.types + [d.types])
  }

  /** A collection after `flush_buffer`: the buffer, when non-empty, as one more batch. */
  function WriteBatch<T>(batches: seq<seq<T>>, buffer: seq<T>): seq<seq<T>> {
    if |buffer| > 0 then batches + [buffer] else batches
  }

  /** The collections after `flush_buffer`. */
  function Flush(b: Buffer, w: Written): Written {
    Written(WriteBatch(w.items, b.items), WriteBatch(w.objects, b.objects),
            WriteBatch(w.literals, b.literals), WriteBatch(w.types, b.types))
  }

  /** The written batches followed by the buffer are the records `all`, and
      every batch is non-empty and at most `BatchSize` long. */
  predicate Holds<T(==)>(inserted: seq<seq<T>>, buffer: seq<T>, all: seq<T>) {
    Concat(inserted) + buffer == all && Batched(inserted, BatchSize)
  }

  /** The collections and the buffer together hold the records of `ds`, in
      order, and the four buffers have the same length, at most `BatchSize`. */
  predicate Keeps(b: Buffer, w: Written, ds: seq<Derived>) {
    && |b.items| == |b.objects| == |b.literals| == |b.types| <= BatchSize
    && Holds(w.items, b.items, ItemsOf(ds))
    && Holds(w.objects, b.objects, ObjectsOf(ds))
    && Holds(w.literals, b.literals, LiteralsOf(ds))
    && Holds(w.types, b.types, TypesOf(ds))
  }

  /** Every batch holds exactly `BatchSize` records. */
  predicate Full<T>(batches: seq<seq<T>>) {
    forall k :: 0 <= k < |batches| ==> |batches[k]| == BatchSize
  }

  /** Every batch but the last holds exactly `BatchSize` records. */
  predicate FullButLast<T>(batches: seq<seq<T>>) {
    forall k :: 0 <= k < |batches| - 1 ==> |batches[k]| == BatchSize
  }

  predicate AllFull(w: Written) {
    Full(w.items) && Full(w.objects) && Full(w.literals) && Full(w.types)
  }

  /** Flattening one more batch appends it. */
  lemma ConcatSnoc<T>(batches: seq<seq<T>>, batch: seq<T>)
    ensures Concat(batches + [batch]) == Concat(batches) + batch
  {
    assert (batches + [batch])[..|batches|] == batches;
  }

  /** A record appended to a buffer is appended to the records held. */
  lemma AppendHolds<T>(inserted: seq<seq<T>>, buffer: seq<T>, all: seq<T>, x: T)
    requires Holds(inserted, buffer, all)
    ensures Holds(inserted, buffer + [x], all + [x])
  {
    assert Concat(inserted) + (buffer + [x]) == (Concat(inserted) + buffer) + [x];
  }

  /** Writing the buffer as one more batch keeps the records where they are. */
  lemma WriteHolds<T>(inserted: seq<seq<T>>, buffer: seq<T>, all: seq<T>)
    requires Holds(inserted, buffer, all) && |buffer| <= BatchSize
    ensures Holds(WriteBatch(inserted, buffer), [], all)
  {
    if |buffer| > 0 {
      ConcatSnoc(inserted, buffer);
    }
  }

  /** Appending the records of one more entity keeps them all in order. */
  lemma AppendKeeps(b: Buffer, w: Written, ds: seq<Derived>, d: Derived)
    requires Keeps(b, w, ds) && |b.items| < BatchSize
    ensures Keeps(Append(b, d), w, ds + [d])
  {
    assert (ds + [d])[..|ds|] == ds;
    AppendHolds(w.items, b.items, ItemsOf(ds), d.item);
    AppendHolds(w.objects, b.objects, ObjectsOf(ds), d.objects);
    AppendHolds(w.literals, b.literals, LiteralsOf(ds), d.literals);
    AppendHolds(w.types, b.types, TypesOf(ds), d.types);
  }

  /** Flushing loses no record and reorders none. */
  lemma FlushKeeps(b: Buffer, w: Written, ds: seq<Derived>)
    requires Keeps(b, w, ds)
    ensures Keeps(Empty, Flush(b, w), ds)
  {
    WriteHolds(w.items, b.items, ItemsOf(ds));
    WriteHolds(w.objects, b.objects, ObjectsOf(ds));
    WriteHolds(w.literals, b.literals, LiteralsOf(ds));
    WriteHolds(w.types, b.types, TypesOf(ds));
  }

  /** A flush of full buffers writes full batches only. */
  lemma FlushFull(b: Buffer, w: Written)
    requires AllFull(w) && |b.items| == |b.objects| == |b.literals| == |b.types| == BatchSize
    ensures AllFull(Flush(b, w))
  {
  }

  /** After the final flush every record is written, and every batch but the
      last of each collection is full. */
  lemma FinalFlush(b: Buffer, w: Written, ds: seq<Derived>)
    requires Keeps(b, w, ds) && AllFull(w)
    ensures Concat(Flush(b, w).items) == ItemsOf(ds) && Concat(Flush(b, w).objects) == ObjectsOf(ds)
    ensures Concat(Flush(b, w).literals) == LiteralsOf(ds) && Concat(Flush(b, w).types) == TypesOf(ds)
    ensures FullButLast(Flush(b, w).items) && FullButLast(Flush(b, w).objects)
    ensures FullButLast(Flush(b, w).literals) && FullButLast(Flush(b, w).types)
  {
    FlushKeeps(b, w, ds);
  }

  /** What the dump has produced after some lines: the records of every
      entity parsed, the error log, the sizes of the decoded lines, and whether
      the run stopped because an entity without `id` failed inside the
      handler as well. */
  datatype Progress = Progress(derived: seq<Derived>, log: seq<ErrorRecord>, sizes: seq<nat>, aborted: bool)

  /** One iteration of the driver loop on the line at position `i`: a line
      that does not decode is skipped; a decoded one is counted, then parsed,
      and a failure is logged unless the record has no `id`. */
  function Consumed(p: Progress, line: Line, i: nat, classes: Classes, sup: string -> seq<string>): Progress {
    if p.aborted then p
    else
      match line.decoded
      case None => p
      case Some(e) =>
        var counted := p.(sizes := p.sizes + [line.size]);
        match Transform(e, i, classes, sup)
        case Success(d) => counted.(derived := p.derived + [d])
        case Failure(err) =>
          if e.id.None? then counted.(aborted := true)
          else counted.(log := p.log + [ErrorRecord(e.id.value, err)])
  }

  /** The driver loop over the lines, by the line's position in the dump. */
  function Ingested(lines: seq<Line>, classes: Classes, sup: string -> seq<string>): Progress {
    if lines == [] then Progress([], [], [], false)
    else Consumed(Ingested(lines[..|lines| - 1], classes, sup), lines[|lines| - 1], |lines| - 1, classes, sup)
  }

  /** Once the run stops, later lines change nothing. */
  lemma {:induction false} AbortPersists(xs: seq<Line>, ys: seq<Line>, classes: Classes, sup: string -> seq<string>)
    requires xs <= ys && Ingested(xs, classes, sup).aborted
    ensures Ingested(ys, classes, sup) == Ingested(xs, classes, sup)
    decreases |ys|
  {
    if |ys| > |xs| {
      assert xs <= ys[..|ys| - 1];
      AbortPersists(xs, ys[..|ys| - 1], classes, sup);
    } else {
      assert xs == ys;
    }
  }

  /** A line that does not decode is skipped: nothing changes, not even the statistics. */
  lemma UndecodableLineSkipped(lines: seq<Line>, size: nat, classes: Classes, sup: string -> seq<string>)
    ensures Ingested(lines + [Line(size, None)], classes, sup) == Ingested(lines, classes, sup)
  {
    assert (lines + [Line(size, None)])[..|lines|] == lines;
  }

  /** The number of lines that decode. */
  function DecodedCount(lines: seq<Line>): nat {
    if lines == [] then 0
    else DecodedCount(lines[..|lines| - 1]) + (if lines[|lines| - 1].decoded.Some? then 1 else 0)
  }

  /** A decoded record without `id`: its failure cannot be logged. */
  predicate Anonymous(l: Line) {
    l.decoded.Some? && l.decoded.value.id.None?
  }

  /** One iteration counts a decoded line once and gives it exactly one
      outcome, and stops exactly on an anonymous record. */
  lemma ConsumedAccounts(p: Progress, line: Line, i: nat, classes: Classes, sup: string -> seq<string>)
    requires !p.aborted
    ensures Consumed(p, line, i, classes, sup).aborted <==> Anonymous(line)
    ensures !Anonymous(line) ==>
      var q := Consumed(p, line, i, classes, sup);
      && |q.sizes| == |p.sizes| + (if line.decoded.Some? then 1 else 0)
      && |q.derived| + |q.log| == |p.derived| + |p.log| + (if line.decoded.Some? then 1 else 0)
  {
    if Anonymous(line) {
      assert Transform(line.decoded.value, i, classes, sup).Failure?;
    }
  }

  /** The run stops exactly when some decoded line has no `id`. */
  lemma {:induction false} IngestedStops(lines: seq<Line>, classes: Classes, sup: string -> seq<string>)
    ensures Ingested(lines, classes, sup).aborted <==> exists k :: 0 <= k < |lines| && Anonymous(lines[k])
  {
    if lines != [] {
      var init := lines[..|lines| - 1];
      IngestedStops(init, classes, sup);
      assert forall k :: 0 <= k < |init| ==> init[k] == lines[k];
      var p := Ingested(init, classes, sup);
      if !p.aborted {
        ConsumedAccounts(p, lines[|lines| - 1], |lines| - 1, classes, sup);
      }
    }
  }

  /** Until the run stops, every decoded line is counted once and yields
      exactly one outcome, its records or one log entry; undecodable lines
      count for nothing. */
  lemma {:induction false} IngestedCounts(lines: seq<Line>, classes: Classes, sup: string -> seq<string>)
    requires !Ingested(lines, classes, sup).aborted
    ensures var p := Ingested(lines, classes, sup);
      |p.sizes| == DecodedCount(lines) && |p.derived| + |p.log| == |p.sizes|
  {
    if lines != [] {
      var init := lines[..|lines| - 1];
      var p := Ingested(init, classes, sup);
      assert !p.aborted;
      IngestedCounts(init, classes, sup);
      ConsumedAccounts(p, lines[|lines| - 1], |lines| - 1, classes, sup);
    }
  }

  /** One iteration adds at most one record set, that of the line it parsed. */
  lemma ConsumedDerived(p: Progress, line: Line, i: nat, classes: Classes, sup: string -> seq<string>)
    ensures var q := Consumed(p, line, i, classes, sup);
      q.derived == p.derived ||
      (line.decoded.Some? && Transform(line.decoded.value, i, classes, sup).Success? &&
       q.derived == p.derived + [Transform(line.decoded.value, i, classes, sup).value])
  {
  }

  /** One iteration adds at most one log entry, naming the record it failed to parse. */
  lemma ConsumedLog(p: Progress, line: Line, i: nat, classes: Classes, sup: string -> seq<string>)
    ensures var q := Consumed(p, line, i, classes, sup);
      q.log == p.log ||
      (line.decoded.Some? && line.decoded.value.id.Some? &&
       Transform(line.decoded.value, i, classes, sup).Failure? &&
       q.log == p.log + [ErrorRecord(line.decoded.value.id.value, Transform(line.decoded.value, i, classes, sup).error)])
  {
  }

  /** Every record set comes from a decoded line at its position. */
  lemma {:induction false} DerivedOrigin(lines: seq<Line>, classes: Classes, sup: string -> seq<string>, k: nat)
    requires k < |Ingested(lines, classes, sup).derived|
    ensures exists j :: (0 <= j < |lines| && lines[j].decoded.Some? &&
      Transform(lines[j].decoded.value, j, classes, sup) == Success(Ingested(lines, classes, sup).derived[k]))
  {
    var init := lines[..|lines| - 1];
    var p := Ingested(init, classes, sup);
    var j := |lines| - 1;
    var q := Ingested(lines, classes, sup);
    assert q == Consumed(p, lines[j], j, classes, sup);
    ConsumedDerived(p, lines[j], j, classes, sup);
    if k < |p.derived| {
      DerivedOrigin(init, classes, sup, k);
      var j' :| 0 <= j' < |init| && init[j'].decoded.Some? &&
        Transform(init[j'].decoded.value, j', classes, sup) == Success(p.derived[k]);
      assert lines[j'] == init[j'];
      assert q.derived[k] == p.derived[k];
    } else {
      assert q.derived[k] == Transform(lines[j].decoded.value, j, classes, sup).value;
    }
  }

  /** Every log entry names a decoded line whose record has that `id` and
      whose parse raised that exception. */
  lemma {:induction false} LogOrigin(lines: seq<Line>, classes: Classes, sup: string -> seq<string>, k: nat)
    requires k < |Ingested(lines, classes, sup).log|
    ensures exists j :: (0 <= j < |lines| && lines[j].decoded.Some? &&
      lines[j].decoded.value.id == Some(Ingested(lines, classes, sup).log[k].entity) &&
      Transform(lines[j].decoded.value, j, classes, sup) == Failure(Ingested(lines, classes, sup).log[k].error))
  {
    var init := lines[..|lines| - 1];
    var p := Ingested(init, classes, sup);
    var j := |lines| - 1;
    var q := Ingested(lines, classes, sup);
    assert q == Consumed(p, lines[j], j, classes, sup);
    ConsumedLog(p, lines[j], j, classes, sup);
    if k < |p.log| {
      LogOrigin(init, classes, sup, k);
      var j' :| 0 <= j' < |init| && init[j'].decoded.Some? &&
        init[j'].decoded.value.id == Some(p.log[k].entity) &&
        Transform(init[j'].decoded.value, j', classes, sup) == Failure(p.log[k].error);
      assert lines[j'] == init[j'];
      assert q.log[k] == p.log[k];
    } else {
      assert q.log[k] == ErrorRecord(lines[j].decoded.value.id.value, Transform(lines[j].decoded.value, j, classes, sup).error);
    }
  }

  /** One key of `flush_buffer`: a non-empty buffer is inserted as one batch. */
  method FlushKey<T>(batches: seq<seq<T>>, buffer: seq<T>) returns (r: seq<seq<T>>)
    ensures r == WriteBatch(batches, buffer)
  {
    r := batches;
    if |buffer| > 0 {
      r := r + [buffer];
    }
  }

  class Ingester {
    /** `buffer`. */
    var buffer: Buffer
    /** What the collections `items`, `objects`, `literals` and `types` have received. */
    var written: Written
    /** The entries written to the log collection. */
    var log: seq<ErrorRecord>
    /** `total_size_processed` and `num_entities_processed`. */
    var totalSize: nat
    var processed: nat
    /** Every record set parsed so far and every size counted so far. */
    ghost var derived: seq<Derived>
    ghost var sizes: seq<nat>

    /** The buffer and the collections together hold every record parsed,
        in order, and the statistics sum the counted sizes. */
    ghost predicate Buffered()
      reads this
    {
      Keeps(buffer, written, derived) && totalSize == Sum(sizes) && processed == |sizes|
    }

    /** Between two entities: the buffer has not reached `BatchSize` and every
        batch written so far is full. */
    ghost predicate Valid()
      reads this
    {
      Buffered() && |buffer.items| < BatchSize && AllFull(written)
    }

    /** The state at start-up: empty buffers, nothing written, no statistics. */
    constructor ()
      ensures Valid()
      ensures buffer == Empty && written == Written([], [], [], [])
      ensures log == [] && derived == [] && sizes == []
    {
      buffer := Empty;
      written := Written([], [], [], []);
      log := [];
      totalSize, processed := 0, 0;
      derived, sizes := [], [];
    }

    /** `update_average_size`: counts one more line and returns the mean line
        size so far. */
    method UpdateAverageSize(newSize: nat) returns (mean: real)
      requires Valid()
      modifies this
      ensures Valid()
      ensures sizes == old(sizes) + [newSize]
      ensures totalSize == old(totalSize) + newSize && processed == old(processed) + 1
      ensures mean == Sum(sizes) as real / |sizes| as real
      ensures buffer == old(buffer) && written == old(written) && log == old(log) && derived == old(derived)
    {
      assert (sizes + [newSize])[..|sizes|] == sizes;
      totalSize := totalSize + newSize;
      processed := processed + 1;
      sizes := sizes + [newSize];
      mean := totalSize as real / processed as real;
    }

    /** `flush_buffer`: each non-empty buffer is written as one batch and emptied. */
    method FlushBuffer()
      requires Buffered()
      modifies this
      ensures Buffered()
      ensures buffer == Empty && written == Flush(old(buffer), old(written))
      ensures log == old(log) && derived == old(derived) && sizes == old(sizes)
      ensures totalSize == old(totalSize) && processed == old(processed)
    {
      FlushKeeps(buffer, written, derived);
      var items := FlushKey(written.items, buffer.items);
      var objects := FlushKey(written.objects, buffer.objects);
      var literals := FlushKey(written.literals, buffer.literals);
      var types := FlushKey(written.types, buffer.types);
      written, buffer := Written(items, objects, literals, types), Empty;
    }

    /** The end of `parse_data`: the records of a parsed entity are appended
        to the four buffers, which are flushed once they hold `BatchSize` records. */
    method Enqueue(d: Derived)
      requires Valid()
      modifies this
      ensures Valid()
      ensures derived == old(derived) + [d]
      ensures |old(buffer.items)| + 1 < BatchSize ==> buffer == Append(old(buffer), d) && written == old(written)
      ensures |old(buffer.items)| + 1 == BatchSize ==>
        buffer == Empty && written == Flush(Append(old(buffer), d), old(written))
      ensures log == old(log) && sizes == old(sizes)
      ensures totalSize == old(totalSize) && processed == old(processed)
    {
      AppendKeeps(buffer, written, derived, d);
      buffer := Buffer(buffer.items + [d.item], buffer.objects + [d.objects],
                       buffer.literals + [d.literals], buffer.types + [d.types]);
      derived := derived + [d];
      if |buffer.items| == BatchSize {
        FlushFull(buffer, written);
        FlushBuffer();
      }
    }

    /** `parse_data` with its effect on the buffer; an entity that raises
        leaves the state as it was. */
    method ParseData(e: RawEntity, i: nat, classes: Classes, sup: string -> seq<string>)
      returns (r: Result<Derived, Failure>)
      requires Valid()
      modifies this
      ensures Valid()
      ensures r == Transform(e, i, classes, sup)
      ensures r.Failure? ==> derived == old(derived) && buffer == old(buffer) && written == old(written)
      ensures r.Success? ==> derived == old(derived) + [r.value]
      ensures r.Success? && |old(buffer.items)| + 1 < BatchSize ==>
        buffer == Append(old(buffer), r.value) && written == old(written)
      ensures r.Success? && |old(buffer.items)| + 1 == BatchSize ==>
        buffer == Empty && written == Flush(Append(old(buffer), r.value), old(written))
      ensures log == old(log) && sizes == old(sizes)
      ensures totalSize == old(totalSize) && processed == old(processed)
    {
      r := ParseEntity(e, i, classes, sup);
      if r.Success? {
        Enqueue(r.value);
      }
    }

    /** `log_c.insert_one`: one more entry in the error log; the buffers, the
        database collections and the statistics are untouched. */
    method InsertLog(entity: string, err: Failure)
      requires Valid()
      modifies this
      ensures Valid()
      ensures log == old(log) + [ErrorRecord(entity, err)]
      ensures buffer == old(buffer) && written == old(written) && derived == old(derived)
      ensures sizes == old(sizes) && totalSize == old(totalSize) && processed == old(processed)
    {
      log := log + [ErrorRecord(entity, err)];
    }

    /** One iteration of the driver loop: the line is decoded, counted and
        parsed; a failure is logged, unless the record has no `id`, in which
        case the handler raises too and the run stops with the buffers and
        the database as they were. */
    method Consume(line: Line, i: nat, classes: Classes, sup: string -> seq<string>) returns (stop: bool)
      requires Valid()
      modifies this
      ensures Valid()
      ensures stop ==> buffer == old(buffer) && written == old(written)
      ensures Progress(derived, log, sizes, stop) ==
        Consumed(Progress(old(derived), old(log), old(sizes), false), line, i, classes, sup)
    {
      match line.decoded {
        case None =>
          return false;
        case Some(e) =>
          var mean := UpdateAverageSize(line.size);
          var r := ParseData(e, i, classes, sup);
          if r.Failure? {
            if e.id.None? {
              return true;
            }
            InsertLog(e.id.value, r.error);
          }
          return false;
      }
    }

    /** The driver loop of `parse_wikidata_dump` once the two class sets are
        built; unless the run stops, the remaining records are flushed at the end.
        A run that stops skips that flush: the database then holds full batches
        only, and the fewer than `BatchSize` records still buffered are lost. */
    method Run(classes: Classes, lines: seq<Line>, sup: string -> seq<string>) returns (aborted: bool)
      requires Valid() && derived == [] && sizes == [] && log == []
      modifies this
      ensures Buffered()
      ensures aborted ==> Valid()
      ensures Progress(derived, log, sizes, aborted) == Ingested(lines, classes, sup)
      ensures !aborted ==> buffer == Empty && Concat(written.items) == ItemsOf(derived)
      ensures !aborted ==> FullButLast(written.items) && FullButLast(written.objects)
      ensures !aborted ==> FullButLast(written.literals) && FullButLast(written.types)
    {
      var i := 0;
      while i < |lines|
        invariant 0 <= i <= |lines|
        invariant Valid()
        invariant Progress(derived, log, sizes, false) == Ingested(lines[..i], classes, sup)
      {
        assert lines[..i + 1][..i] == lines[..i];
        var stop := Consume(lines[i], i, classes, sup);
        if stop {
          AbortPersists(lines[..i + 1], lines, classes, sup);
          return true;
        }
        i := i + 1;
      }
      assert lines[..i] == lines;
      FinalFlush(buffer, written, derived);
      if |buffer.items| > 0 {
        FlushBuffer();
      } else {
        assert buffer == Empty;
      }
      return false;
    }
  }

  /** The whole ingestion: the class sets are built from the closure queries,
      then the driver loop runs on a fresh state. */
  method IngestDump(closure: int -> Reply, lines: seq<Line>, sup: string -> seq<string>)
    returns (ingester: Ingester, aborted: bool)
    ensures Progress(ingester.derived, ingester.log, ingester.sizes, aborted) == Ingested(lines, Build(closure), sup)
    ensures !aborted ==> Concat(ingester.written.items) == ItemsOf(ingester.derived)
  {
    var classes := Build(closure);
    ingester := new Ingester();
    aborted := ingester.Run(classes, lines, sup);
  }
}
