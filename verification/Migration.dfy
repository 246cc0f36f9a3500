/** Migration of legacy key-value rows into two related tables (src/project_maya/migration.py). */
module Migration {
  import opened Sequences

  /* ----- data ----- */

  /** A parsed JSON value; numbers that are not finite are what Python's parser makes of NaN and Infinity. */
  datatype Json =
    | Null | Bool(b: bool) | Number(value: real) | NotFinite | Text(text: string)
    | List(items: seq<Json>) | Object(fields: seq<(string, Json)>)

  type Raw = seq<bv8>

  /** A column value of the legacy table; `shown` is the `str` of a number. */
  datatype Legacy = Nothing | Bytes(raw: Raw) | String(text: string) | Numeric(shown: string, number: Json)

  /** `json.loads` on a string, the SHA-256 digest, and UTF-8: decoding replaces what is not valid. */
  datatype Library = Library(
    loads: string -> Option<Json>,
    digest: Raw -> string,
    encode: string -> Raw,
    decode: Raw -> string)

  datatype Row = Row(key: string, value: Legacy)

  datatype Provenance = Provenance(
    migratedFrom: Option<string>,
    originalSha256: Option<string>,
    legacyValue: Option<Json>)

  datatype Entry = Entry(
    chunkId: Option<string>,
    vector: Option<seq<real>>,
    vectorDim: Option<nat>,
    createdAt: string,
    sourcePath: string,
    scoreMeta: Option<Provenance>)

  datatype Embedding = Embedding(sourcePath: string, sourceHash: string, extractorVersion: string, updatedAt: string)

  datatype MemoryEntry = MemoryEntry(value: Legacy, migratedFrom: string)

  datatype Tables = Tables(
    entries: map<string, Entry>,
    embeddings: map<string, Embedding>,
    memory: map<string, MemoryEntry>)

  datatype Schema = Registry | MemoryEntries

  /** The arguments of one migration that the row handlers use. */
  datatype Job = Job(lib: Library, source: string, now: string, overwrite: bool, schema: Schema)

  datatype ValidationError = MissingEntry(key: string) | BadScoreMeta(key: string) | MissingProvenance(key: string)
                           | DimMismatch(key: string)

  /* ----- rows as they are stored ----- */

  predicate IsFiniteNumber(j: Json)
  {
    j.Number?
  }

  function Values(items: seq<Json>): seq<real>
  {
    if items == [] then [] else (if items[0].Number? then [items[0].value] else []) + Values(items[1..])
  }

  /** Only text and bytes parse; every other column value is a type error for the parser. */
  function Parsed(lib: Library, v: Legacy): Option<Json>
  {
    match v
    case Bytes(raw) => lib.loads(lib.decode(raw))
    case String(s) => lib.loads(s)
    case Nothing => None
    case Numeric(_, _) => None
  }

  function NumericVector(lib: Library, v: Legacy): Option<seq<real>>
  {
    match Parsed(lib, v)
    case Some(List(items)) => if forall j :: j in items ==> IsFiniteNumber(j) then Some(Values(items)) else None
    case _ => None
  }

  /** What the digest is taken of: bytes as they are, not as they decode. */
  function RawOf(lib: Library, v: Legacy): Raw
  {
    match v
    case Nothing => []
    case Bytes(raw) => raw
    case String(s) => lib.encode(s)
    case Numeric(s, _) => lib.encode(s)
  }

  /** The parsed value where it parses, else the decoded column value itself. */
  function LegacyValue(lib: Library, v: Legacy): Json
  {
    match Parsed(lib, v)
    case Some(j) => j
    case None =>
      match v
      case Nothing => Null
      case Numeric(_, n) => n
      case Bytes(raw) => Text(lib.decode(raw))
      case String(s) => Text(s)
  }

  function EntryFor(job: Job, row: Row): Entry
  {
    var vector := NumericVector(job.lib, row.value);
    Entry(
      if vector == None then None else Some(row.key),
      vector,
      if vector == None then None else Some(|vector.value|),
      job.now,
      "legacy_kv",
      Some(Provenance(Some(job.source), Some(job.lib.digest(RawOf(job.lib, row.value))),
                      if vector == None then Some(LegacyValue(job.lib, row.value)) else None)))
  }

  function EmbeddingFor(job: Job, row: Row): Embedding
  {
    Embedding("legacy_kv", job.lib.digest(RawOf(job.lib, row.value)), "legacy-migration", job.now)
  }

  /* ----- one row ----- */

  predicate Taken(t: Tables, schema: Schema, key: string)
  {
    match schema case Registry => key in t.entries case MemoryEntries => key in t.memory
  }

  predicate Inserts(job: Job, t: Tables, row: Row)
  {
    job.overwrite || !Taken(t, job.schema, row.key)
  }

  function PutRow(job: Job, t: Tables, row: Row): Tables
  {
    match job.schema
    case MemoryEntries => t.(memory := t.memory[row.key := MemoryEntry(row.value, job.source)])
    case Registry =>
      t.(entries := t.entries[row.key := EntryFor(job, row)],
         embeddings :=
           if NumericVector(job.lib, row.value) == None || (row.key in t.embeddings && !job.overwrite)
           then t.embeddings else t.embeddings[row.key := EmbeddingFor(job, row)])
  }

  /** The tables and the keys written and skipped after all rows. */
  datatype Progress = Progress(tables: Tables, migrated: seq<string>, skipped: seq<string>)

  function MergeRow(job: Job, p: Progress, row: Row): Progress
  {
    if Inserts(job, p.tables, row) then p.(tables := PutRow(job, p.tables, row), migrated := p.migrated + [row.key])
    else p.(skipped := p.skipped + [row.key])
  }

  function Merge(job: Job, t: Tables, rows: seq<Row>): Progress
  {
    if rows == [] then Progress(t, [], []) else MergeRow(job, Merge(job, t, rows[..|rows| - 1]), rows[|rows| - 1])
  }

  /* ----- the merge in closed form ----- */

  function FirstIndex(rows: seq<Row>, key: string): (i: nat)
    requires exists j :: 0 <= j < |rows| && rows[j].key == key
    ensures i < |rows| && rows[i].key == key && forall j :: 0 <= j < i ==> rows[j].key != key
  {
    if rows[0].key == key then 0 else 1 + FirstIndex(rows[1..], key)
  }

  function LastIndex(rows: seq<Row>, key: string): (i: nat)
    requires exists j :: 0 <= j < |rows| && rows[j].key == key
    ensures i < |rows| && rows[i].key == key && forall j :: i < j < |rows| ==> rows[j].key != key
  {
    if rows[|rows| - 1].key == key then |rows| - 1 else LastIndex(rows[..|rows| - 1], key)
  }

  predicate HasKey(rows: seq<Row>, key: string)
  {
    exists j :: 0 <= j < |rows| && rows[j].key == key
  }

  /** The source row that decides what is stored under `key`. */
  function DecidingRow(job: Job, rows: seq<Row>, key: string): Row
    requires HasKey(rows, key)
  {
    if job.overwrite then rows[LastIndex(rows, key)] else rows[FirstIndex(rows, key)]
  }

  /** What the main table holds under `key` after the merge. */
  predicate MainTableMerged(job: Job, before: Tables, rows: seq<Row>, after: Tables, key: string)
  {
    var rewritten := HasKey(rows, key) && (job.overwrite || !Taken(before, job.schema, key));
    match job.schema
    case Registry =>
      && after.memory == before.memory
      && (key in after.entries <==> key in before.entries || HasKey(rows, key))
      && (key in after.entries ==>
            after.entries[key] == if rewritten then EntryFor(job, DecidingRow(job, rows, key)) else before.entries[key])
    case MemoryEntries =>
      && after.entries == before.entries && after.embeddings == before.embeddings
      && (key in after.memory <==> key in before.memory || HasKey(rows, key))
      && (key in after.memory ==>
            after.memory[key] ==
              if rewritten then MemoryEntry(DecidingRow(job, rows, key).value, job.source) else before.memory[key])
  }

  lemma DecidingRowStep(job: Job, rows: seq<Row>, row: Row, key: string)
    ensures HasKey(rows + [row], key) <==> HasKey(rows, key) || row.key == key
    ensures HasKey(rows + [row], key) ==>
      DecidingRow(job, rows + [row], key) ==
        if row.key == key && (job.overwrite || !HasKey(rows, key)) then row
        else if HasKey(rows, key) then DecidingRow(job, rows, key) else row
  {
    var all := rows + [row];
    assert forall j :: 0 <= j < |rows| ==> all[j] == rows[j];
    assert all[|rows|] == row;
    if HasKey(rows, key) {
      var j :| 0 <= j < |rows| && rows[j].key == key;
      assert all[j].key == key;
      assert FirstIndex(all, key) == FirstIndex(rows, key);
      if row.key != key {
        assert LastIndex(all, key) == LastIndex(rows, key);
      }
    }
  }

  /** The registry and the memory table end up as biased map merges of the old table with the source rows:
      without overwrite old rows stay and the first source row of a key wins, with overwrite the last one
      does; keys that do not occur in the source keep what they had. */
  lemma {:induction false} MergeIsMapMerge(job: Job, before: Tables, rows: seq<Row>, key: string)
    ensures MainTableMerged(job, before, rows, Merge(job, before, rows).tables, key)
  {
    if rows != [] {
      var init, last := rows[..|rows| - 1], rows[|rows| - 1];
      assert rows == init + [last];
      MergeIsMapMerge(job, before, init, key);
      MergeIsMapMerge(job, before, init, last.key);
      DecidingRowStep(job, init, last, key);
    }
  }

  /** Every source row is either migrated or reported as skipped, in source order. */
  lemma {:induction false} MergeConserves(job: Job, before: Tables, rows: seq<Row>)
    ensures var p := Merge(job, before, rows);
      && |p.migrated| + |p.skipped| == |rows|
      && (job.overwrite ==> p.skipped == [])
      && forall k :: (k in p.migrated || k in p.skipped) <==> HasKey(rows, k)
  {
    if rows != [] {
      var init, last := rows[..|rows| - 1], rows[|rows| - 1];
      assert rows == init + [last];
      MergeConserves(job, before, init);
      forall k ensures HasKey(rows, k) <==> HasKey(init, k) || last.key == k {
        DecidingRowStep(job, init, last, k);
      }
    }
  }

  /** A key is reported as migrated exactly when it occurs and was free or may be overwritten. */
  lemma {:induction false} MigratedKeysIff(job: Job, before: Tables, rows: seq<Row>, key: string)
    ensures key in Merge(job, before, rows).migrated <==>
      && (exists i :: 0 <= i < |rows| && rows[i].key == key)
      && (job.overwrite || (job.schema == Registry && key !in before.entries)
          || (job.schema == MemoryEntries && key !in before.memory))
  {
    if rows != [] {
      var init, last := rows[..|rows| - 1], rows[|rows| - 1];
      assert rows == init + [last];
      MigratedKeysIff(job, before, init, key);
      MergeIsMapMerge(job, before, init, key);
      DecidingRowStep(job, init, last, key);
    }
  }

  /* ----- what a migrated row holds ----- */

  /** Without permission to overwrite, whatever was there stays as it was. */
  lemma ExistingRowsStay(job: Job, before: Tables, rows: seq<Row>, key: string)
    requires !job.overwrite
    ensures var after := Merge(job, before, rows).tables;
      && (key in before.entries ==> key in after.entries && after.entries[key] == before.entries[key])
      && (key in before.memory ==> key in after.memory && after.memory[key] == before.memory[key])
  {
    MergeIsMapMerge(job, before, rows, key);
  }

  /** The row that is stored under `key`: the last of the source when overwriting, else the first. */
  predicate Decides(job: Job, rows: seq<Row>, key: string, i: nat)
  {
    && i < |rows| && rows[i].key == key
    && (job.overwrite ==> forall j :: i < j < |rows| ==> rows[j].key != key)
    && (!job.overwrite ==> forall j :: 0 <= j < i ==> rows[j].key != key)
  }

  lemma {:induction false} ValuesOfNumbers(items: seq<Json>)
    requires forall j :: j in items ==> j.Number?
    ensures |Values(items)| == |items| && forall i :: 0 <= i < |items| ==> items[i] == Number(Values(items)[i])
  {
    if items != [] {
      assert items[0] in items;
      ValuesOfNumbers(items[1..]);
    }
  }

  /** The entry of a migrated row.  It has a vector exactly when the column is text or bytes that parse to a
      list of finite numbers; the vector is then that list, element by element.  Otherwise there is no vector
      and the value is kept: as parsed, or decoded where it does not parse. */
  lemma MigratedEntry(job: Job, before: Tables, rows: seq<Row>, i: nat)
    requires job.schema == Registry && i < |rows| && Decides(job, rows, rows[i].key, i)
    requires job.overwrite || rows[i].key !in before.entries
    ensures rows[i].key in Merge(job, before, rows).tables.entries
    ensures
      var (key, value) := (rows[i].key, rows[i].value);
      var entry := Merge(job, before, rows).tables.entries[key];
      var parsed := if value.Bytes? then job.lib.loads(job.lib.decode(value.raw))
        else if value.String? then job.lib.loads(value.text) else None;
      var numbers := parsed != None && parsed.value.List? && forall j :: j in parsed.value.items ==> j.Number?;
      && (entry.vector != None <==> numbers)
      && (numbers ==>
            && |entry.vector.value| == |parsed.value.items|
            && (forall k :: 0 <= k < |parsed.value.items| ==> parsed.value.items[k] == Number(entry.vector.value[k]))
            && entry.vectorDim == Some(|parsed.value.items|) && entry.chunkId == Some(key))
      && (!numbers ==> entry.vectorDim == None && entry.chunkId == None)
      && entry.createdAt == job.now && entry.sourcePath == "legacy_kv"
      && entry.scoreMeta != None
      && entry.scoreMeta.value.migratedFrom == Some(job.source)
      && entry.scoreMeta.value.legacyValue ==
           (if numbers then None else if parsed != None then parsed
            else Some(match value case Nothing => Null case Numeric(_, n) => n
                      case Bytes(raw) => Text(job.lib.decode(raw)) case String(s) => Text(s)))
  {
    StoredEntry(job, before, rows, i);
    var parsed := Parsed(job.lib, rows[i].value);
    if parsed != None && parsed.value.List? {
      if forall j :: j in parsed.value.items ==> j.Number? {
        assert forall j :: j in parsed.value.items ==> IsFiniteNumber(j);
        ValuesOfNumbers(parsed.value.items);
      } else {
        var j :| j in parsed.value.items && !j.Number?;
        assert !IsFiniteNumber(j);
      }
    }
  }

  lemma StoredEntry(job: Job, before: Tables, rows: seq<Row>, i: nat)
    requires job.schema == Registry && i < |rows| && Decides(job, rows, rows[i].key, i)
    requires job.overwrite || rows[i].key !in before.entries
    ensures rows[i].key in Merge(job, before, rows).tables.entries
    ensures Merge(job, before, rows).tables.entries[rows[i].key] == EntryFor(job, rows[i])
  {
    MergeIsMapMerge(job, before, rows, rows[i].key);
    assert HasKey(rows, rows[i].key);
  }

  /** The digest is taken of the raw column: bytes as they are, text and numbers as UTF-8, nothing as no byte. */
  lemma MigratedDigest(job: Job, before: Tables, rows: seq<Row>, i: nat)
    requires job.schema == Registry && i < |rows| && Decides(job, rows, rows[i].key, i)
    requires job.overwrite || rows[i].key !in before.entries
    ensures rows[i].key in Merge(job, before, rows).tables.entries
    ensures
      var entry := Merge(job, before, rows).tables.entries[rows[i].key];
      entry.scoreMeta != None && entry.scoreMeta.value.originalSha256 == Some(job.lib.digest(
        match rows[i].value case Nothing => [] case Bytes(raw) => raw case String(s) => job.lib.encode(s)
        case Numeric(shown, _) => job.lib.encode(shown)))
  {
    StoredEntry(job, before, rows, i);
  }

  /** The embedding of a migrated vector names its origin, its digest and the time of the migration. */
  lemma MigratedEmbedding(job: Job, before: Tables, rows: seq<Row>, i: nat)
    requires job.schema == Registry && i < |rows| && Decides(job, rows, rows[i].key, i)
    requires job.overwrite || (rows[i].key !in before.entries && rows[i].key !in before.embeddings)
    requires rows[i].key in Merge(job, before, rows).tables.entries
    requires Merge(job, before, rows).tables.entries[rows[i].key].vector != None
    ensures rows[i].key in Merge(job, before, rows).tables.embeddings
    ensures var after := Merge(job, before, rows).tables; var e := after.embeddings[rows[i].key];
      && e.sourcePath == "legacy_kv" && e.extractorVersion == "legacy-migration" && e.updatedAt == job.now
      && after.entries[rows[i].key].scoreMeta != None
      && after.entries[rows[i].key].scoreMeta.value.originalSha256 == Some(e.sourceHash)
  {
    StoredEntry(job, before, rows, i);
    assert HasKey(rows, rows[i].key) && DecidingRow(job, rows, rows[i].key) == rows[i];
    EmbeddingOfMigrated(job, before, rows, rows[i].key);
  }

  /** In the plain table a migrated row holds its value as it was. */
  lemma MigratedMemoryEntry(job: Job, before: Tables, rows: seq<Row>, i: nat)
    requires job.schema == MemoryEntries && i < |rows| && Decides(job, rows, rows[i].key, i)
    requires job.overwrite || rows[i].key !in before.memory
    ensures rows[i].key in Merge(job, before, rows).tables.memory
    ensures var m := Merge(job, before, rows).tables.memory[rows[i].key];
      m.value == rows[i].value && m.migratedFrom == job.source
  {
    MergeIsMapMerge(job, before, rows, rows[i].key);
    assert HasKey(rows, rows[i].key);
  }

  /* ----- referential integrity ----- */

  predicate References(t: Tables)
  {
    forall k :: k in t.entries && t.entries[k].chunkId != None ==> t.entries[k].chunkId.value in t.embeddings
  }

  /** If every chunk id of an entry names an embedding before the migration, it does so afterwards. */
  lemma {:induction false} MergeKeepsReferences(job: Job, before: Tables, rows: seq<Row>)
    requires References(before)
    ensures References(Merge(job, before, rows).tables)
  {
    if rows != [] {
      MergeKeepsReferences(job, before, rows[..|rows| - 1]);
    }
  }

  /** A migrated vector has an embedding row.  It describes the source row that was stored, exactly unless
      an embedding without an entry was there before and overwriting is off: then that one stays. */
  lemma {:induction false} EmbeddingOfMigrated(job: Job, before: Tables, rows: seq<Row>, key: string)
    requires job.schema == Registry && HasKey(rows, key) && (job.overwrite || key !in before.entries)
    requires NumericVector(job.lib, DecidingRow(job, rows, key).value) != None
    ensures var after := Merge(job, before, rows).tables;
      && key in after.embeddings
      && after.embeddings[key] ==
           if job.overwrite || key !in before.embeddings then EmbeddingFor(job, DecidingRow(job, rows, key))
           else before.embeddings[key]
  {
    var init, last := rows[..|rows| - 1], rows[|rows| - 1];
    var mid := Merge(job, before, init).tables;
    assert rows == init + [last];
    DecidingRowStep(job, init, last, key);
    MergeIsMapMerge(job, before, init, key);
    if HasKey(init, key) && (last.key != key || !job.overwrite) {
      EmbeddingOfMigrated(job, before, init, key);
      EmbeddingElsewhere(job, mid, last, key);
    } else {
      OtherEmbeddingsStay(job, before, init, key);
      EmbeddingHere(job, mid, last);
    }
  }

  lemma EmbeddingElsewhere(job: Job, t: Tables, row: Row, key: string)
    requires job.schema == Registry && (row.key != key || !Inserts(job, t, row))
    ensures var after := MergeRow(job, Progress(t, [], []), row).tables;
      && (key in after.embeddings <==> key in t.embeddings)
      && (key in t.embeddings ==> after.embeddings[key] == t.embeddings[key])
  {
  }

  lemma EmbeddingHere(job: Job, t: Tables, row: Row)
    requires job.schema == Registry && Inserts(job, t, row) && NumericVector(job.lib, row.value) != None
    ensures var after := MergeRow(job, Progress(t, [], []), row).tables;
      && row.key in after.embeddings
      && after.embeddings[row.key] ==
           if job.overwrite || row.key !in t.embeddings then EmbeddingFor(job, row) else t.embeddings[row.key]
  {
  }

  lemma {:induction false} OtherEmbeddingsStay(job: Job, before: Tables, rows: seq<Row>, key: string)
    requires job.schema == Registry
    ensures key in before.embeddings ==> key in Merge(job, before, rows).tables.embeddings
    ensures !HasKey(rows, key) ==>
      && (key in Merge(job, before, rows).tables.embeddings <==> key in before.embeddings)
      && (key in before.embeddings ==> Merge(job, before, rows).tables.embeddings[key] == before.embeddings[key])
  {
    if rows != [] {
      var init, last := rows[..|rows| - 1], rows[|rows| - 1];
      assert rows == init + [last];
      DecidingRowStep(job, init, last, key);
      OtherEmbeddingsStay(job, before, init, key);
    }
  }

  /* ----- validation after the loop ----- */

  /** The errors the validator reports for one key; at most the last two can occur together. */
  function ErrorsFor(entries: map<string, Entry>, key: string): seq<ValidationError>
  {
    if key !in entries then [MissingEntry(key)]
    else
      var e := entries[key];
      if e.scoreMeta == None then [BadScoreMeta(key)]
      else
        (if e.scoreMeta.value.migratedFrom == None || e.scoreMeta.value.originalSha256 == None
         then [MissingProvenance(key)] else [])
        + (if e.vector != None && e.vectorDim != Some(|e.vector.value|) then [DimMismatch(key)] else [])
  }

  /** The validator is satisfied with a key exactly when its entry is there, names its origin and its digest,
      and has a vector of the length it says or no vector at all. */
  lemma SoundIff(entries: map<string, Entry>, key: string)
    ensures ErrorsFor(entries, key) == [] <==>
      && key in entries && entries[key].scoreMeta != None
      && entries[key].scoreMeta.value.migratedFrom != None && entries[key].scoreMeta.value.originalSha256 != None
      && (entries[key].vector == None || entries[key].vectorDim == Some(|entries[key].vector.value|))
  {
  }

  lemma NoErrorsSplit(a: seq<ValidationError>, b: seq<ValidationError>)
    ensures a + b == [] <==> a == [] && b == []
  {
    assert |a + b| == |a| + |b|;
  }

  lemma {:induction false} AllErrorsIff(entries: map<string, Entry>, keys: seq<string>)
    ensures AllErrors(entries, keys) == [] <==> forall k :: k in keys ==> ErrorsFor(entries, k) == []
  {
    if keys != [] {
      AllErrorsIff(entries, keys[..|keys| - 1]);
      MembersOfInit(keys);
      NoErrorsSplit(AllErrors(entries, keys[..|keys| - 1]), ErrorsFor(entries, keys[|keys| - 1]));
    }
  }

  function AllErrors(entries: map<string, Entry>, keys: seq<string>): seq<ValidationError>
  {
    if keys == [] then [] else AllErrors(entries, keys[..|keys| - 1]) + ErrorsFor(entries, keys[|keys| - 1])
  }

  function FirstFive(keys: seq<string>): seq<string>
  {
    if |keys| <= 5 then keys else keys[..5]
  }

  /** What the loop wrote passes every check of the validator, in every key and not only in the sampled ones. */
  lemma {:induction false} MigratedKeysAreSound(job: Job, before: Tables, rows: seq<Row>, key: string)
    requires job.schema == Registry && key in Merge(job, before, rows).migrated
    ensures ErrorsFor(Merge(job, before, rows).tables.entries, key) == []
  {
    var init, last := rows[..|rows| - 1], rows[|rows| - 1];
    if key in Merge(job, before, init).migrated {
      MigratedKeysAreSound(job, before, init, key);
    }
  }

  /** At most five keys are sampled. */
  lemma SampledKeysSoundIff(entries: map<string, Entry>, keys: seq<string>)
    ensures AllErrors(entries, FirstFive(keys)) == [] <==>
      forall k :: 0 <= k < |keys| && k < 5 ==> ErrorsFor(entries, keys[k]) == []
  {
    var sample := FirstFive(keys);
    AllErrorsIff(entries, sample);
    assert forall k :: 0 <= k < |sample| ==> sample[k] == keys[k] && sample[k] in sample;
  }

  lemma ValidatorNeverFires(job: Job, before: Tables, rows: seq<Row>)
    requires job.schema == Registry
    ensures var p := Merge(job, before, rows);
      AllErrors(p.tables.entries, p.migrated) == [] && AllErrors(p.tables.entries, FirstFive(p.migrated)) == []
  {
    var p := Merge(job, before, rows);
    forall k | k in p.migrated ensures ErrorsFor(p.tables.entries, k) == [] {
      MigratedKeysAreSound(job, before, rows, k);
    }
    AllErrorsIff(p.tables.entries, p.migrated);
    AllErrorsIff(p.tables.entries, FirstFive(p.migrated));
  }

  /* ----- running it twice ----- */

  lemma {:induction false} AllTaken(job: Job, t: Tables, rows: seq<Row>)
    requires !job.overwrite && forall k :: HasKey(rows, k) ==> Taken(t, job.schema, k)
    ensures Merge(job, t, rows).tables == t && Merge(job, t, rows).migrated == []
  {
    if rows != [] {
      var init, last := rows[..|rows| - 1], rows[|rows| - 1];
      assert rows == init + [last];
      forall k | HasKey(init, k) ensures Taken(t, job.schema, k) {
        DecidingRowStep(job, init, last, k);
      }
      AllTaken(job, t, init);
      DecidingRowStep(job, init, last, last.key);
    }
  }

  /** After a migration in either mode, a second one without overwrite migrates nothing, changes nothing and
      reports every source row as skipped, even at a later time. */
  lemma SecondRunChangesNothing(first: Job, second: Job, before: Tables, rows: seq<Row>)
    requires !second.overwrite && second.schema == first.schema
    ensures var done := Merge(first, before, rows).tables; var again := Merge(second, done, rows);
      again.tables == done && again.migrated == [] && |again.skipped| == |rows|
  {
    var done := Merge(first, before, rows).tables;
    forall k | HasKey(rows, k) ensures Taken(done, second.schema, k) {
      MergeIsMapMerge(first, before, rows, k);
    }
    AllTaken(second, done, rows);
    MergeConserves(second, done, rows);
  }

  /* ----- the database and `migrate` ----- */

  datatype Summary = Summary(
    sourceRows: nat,
    migrated: nat,
    skippedKeys: seq<string>,
    samples: seq<string>,
    validationErrors: seq<ValidationError>,
    dryRun: bool,
    overwrite: bool)

  /** What opening the legacy database finds. */
  datatype Source = NoFile | NoTable | LegacyRows(rows: seq<Row>)

  datatype Outcome =
    | Done(summary: Summary)
    | NeedsAllowModify | SourceMissing | TableMissing | NeedsBackupPath
    | RowFailed | ValidationFailed(errors: seq<ValidationError>)

  class Database {
    var tables: Tables

    constructor (tables: Tables)
      ensures this.tables == tables
    {
      this.tables := tables;
    }

    /** `_insert_registry_row`. */
    method InsertRegistryRow(job: Job, row: Row) returns (inserted: bool)
      requires job.schema == Registry
      modifies this
      ensures inserted <==> Inserts(job, old(tables), row)
      ensures tables == if inserted then PutRow(job, old(tables), row) else old(tables)
    {
      var existing := row.key in tables.entries;
      if existing && !job.overwrite {
        return false;
      }
      tables := tables.(entries := tables.entries[row.key := EntryFor(job, row)]);
      if NumericVector(job.lib, row.value) != None {
        if job.overwrite || row.key !in tables.embeddings {
          tables := tables.(embeddings := tables.embeddings[row.key := EmbeddingFor(job, row)]);
        }
      }
      return true;
    }

    /** `_insert_memory_entry`. */
    method InsertMemoryEntry(job: Job, row: Row) returns (inserted: bool)
      requires job.schema == MemoryEntries
      modifies this
      ensures inserted <==> Inserts(job, old(tables), row)
      ensures tables == if inserted then PutRow(job, old(tables), row) else old(tables)
    {
      if row.key in tables.memory && !job.overwrite {
        return false;
      }
      tables := tables.(memory := tables.memory[row.key := MemoryEntry(row.value, job.source)]);
      return true;
    }

    /** `_validate_registry`: checks and samples the first five migrated keys. */
    method ValidateRegistry(migratedKeys: seq<string>) returns (samples: seq<string>, errors: seq<ValidationError>)
      ensures errors == AllErrors(tables.entries, FirstFive(migratedKeys))
      ensures errors == [] ==> samples == FirstFive(migratedKeys)
    {
      samples, errors := [], [];
      var keys := FirstFive(migratedKeys);
      for i := 0 to |keys|
        invariant errors == AllErrors(tables.entries, keys[..i])
        invariant errors == [] ==> samples == keys[..i]
      {
        PrefixStep(keys, i);
        var key := keys[i];
        if key !in tables.entries {
          errors := errors + [MissingEntry(key)];
          continue;
        }
        var e := tables.entries[key];
        if e.scoreMeta == None {
          errors := errors + [BadScoreMeta(key)];
          continue;
        }
        if e.scoreMeta.value.migratedFrom == None || e.scoreMeta.value.originalSha256 == None {
          errors := errors + [MissingProvenance(key)];
        }
        if e.vector != None && e.vectorDim != Some(|e.vector.value|) {
          errors := errors + [DimMismatch(key)];
        }
        samples := samples + [key];
      }
      assert keys[..|keys|] == keys;
    }

    method InsertRow(job: Job, row: Row) returns (inserted: bool)
      modifies this
      ensures inserted <==> Inserts(job, old(tables), row)
      ensures tables == if inserted then PutRow(job, old(tables), row) else old(tables)
    {
      match job.schema {
        case Registry => inserted := InsertRegistryRow(job, row);
        case MemoryEntries => inserted := InsertMemoryEntry(job, row);
      }
    }

    /** The row loop inside the transaction; `breaks` says at which rows an exception occurs. */
    method MigrateRows(job: Job, rows: seq<Row>, breaks: nat -> bool)
      returns (failed: bool, migratedKeys: seq<string>, skippedKeys: seq<string>, samples: seq<string>)
      modifies this
      ensures failed <==> exists i: nat :: i < |rows| && breaks(i)
      ensures !failed ==> Progress(tables, migratedKeys, skippedKeys) == Merge(job, old(tables), rows)
      ensures samples == FirstFive(migratedKeys)
    {
      failed, migratedKeys, skippedKeys, samples := false, [], [], [];
      for i := 0 to |rows|
        invariant Progress(tables, migratedKeys, skippedKeys) == Merge(job, old(tables), rows[..i])
        invariant samples == FirstFive(migratedKeys)
        invariant forall j: nat :: j < i ==> !breaks(j)
      {
        PrefixStep(rows, i);
        if breaks(i) {
          failed := true;
          return;
        }
        var inserted := InsertRow(job, rows[i]);
        if inserted {
          migratedKeys := migratedKeys + [rows[i].key];
          if |samples| < 5 {
            samples := samples + [rows[i].key];
          }
        } else {
          skippedKeys := skippedKeys + [rows[i].key];
        }
      }
      assert rows[..|rows|] == rows;
    }

    /** `migrate`.  Anything but a completed apply leaves the tables as they were; a completed apply leaves
        the merge, and the validation can only pass. */
    method Migrate(job: Job, source: Source, dryRun: bool, allowModify: bool, existed: bool,
                   backupPath: Option<string>, breaks: nat -> bool) returns (outcome: Outcome)
      modifies this
      ensures outcome.Done? && !dryRun ==>
        && source.LegacyRows?
        && var p := Merge(job, old(tables), source.rows);
           && tables == p.tables
           && outcome.summary.migrated == |p.migrated|
           && outcome.summary.skippedKeys == p.skipped
           && outcome.summary.samples == (if |p.migrated| <= 5 then p.migrated else p.migrated[..5])
           && outcome.summary.validationErrors == []
           && outcome.summary.sourceRows == outcome.summary.migrated + |outcome.summary.skippedKeys|
      ensures outcome.Done? ==>
        && source.LegacyRows? && outcome.summary.sourceRows == |source.rows|
        && outcome.summary.dryRun == dryRun && outcome.summary.overwrite == job.overwrite
        && (dryRun ==> outcome.summary.migrated == 0 && outcome.summary.skippedKeys == outcome.summary.samples == [])
      ensures !outcome.Done? || dryRun ==> tables == old(tables)
      ensures outcome.Done? <==>
        && (dryRun || allowModify) && source.LegacyRows?
        && (dryRun || ((!existed || (backupPath != None && backupPath.value != ""))
                       && forall i: nat :: i < |source.rows| ==> !breaks(i)))
      ensures !outcome.ValidationFailed?
    {
      if !dryRun && !allowModify {
        return NeedsAllowModify;
      }
      match source {
        case NoFile => return SourceMissing;
        case NoTable => return TableMissing;
        case LegacyRows(_) =>
      }
      var rows := source.rows;
      if dryRun {
        return Done(Summary(|rows|, 0, [], [], [], true, job.overwrite));
      }
      if existed && (backupPath == None || backupPath.value == "") {
        return NeedsBackupPath;
      }
      var snapshot := tables;
      var failed, migratedKeys, skippedKeys, samples := MigrateRows(job, rows, breaks);
      if failed {
        tables := snapshot;
        return RowFailed;
      }
      MergeConserves(job, snapshot, rows);
      var errors: seq<ValidationError> := [];
      if job.schema == Registry {
        samples, errors := ValidateRegistry(migratedKeys);
        if errors != [] {
          tables := snapshot;
          outcome := ValidationFailed(errors);
          // The rollback above is never needed.
          ValidatorNeverFires(job, snapshot, rows);
          assert false;
        }
      }
      return Done(Summary(|rows|, |migratedKeys|, skippedKeys, samples, errors, false, job.overwrite));
    }
  }
}
