/**
 * The restore baseline of the recovery drill: digests of the stored history,
 * taken before a backup and compared after the restore.
 */
module Baseline {
  import opened Options
  import opened Ordering
  import opened Text
  import opened Decimal

  // ----- what is hashed -----

  /** One field as digestFields writes it: length, colon, bytes, newline. */
  function Framed(field: string): string {
    Print(|field|) + ":" + field + "\n"
  }

  function Encode(fields: seq<string>): string {
    if fields == [] then [] else Framed(fields[0]) + Encode(fields[1..])
  }

  /** A reader for that format; `None` when the text is not in it. */
  function Decode(s: string): Option<seq<string>>
    decreases |s|
  {
    if s == [] then Some([])
    else
      var i := Find(s, ':');
      if i == |s| || !AllDigits(s[..i]) then None
      else
        var n := Value(s[..i]);
        if i + 1 + n >= |s| || s[i + 1 + n] != '\n' then None
        else
          var rest := Decode(s[i + 2 + n..]);
          if rest.None? then None else Some([s[i + 1..i + 1 + n]] + rest.value)
  }

  /** Where the parts of a frame are. */
  lemma {:induction false} Slices(head: string, field: string, rest: string)
    ensures var s, i := head + ":" + field + "\n" + rest, |head|;
            && |s| == i + 2 + |field| + |rest| && s[i] == ':' && s[i + 1 + |field|] == '\n'
            && s[..i] == head && s[i + 1..i + 1 + |field|] == field && s[i + 2 + |field|..] == rest
  {
    var s, i := head + ":" + field + "\n" + rest, |head|;
    assert s[..i] == head;
    assert s[i + 1..i + 1 + |field|] == field;
    assert s[i + 2 + |field|..] == rest;
  }

  lemma {:induction false} FramedPieces(field: string, rest: string)
    ensures var s, i := Framed(field) + rest, |Print(|field|)|;
            && Find(s, ':') == i && s[..i] == Print(|field|)
            && |s| == i + 2 + |field| + |rest| && s[i + 1 + |field|] == '\n'
            && s[i + 1..i + 1 + |field|] == field && s[i + 2 + |field|..] == rest
  {
    var head := Print(|field|);
    var s, i := Framed(field) + rest, |head|;
    assert s == head + ":" + field + "\n" + rest;
    Slices(head, field, rest);
    forall j | 0 <= j < i ensures s[j] != ':' {
      assert s[j] == s[..i][j] == head[j] && IsDigit(head[j]);
    }
    FindAt(s, ':', i);
  }

  lemma {:induction false} DecodeStep(s: string, i: nat, field: string, rest: string)
    requires i < |s| && Find(s, ':') == i && AllDigits(s[..i]) && Value(s[..i]) == |field|
    requires |s| == i + 2 + |field| + |rest| && s[i + 1 + |field|] == '\n'
    requires s[i + 1..i + 1 + |field|] == field && s[i + 2 + |field|..] == rest
    requires Decode(rest).Some?
    ensures Decode(s) == Some([field] + Decode(rest).value)
  {
  }

  lemma {:induction false} DecodeFramed(field: string, rest: string)
    requires Decode(rest).Some?
    ensures Decode(Framed(field) + rest) == Some([field] + Decode(rest).value)
  {
    FramedPieces(field, rest);
    ValuePrint(|field|);
    DecodeStep(Framed(field) + rest, |Print(|field|)|, field, rest);
  }

  /** The hashed text gives the field list back, whatever bytes the fields hold. */
  lemma {:induction false} DecodeEncode(fields: seq<string>)
    ensures Decode(Encode(fields)) == Some(fields)
  {
    if fields != [] {
      DecodeEncode(fields[1..]);
      DecodeFramed(fields[0], Encode(fields[1..]));
      assert fields == [fields[0]] + fields[1..];
    }
  }

  lemma EncodeInjective(a: seq<string>, b: seq<string>)
    requires Encode(a) == Encode(b)
    ensures a == b
  {
    DecodeEncode(a);
    DecodeEncode(b);
  }

  lemma {:induction false} EncodeSnoc(a: seq<string>, field: string)
    ensures Encode(a + [field]) == Encode(a) + Framed(field)
  {
    if a == [] {
      assert a + [field] == [field] && [field][1..] == [];
    } else {
      assert (a + [field])[1..] == a[1..] + [field];
      EncodeSnoc(a[1..], field);
    }
  }

  /** digestFields: `written` is what the running hash has been fed. */
  method DigestFields(fields: seq<string>, hash: string -> string) returns (digest: string)
    ensures digest == hash(Encode(fields))
  {
    var written := "";
    for i := 0 to |fields|
      invariant written == Encode(fields[..i])
    {
      EncodeSnoc(fields[..i], fields[i]);
      assert fields[..i + 1] == fields[..i] + [fields[i]];
      written := written + Print(|fields[i]|) + ":";
      written := written + fields[i];
      written := written + "\n";
      assert written == Encode(fields[..i]) + Framed(fields[i]);
    }
    assert fields[..|fields|] == fields;
    digest := hash(written);
  }

  // ----- reading a database -----

  const MAX_BASELINE_RECORDS := 128

  /** A row of sync_history, `fields` being its eleven quoted columns. */
  datatype Row = Row(id: string, operation: string, result: string, fields: seq<string>)

  datatype Config = Config(manifest: string, source: string)

  /** What the drill reads: the application's row, if any, and its history in the engine's order. */
  datatype Database = Database(config: Option<Config>, rows: seq<Row>)

  datatype Record = Record(id: string, digest: string, operation: string, result: string)

  datatype RestoreBaseline = RestoreBaseline(version: int, application: string, configDigest: string, records: seq<Record>)

  datatype Error = Absent | EmptyId | DuplicateId | TooMany | ConfigDiffers | RecordDiffers | UnexpectedRecord | MissingRecord

  datatype Result<T> = Ok(value: T) | Err(error: Error)

  predicate Distinct(ids: seq<string>) {
    forall i, j :: 0 <= i < j < |ids| ==> ids[i] != ids[j]
  }

  function RowIds(rows: seq<Row>): seq<string> {
    seq(|rows|, i requires 0 <= i < |rows| => rows[i].id)
  }

  function RecordIds(records: seq<Record>): seq<string> {
    seq(|records|, i requires 0 <= i < |records| => records[i].id)
  }

  function Fingerprint(row: Row, hash: string -> string): Record {
    Record(row.id, hash(Encode(row.fields)), row.operation, row.result)
  }

  predicate Readable(rows: seq<Row>) {
    |rows| <= MAX_BASELINE_RECORDS && Distinct(RowIds(rows)) && forall i :: 0 <= i < |rows| ==> rows[i].id != ""
  }

  /** What is wrong with a row, given the rows before it. */
  function FaultAt(rows: seq<Row>, i: nat): Option<Error>
    requires i < |rows|
  {
    if rows[i].id == "" then Some(EmptyId)
    else if exists j :: 0 <= j < i && rows[j].id == rows[i].id then Some(DuplicateId)
    else if i >= MAX_BASELINE_RECORDS then Some(TooMany)
    else None
  }

  predicate FirstFault(rows: seq<Row>, i: nat, e: Error) {
    i < |rows| && FaultAt(rows, i) == Some(e) && forall j :: 0 <= j < i ==> FaultAt(rows, j).None?
  }

  predicate Ascending(records: seq<Record>) {
    StrictlyAscending(RecordIds(records))
  }

  predicate SameRecords(a: seq<Record>, b: seq<Record>) {
    (forall x :: x in a ==> x in b) && (forall x :: x in b ==> x in a)
  }

  method InsertById(s: seq<Record>, x: Record) returns (r: seq<Record>)
    requires Ascending(s) && x.id !in RecordIds(s)
    ensures Ascending(r) && SameRecords(r, s + [x])
  {
    var k := 0;
    while k < |s| && StrLess(s[k].id, x.id)
      invariant k <= |s| && forall i :: 0 <= i < k ==> StrLess(s[i].id, x.id)
    {
      k := k + 1;
    }
    r := s[..k] + [x] + s[k..];
    AscendingInsert(s, x, k);
  }

  lemma AscendingInsert(s: seq<Record>, x: Record, k: nat)
    requires Ascending(s) && x.id !in RecordIds(s) && k <= |s|
    requires forall i :: 0 <= i < k ==> StrLess(s[i].id, x.id)
    requires k < |s| ==> !StrLess(s[k].id, x.id)
    ensures Ascending(s[..k] + [x] + s[k..]) && SameRecords(s[..k] + [x] + s[k..], s + [x])
  {
    var ids := RecordIds(s);
    forall j | k <= j < |s| ensures StrLess(x.id, s[j].id) {
      assert ids[k] == s[k].id && ids[j] == s[j].id;
      StrLessTotal(s[k].id, x.id);
      if k < j {
        StrLessTransitive(x.id, s[k].id, s[j].id);
      }
    }
    var r := s[..k] + [x] + s[k..];
    forall i, j | 0 <= i < j < |r| ensures StrLess(r[i].id, r[j].id) {
      var i0 := if i < k then i else i - 1;
      var j0 := if j < k then j else j - 1;
      assert i != k ==> r[i] == s[i0] && r[i].id == ids[i0];
      assert j != k ==> r[j] == s[j0] && r[j].id == ids[j0];
    }
    assert s == s[..k] + s[k..];
  }

  lemma IdsTogether(s: seq<Record>, done: seq<Record>, x: Record)
    requires SameRecords(s, done) && Distinct(RecordIds(done + [x]))
    ensures x.id !in RecordIds(s)
  {
    var ids := RecordIds(done + [x]);
    forall i | 0 <= i < |s| ensures s[i].id != x.id {
      assert s[i] in done;
      var j :| 0 <= j < |done| && done[j] == s[i];
      assert ids[j] == s[i].id && ids[|done|] == x.id && ids[j] != ids[|done|];
    }
  }

  lemma DistinctPrefix(records: seq<Record>, i: nat)
    requires Distinct(RecordIds(records)) && i <= |records|
    ensures Distinct(RecordIds(records[..i]))
  {
    forall a, b | 0 <= a < b < i ensures RecordIds(records[..i])[a] != RecordIds(records[..i])[b] {
      assert RecordIds(records)[a] != RecordIds(records)[b];
    }
  }

  /** sort.Slice by ID. */
  method SortById(records: seq<Record>) returns (r: seq<Record>)
    requires Distinct(RecordIds(records))
    ensures Ascending(r) && SameRecords(r, records)
  {
    r := [];
    for i := 0 to |records|
      invariant Ascending(r) && SameRecords(r, records[..i])
    {
      assert records[..i + 1] == records[..i] + [records[i]];
      DistinctPrefix(records, i + 1);
      IdsTogether(r, records[..i], records[i]);
      r := InsertById(r, records[i]);
    }
    assert records[..|records|] == records;
  }

  function Fingerprints(rows: seq<Row>, hash: string -> string): seq<Record> {
    seq(|rows|, i requires 0 <= i < |rows| => Fingerprint(rows[i], hash))
  }

  /** The fingerprints of exactly these rows, in ascending order of id. */
  predicate Fingerprinted(records: seq<Record>, rows: seq<Row>, hash: string -> string) {
    Ascending(records) && SameRecords(records, Fingerprints(rows, hash))
  }

  lemma ReadableWhenFaultless(rows: seq<Row>)
    ensures Readable(rows) <==> forall j :: 0 <= j < |rows| ==> FaultAt(rows, j).None?
  {
    var ids := RowIds(rows);
    if Readable(rows) {
      forall i | 0 <= i < |rows| ensures FaultAt(rows, i).None? {
        forall j | 0 <= j < i ensures rows[j].id != rows[i].id {
          assert ids[j] != ids[i];
        }
      }
    }
    if forall j :: 0 <= j < |rows| ==> FaultAt(rows, j).None? {
      assert |rows| > MAX_BASELINE_RECORDS ==> FaultAt(rows, MAX_BASELINE_RECORDS).Some?;
      forall i, j | 0 <= i < j < |ids| ensures ids[i] != ids[j] {
        assert FaultAt(rows, j).None?;
      }
      forall i | 0 <= i < |rows| ensures rows[i].id != "" {
        assert FaultAt(rows, i).None?;
      }
    }
  }

  /** The row loop of readBaselineFromDB; the query itself stops one row past the limit. */
  method ScanRows(rows: seq<Row>, hash: string -> string) returns (r: Result<seq<Record>>)
    ensures r.Ok? <==> forall j :: 0 <= j < |rows| ==> FaultAt(rows, j).None?
    ensures r.Ok? ==> r.value == Fingerprints(rows, hash)
    ensures r.Err? ==> exists i :: FirstFault(rows, i, r.error)
  {
    var seen: set<string> := {};
    var records: seq<Record> := [];
    var read := if |rows| < MAX_BASELINE_RECORDS + 1 then |rows| else MAX_BASELINE_RECORDS + 1;
    for i := 0 to read
      invariant i <= MAX_BASELINE_RECORDS
      invariant seen == set j | 0 <= j < i :: rows[j].id
      invariant forall j :: 0 <= j < i ==> FaultAt(rows, j).None?
      invariant records == Fingerprints(rows[..i], hash)
    {
      var row := rows[i];
      if row.id == "" {
        assert FirstFault(rows, i, EmptyId);
        return Err(EmptyId);
      }
      if row.id in seen {
        assert FirstFault(rows, i, DuplicateId);
        return Err(DuplicateId);
      }
      seen := seen + {row.id};
      var digest := DigestFields(row.fields, hash);
      records := records + [Record(row.id, digest, row.operation, row.result)];
      if |records| > MAX_BASELINE_RECORDS {
        assert FirstFault(rows, i, TooMany);
        return Err(TooMany);
      }
    }
    assert rows[..|rows|] == rows;
    r := Ok(records);
  }

  /** What readBaselineFromDB returns of a usable database. */
  predicate Baselined(b: RestoreBaseline, db: Database, hash: string -> string) {
    Usable(db) && b.configDigest == ConfigDigest(db.config.value, hash) && Fingerprinted(b.records, db.rows, hash)
  }

  /** readBaselineFromDB: what it refuses and why, and what it returns otherwise. */
  method ReadBaselineFromDB(db: Database, application: string, hash: string -> string) returns (r: Result<RestoreBaseline>)
    ensures r.Ok? <==> Usable(db)
    ensures r.Err? ==> if db.config.None? then r.error == Absent else exists i :: FirstFault(db.rows, i, r.error)
    ensures r.Ok? ==> r.value.version == 1 && r.value.application == application && Baselined(r.value, db, hash)
  {
    ReadableWhenFaultless(db.rows);
    if db.config.None? {
      return Err(Absent);
    }
    var configDigest := DigestFields([db.config.value.manifest, db.config.value.source], hash);
    var scanned := ScanRows(db.rows, hash);
    if scanned.Err? {
      return Err(scanned.error);
    }
    assert RecordIds(scanned.value) == RowIds(db.rows);
    var records := SortById(scanned.value);
    r := Ok(RestoreBaseline(1, application, configDigest, records));
  }

  // ----- comparing -----

  /** The map compareBaseline builds; a repeated id keeps its last digest. */
  function Expected(records: seq<Record>): map<string, string> {
    if records == [] then map[]
    else
      var k := |records| - 1;
      Expected(records[..k])[records[k].id := records[k].digest]
  }

  predicate SkippedPoll(x: Record) {
    x.operation == "poll" && x.result == "skipped"
  }

  predicate Agrees(x: Record, want: map<string, string>) {
    if x.id in want then x.digest == want[x.id] else SkippedPoll(x)
  }

  predicate Restored(records: seq<Record>, want: map<string, string>) {
    && (forall i :: 0 <= i < |records| ==> Agrees(records[i], want))
    && (forall id :: id in want ==> id in RecordIds(records))
  }

  method BuildExpected(records: seq<Record>) returns (want: map<string, string>)
    ensures want == Expected(records)
  {
    want := map[];
    for i := 0 to |records|
      invariant want == Expected(records[..i])
    {
      assert records[..i + 1][..i] == records[..i];
      want := want[records[i].id := records[i].digest];
    }
    assert records[..|records|] == records;
  }

  method CompareRecords(records: seq<Record>, want: map<string, string>) returns (r: Result<()>)
    requires Distinct(RecordIds(records))
    ensures r.Ok? <==> Restored(records, want)
    ensures r == Err(RecordDiffers) ==> exists x :: x in records && x.id in want && x.digest != want[x.id]
    ensures r == Err(UnexpectedRecord) ==> exists x :: x in records && x.id !in want && !SkippedPoll(x)
    ensures r == Err(MissingRecord) ==> exists id :: id in want && id !in RecordIds(records)
  {
    var expected := want;
    ghost var ids := RecordIds(records);
    for i := 0 to |records|
      invariant forall j :: 0 <= j < i ==> Agrees(records[j], want)
      invariant forall id :: id in expected <==> id in want && id !in ids[..i]
      invariant forall id :: id in expected ==> expected[id] == want[id]
    {
      var x := records[i];
      assert ids[i] == x.id && x.id !in ids[..i];
      assert ids[..i + 1] == ids[..i] + [x.id];
      if x.id in expected {
        if x.digest != expected[x.id] {
          assert !Agrees(x, want);
          return Err(RecordDiffers);
        }
        expected := expected - {x.id};
        continue;
      }
      if x.operation != "poll" || x.result != "skipped" {
        assert !Agrees(x, want);
        return Err(UnexpectedRecord);
      }
    }
    assert ids[..|ids|] == ids;
    if |expected| != 0 {
      var id :| id in expected;
      assert id in want && id !in ids;
      return Err(MissingRecord);
    }
    r := Ok(());
  }

  predicate Usable(db: Database) {
    db.config.Some? && Readable(db.rows)
  }

  function ConfigDigest(c: Config, hash: string -> string): string {
    hash(Encode([c.manifest, c.source]))
  }

  predicate Accepted(db: Database, baseline: RestoreBaseline, hash: string -> string) {
    && Usable(db)
    && ConfigDigest(db.config.value, hash) == baseline.configDigest
    && Restored(Fingerprints(db.rows, hash), Expected(baseline.records))
  }

  /** compareBaseline, on any baseline. */
  method CompareBaseline(db: Database, baseline: RestoreBaseline, hash: string -> string) returns (r: Result<()>)
    ensures r.Ok? <==> Accepted(db, baseline, hash)
  {
    var current := ReadBaselineFromDB(db, baseline.application, hash);
    if current.Err? {
      return Err(current.error);
    }
    if current.value.configDigest != baseline.configDigest {
      return Err(ConfigDiffers);
    }
    var want := BuildExpected(baseline.records);
    AscendingDistinct(current.value.records);
    r := CompareRecords(current.value.records, want);
    RestoredSame(current.value.records, Fingerprints(db.rows, hash), want);
  }

  lemma AscendingDistinct(records: seq<Record>)
    requires Ascending(records)
    ensures Distinct(RecordIds(records))
  {
    var ids := RecordIds(records);
    forall i, j | 0 <= i < j < |ids| ensures ids[i] != ids[j] {
      StrLessIrreflexive(ids[i]);
    }
  }

  /** The verdict depends on the records, not on their order. */
  lemma RestoredSame(a: seq<Record>, b: seq<Record>, want: map<string, string>)
    requires SameRecords(a, b)
    ensures Restored(a, want) <==> Restored(b, want)
  {
    if Restored(a, want) {
      RestoredOver(a, b, want);
    }
    if Restored(b, want) {
      RestoredOver(b, a, want);
    }
  }

  lemma RestoredOver(a: seq<Record>, b: seq<Record>, want: map<string, string>)
    requires SameRecords(a, b) && Restored(a, want)
    ensures Restored(b, want)
  {
    forall i | 0 <= i < |b| ensures Agrees(b[i], want) {
      assert b[i] in a;
    }
    forall id | id in want ensures id in RecordIds(b) {
      var i :| 0 <= i < |a| && RecordIds(a)[i] == id;
      assert a[i] in b;
      var j :| 0 <= j < |b| && b[j] == a[i];
      assert RecordIds(b)[j] == id;
    }
  }

  // ----- what the drill establishes -----

  ghost predicate HasRecord(records: seq<Record>, id: string) {
    exists x :: x in records && x.id == id
  }

  lemma {:induction false} ExpectedOf(records: seq<Record>)
    requires Distinct(RecordIds(records))
    ensures forall x :: x in records ==> x.id in Expected(records) && Expected(records)[x.id] == x.digest
    ensures forall id :: id in Expected(records) ==> HasRecord(records, id)
  {
    if records != [] {
      var k := |records| - 1;
      DistinctPrefix(records, k);
      ExpectedOf(records[..k]);
      var ids := RecordIds(records);
      forall i | 0 <= i < k ensures records[i].id != records[k].id {
        assert ids[i] != ids[k];
      }
      forall id | id in Expected(records) ensures HasRecord(records, id) {
        if id == records[k].id {
          assert records[k] in records;
        } else {
          assert HasRecord(records[..k], id);
          var x :| x in records[..k] && x.id == id;
          assert x in records;
        }
      }
    }
  }

  function FieldLists(db: Database): set<seq<string>>
    requires db.config.Some?
  {
    {[db.config.value.manifest, db.config.value.source]} + set row | row in db.rows :: row.fields
  }

  /** No two of the texts hashed for these databases collide. */
  ghost predicate Separates(hash: string -> string, before: Database, after: Database)
    requires before.config.Some? && after.config.Some?
  {
    forall x, y :: x in FieldLists(before) && y in FieldLists(after) && hash(Encode(x)) == hash(Encode(y)) ==>
      Encode(x) == Encode(y)
  }

  ghost predicate Kept(row: Row, rows: seq<Row>) {
    exists b :: b in rows && b.id == row.id && b.fields == row.fields
  }

  ghost predicate HasId(rows: seq<Row>, id: string) {
    exists a :: a in rows && a.id == id
  }

  /** Same configuration, every old row with its columns unchanged, and nothing new but skipped polls. */
  ghost predicate Intact(before: Database, after: Database) {
    && after.config == before.config
    && (forall a :: a in before.rows ==> Kept(a, after.rows))
    && (forall b :: b in after.rows ==> HasId(before.rows, b.id) || (b.operation == "poll" && b.result == "skipped"))
  }

  lemma SameText(hash: string -> string, before: Database, after: Database, x: seq<string>, y: seq<string>)
    requires before.config.Some? && after.config.Some? && Separates(hash, before, after)
    requires x in FieldLists(before) && y in FieldLists(after)
    ensures hash(Encode(x)) == hash(Encode(y)) <==> x == y
  {
    if hash(Encode(x)) == hash(Encode(y)) {
      EncodeInjective(x, y);
    }
  }

  /** The baseline's map, row by row. */
  lemma WantedRows(before: Database, baseline: RestoreBaseline, hash: string -> string)
    requires Baselined(baseline, before, hash)
    ensures var want := Expected(baseline.records);
            && (forall a :: a in before.rows ==> a.id in want && want[a.id] == hash(Encode(a.fields)))
            && (forall id :: id in want ==> HasId(before.rows, id))
  {
    var want, prints := Expected(baseline.records), Fingerprints(before.rows, hash);
    AscendingDistinct(baseline.records);
    ExpectedOf(baseline.records);
    forall a | a in before.rows ensures a.id in want && want[a.id] == hash(Encode(a.fields)) {
      var i :| 0 <= i < |before.rows| && before.rows[i] == a;
      assert prints[i] in baseline.records;
    }
    forall id | id in want ensures HasId(before.rows, id) {
      assert HasRecord(baseline.records, id);
      var x :| x in baseline.records && x.id == id;
      assert x in prints;
      var i :| 0 <= i < |prints| && prints[i] == x;
      assert before.rows[i] in before.rows;
    }
  }

  lemma AcceptedKept(before: Database, after: Database, baseline: RestoreBaseline, hash: string -> string, a: Row)
    requires Baselined(baseline, before, hash) && Usable(after) && Separates(hash, before, after)
    requires Restored(Fingerprints(after.rows, hash), Expected(baseline.records)) && a in before.rows
    ensures Kept(a, after.rows)
  {
    WantedRows(before, baseline, hash);
    var prints := Fingerprints(after.rows, hash);
    var j :| 0 <= j < |prints| && RecordIds(prints)[j] == a.id;
    var b := after.rows[j];
    assert Agrees(prints[j], Expected(baseline.records));
    SameText(hash, before, after, a.fields, b.fields);
  }

  lemma IntactAgrees(before: Database, after: Database, baseline: RestoreBaseline, hash: string -> string, j: nat)
    requires Baselined(baseline, before, hash) && Usable(after) && Intact(before, after) && j < |after.rows|
    ensures Agrees(Fingerprint(after.rows[j], hash), Expected(baseline.records))
  {
    WantedRows(before, baseline, hash);
    var b, want := after.rows[j], Expected(baseline.records);
    if b.id in want {
      assert HasId(before.rows, b.id);
      var a :| a in before.rows && a.id == b.id;
      assert Kept(a, after.rows);
      SameRow(after.rows, a, j);
    } else {
      assert b in after.rows;
    }
  }

  /** With distinct ids, the row kept of `a` is the one that has its id. */
  lemma SameRow(rows: seq<Row>, a: Row, j: nat)
    requires Distinct(RowIds(rows)) && Kept(a, rows) && j < |rows| && rows[j].id == a.id
    ensures rows[j].fields == a.fields
  {
    var b :| b in rows && b.id == a.id && b.fields == a.fields;
    var k :| 0 <= k < |rows| && rows[k] == b;
    var ids := RowIds(rows);
    assert ids[k] == ids[j];
  }

  lemma IntactRestored(before: Database, after: Database, baseline: RestoreBaseline, hash: string -> string)
    requires Baselined(baseline, before, hash) && Usable(after) && Intact(before, after)
    ensures Restored(Fingerprints(after.rows, hash), Expected(baseline.records))
  {
    WantedRows(before, baseline, hash);
    var prints, want := Fingerprints(after.rows, hash), Expected(baseline.records);
    forall j | 0 <= j < |prints| ensures Agrees(prints[j], want) {
      IntactAgrees(before, after, baseline, hash, j);
    }
    forall id | id in want ensures id in RecordIds(prints) {
      assert HasId(before.rows, id);
      var a :| a in before.rows && a.id == id;
      assert Kept(a, after.rows);
      var b :| b in after.rows && b.id == a.id && b.fields == a.fields;
      var k :| 0 <= k < |after.rows| && after.rows[k] == b;
      assert RecordIds(prints)[k] == id;
    }
  }

  lemma AcceptedIntact(before: Database, after: Database, baseline: RestoreBaseline, hash: string -> string)
    requires Baselined(baseline, before, hash) && before.config.Some? && after.config.Some?
    requires Separates(hash, before, after) && Accepted(after, baseline, hash)
    ensures Intact(before, after)
  {
    WantedRows(before, baseline, hash);
    var x, y := before.config.value, after.config.value;
    SameText(hash, before, after, [x.manifest, x.source], [y.manifest, y.source]);
    assert [x.manifest, x.source][0] == [y.manifest, y.source][0];
    assert [x.manifest, x.source][1] == [y.manifest, y.source][1];
    forall a | a in before.rows ensures Kept(a, after.rows) {
      AcceptedKept(before, after, baseline, hash, a);
    }
    var prints := Fingerprints(after.rows, hash);
    forall b | b in after.rows ensures HasId(before.rows, b.id) || (b.operation == "poll" && b.result == "skipped") {
      var j :| 0 <= j < |after.rows| && after.rows[j] == b;
      assert Agrees(prints[j], Expected(baseline.records));
      assert prints[j].id == b.id;
    }
  }

  /**
   * With a hash that does not confuse the texts at hand, the baseline of one
   * database is accepted against another exactly when the configuration and
   * every history row came through unchanged and only skipped polls were added.
   */
  lemma DrillMeaning(before: Database, after: Database, baseline: RestoreBaseline, hash: string -> string)
    requires Baselined(baseline, before, hash) && Usable(after) && Separates(hash, before, after)
    ensures Accepted(after, baseline, hash) <==> Intact(before, after)
  {
    if Accepted(after, baseline, hash) {
      AcceptedIntact(before, after, baseline, hash);
    }
    if Intact(before, after) {
      IntactRestored(before, after, baseline, hash);
    }
  }
}
