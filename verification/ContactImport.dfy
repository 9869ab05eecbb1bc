/** The bulk import: rows deduplicated by a text key, then inserted in chunks that may fail one by one. */
module ContactImport {
  import opened Options
  import opened Arithmetic
  import opened Texts
  import opened Decimals

  datatype Row = Row(
    name: string,
    phone: Option<string>,
    email: Option<string>,
    tags: seq<string>,
    notes: Option<string>)

  // ---------- Phones ----------

  function Digits(s: string): string {
    if s == "" then "" else (if IsDigit(s[0]) then [s[0]] else "") + Digits(s[1..])
  }

  function NormalizePhone(raw: string): Option<string> {
    var digits := Digits(raw);
    if raw == "" || |digits| < 7 || |digits| > 15 then None else Some(digits)
  }

  lemma {:induction false} DigitsAreDigits(s: string)
    ensures forall c :: c in Digits(s) ==> IsDigit(c)
    ensures (forall c :: c in s ==> IsDigit(c)) ==> Digits(s) == s
  {
    if s != "" {
      DigitsAreDigits(s[1..]);
      assert s == [s[0]] + s[1..];
    }
  }

  /** A normalised phone is seven to fifteen digits, and normalising it again changes nothing; so the second check of
      the upload, which looks for phones of fewer than seven digits, finds none. */
  lemma NormalizedPhone(raw: string)
    requires NormalizePhone(raw).Some?
    ensures
      var p := NormalizePhone(raw).value;
      && 7 <= |p| <= 15 && (forall c :: c in p ==> IsDigit(c))
      && NormalizePhone(p) == Some(p) && !(|Digits(p)| < 7)
  {
    DigitsAreDigits(raw);
    DigitsAreDigits(NormalizePhone(raw).value);
  }

  lemma {:induction false} DigitsConcat(a: string, b: string)
    ensures Digits(a + b) == Digits(a) + Digits(b)
  {
    if a == "" {
      assert a + b == b;
    } else {
      var first := if IsDigit(a[0]) then [a[0]] else "";
      assert (a + b)[1..] == a[1..] + b && (a + b)[0] == a[0];
      DigitsConcat(a[1..], b);
      assert Digits(a + b) == first + (Digits(a[1..]) + Digits(b));
    }
  }

  /** A phone is accepted for its number of digits alone, and what is kept does not depend on what stands between them:
      any character that is no digit can be put in or left out anywhere. */
  lemma SeparatorsDoNotMatter(a: string, c: char, b: string)
    requires !IsDigit(c) && a + b != ""
    ensures NormalizePhone(a + [c] + b) == NormalizePhone(a + b)
  {
    DigitsConcat(a, [c] + b);
    DigitsConcat([c], b);
    DigitsConcat(a, b);
    assert a + [c] + b == a + ([c] + b) && |a + [c] + b| > 0;
    assert [c][1..] == "" && Digits([c]) == "" + Digits([c][1..]) == "";
    assert Digits(a + [c] + b) == Digits(a) + Digits(b) == Digits(a + b);
  }

  lemma PlainPhoneKeptIff(digits: string)
    requires forall c :: c in digits ==> IsDigit(c)
    ensures NormalizePhone(digits) == if 7 <= |digits| <= 15 then Some(digits) else None
  {
    DigitsAreDigits(digits);
  }

  // ---------- The key ----------

  function Text(o: Option<string>): string { if o.Some? then o.value else "" }

  function Key(r: Row): string { r.name + "|" + Text(r.phone) + "|" + Text(r.email) }

  /** What the parser produces: digits for a phone, no empty email. */
  predicate Parsed(r: Row) {
    && (r.phone.Some? ==> r.phone.value != "" && forall c :: c in r.phone.value ==> IsDigit(c))
    && (r.email.Some? ==> r.email.value != "")
  }

  function EmailBars(r: Row): nat { Occurrences(Text(r.email), '|') }

  predicate SameContact(a: Row, b: Row) { a.name == b.name && a.phone == b.phone && a.email == b.email }

  /** Parsed rows are the same contact exactly when they share a key and have equally many bars in their emails,
      whatever bars there are in their names. */
  lemma KeyTellsApartIff(a: Row, b: Row)
    requires Parsed(a) && Parsed(b)
    ensures Key(a) == Key(b) && EmailBars(a) == EmailBars(b) <==> SameContact(a, b)
  {
    if Key(a) == Key(b) && EmailBars(a) == EmailBars(b) {
      SplitAtSeparator(a.name + "|" + Text(a.phone), Text(a.email), b.name + "|" + Text(b.phone), Text(b.email), '|');
      NoOccurrence(Text(a.phone), '|');
      NoOccurrence(Text(b.phone), '|');
      SplitAtSeparator(a.name, Text(a.phone), b.name, Text(b.phone), '|');
    }
  }

  /** So the key alone tells contacts apart as long as emails have no bar. */
  lemma KeyIsInjective(a: Row, b: Row)
    requires Parsed(a) && Parsed(b) && '|' !in Text(a.email) && '|' !in Text(b.email)
    ensures Key(a) == Key(b) <==> SameContact(a, b)
  {
    NoOccurrence(Text(a.email), '|');
    NoOccurrence(Text(b.email), '|');
    KeyTellsApartIff(a, b);
  }

  function Given(s: string): Option<string> { if s == "" then None else Some(s) }

  /** Nothing rejects a bar in an email. If digits, or nothing, stand before the first one, another contact has the same
      key: the name takes in the phone, and the phone those digits. */
  lemma BarredEmailCollides(a: Row, digits: string, rest: string)
    requires Parsed(a) && a.email == Some(digits + "|" + rest) && forall c :: c in digits ==> IsDigit(c)
    ensures
      var b := Row(a.name + "|" + Text(a.phone), Given(digits), Given(rest), a.tags, a.notes);
      Parsed(b) && Key(a) == Key(b) && !SameContact(a, b)
  {
    var b := Row(a.name + "|" + Text(a.phone), Given(digits), Given(rest), a.tags, a.notes);
    assert Text(b.phone) == digits && Text(b.email) == rest;
    assert a.name + "|" + Text(a.phone) + "|" + (digits + "|" + rest)
        == a.name + "|" + Text(a.phone) + "|" + digits + "|" + rest;
    assert |b.name| > |a.name|;
  }

  // ---------- Deduplication ----------

  /** The rows whose key is not in `seen` and not on an earlier row. */
  function Dedup(rows: seq<Row>, seen: set<string>): seq<Row> {
    if rows == [] then []
    else if Key(rows[0]) in seen then Dedup(rows[1..], seen)
    else [rows[0]] + Dedup(rows[1..], seen + {Key(rows[0])})
  }

  /** The rows that no row before them, down to the first, is the same contact as. */
  function FirstOfEach(rows: seq<Row>): seq<Row> {
    if rows == [] then [] else
      var init, last := rows[..|rows| - 1], rows[|rows| - 1];
      FirstOfEach(init) + if exists r :: r in init && SameContact(r, last) then [] else [last]
  }

  lemma {:induction false} DedupSnoc(rows: seq<Row>, row: Row, seen: set<string>)
    ensures Dedup(rows + [row], seen) ==
      Dedup(rows, seen) + if Key(row) in seen || exists r :: r in rows && Key(r) == Key(row) then [] else [row]
    decreases |rows|
  {
    if rows != [] {
      assert (rows + [row])[1..] == rows[1..] + [row];
      assert rows == [rows[0]] + rows[1..];
      DedupSnoc(rows[1..], row, if Key(rows[0]) in seen then seen else seen + {Key(rows[0])});
    }
  }

  predicate AllParsed(rows: seq<Row>) { forall r :: r in rows ==> Parsed(r) }

  /** Rows that share a key have equally many bars in their emails. */
  predicate KeysTellApart(rows: seq<Row>) {
    forall r, q :: r in rows && q in rows && Key(r) == Key(q) ==> EmailBars(r) == EmailBars(q)
  }

  lemma SameRowsAgree(a: Row, b: Row)
    ensures SameContact(a, b) ==> Key(a) == Key(b) && EmailBars(a) == EmailBars(b)
  {
  }

  /** A row that breaks the rule for the first time shares its key with an earlier contact that it is not. */
  lemma ClashAtTheEnd(init: seq<Row>, last: Row)
    requires AllParsed(init + [last]) && KeysTellApart(init) && !KeysTellApart(init + [last])
    ensures exists r :: r in init && Key(r) == Key(last)
    ensures forall r :: r in init ==> !SameContact(r, last)
  {
    var rows := init + [last];
    var r, q :| r in rows && q in rows && Key(r) == Key(q) && EmailBars(r) != EmailBars(q);
    var other := if r in init then r else q;
    assert (r in init || r == last) && (q in init || q == last) && !(r in init && q in init);
    assert other in init && Key(other) == Key(last) && EmailBars(other) != EmailBars(last);
    forall r | r in init ensures !SameContact(r, last) {
      SameRowsAgree(r, last);
      assert Key(r) == Key(other) ==> EmailBars(r) == EmailBars(other);
    }
  }

  lemma {:induction false} DedupSize(rows: seq<Row>)
    requires AllParsed(rows)
    ensures |Dedup(rows, {})| <= |FirstOfEach(rows)|
    ensures !KeysTellApart(rows) ==> |Dedup(rows, {})| < |FirstOfEach(rows)|
  {
    if rows != [] {
      var init, last := rows[..|rows| - 1], rows[|rows| - 1];
      assert rows == init + [last];
      DedupSize(init);
      DedupSnoc(init, last, {});
      if KeysTellApart(init) && !KeysTellApart(rows) {
        ClashAtTheEnd(init, last);
      }
    }
  }

  /** Deduplication keeps exactly the first row of each contact, in order, if and only if no two rows share a key with
      different numbers of bars in their emails; otherwise it loses contacts. */
  lemma {:induction false} DedupKeepsFirstsIff(rows: seq<Row>)
    requires AllParsed(rows)
    ensures Dedup(rows, {}) == FirstOfEach(rows) <==> KeysTellApart(rows)
    ensures !KeysTellApart(rows) ==> |Dedup(rows, {})| < |FirstOfEach(rows)|
  {
    DedupSize(rows);
    if rows != [] && KeysTellApart(rows) {
      var init, last := rows[..|rows| - 1], rows[|rows| - 1];
      assert rows == init + [last];
      DedupKeepsFirstsIff(init);
      DedupSnoc(init, last, {});
      forall r | r in init ensures Key(r) == Key(last) <==> SameContact(r, last) {
        KeyTellsApartIff(r, last);
      }
    }
  }

  lemma {:induction false} DedupIsShorter(rows: seq<Row>, seen: set<string>)
    ensures |Dedup(rows, seen)| <= |rows|
    decreases |rows|
  {
    if rows != [] {
      DedupIsShorter(rows[1..], if Key(rows[0]) in seen then seen else seen + {Key(rows[0])});
    }
  }

  // ---------- Chunks ----------

  const CHUNK := 500

  function Flatten(batches: seq<seq<Row>>): seq<Row> {
    if batches == [] then [] else Flatten(batches[..|batches| - 1]) + batches[|batches| - 1]
  }

  /** `create` is the database's answer to a batch: the rows it created, or None where it throws. */
  function Created(batches: seq<seq<Row>>, create: seq<Row> -> Option<nat>): nat {
    if batches == [] then 0 else
      var answer := create(batches[|batches| - 1]);
      Created(batches[..|batches| - 1], create) + if answer.Some? then answer.value else 0
  }

  function FailedRows(batches: seq<seq<Row>>, create: seq<Row> -> Option<nat>): nat {
    if batches == [] then 0 else
      FailedRows(batches[..|batches| - 1], create) +
      if create(batches[|batches| - 1]).None? then |batches[|batches| - 1]| else 0
  }

  predicate AllFull(batches: seq<seq<Row>>) { forall b :: b in batches ==> |b| == 500 }

  /** Only the last chunk may be short, and none is empty. */
  predicate Chunked(batches: seq<seq<Row>>) {
    batches != [] ==> AllFull(batches[..|batches| - 1]) && 0 < |batches[|batches| - 1]| <= 500
  }

  lemma ChunkedSnoc(batches: seq<seq<Row>>, chunk: seq<Row>)
    requires AllFull(batches) && 0 < |chunk| <= CHUNK
    ensures Chunked(batches + [chunk]) && (|chunk| == CHUNK ==> AllFull(batches + [chunk]))
  {
    assert (batches + [chunk])[..|batches|] == batches;
  }

  /** `slice(i, i + CHUNK)` */
  function ChunkAt(rows: seq<Row>, i: nat): (chunk: seq<Row>)
    requires i < |rows|
    ensures |chunk| == Min(CHUNK, |rows| - i)
  {
    rows[i..Min(i + CHUNK, |rows|)]
  }

  /** The first i rows, or all of them if there are fewer, have been handed over. */
  ghost predicate Progress(batches: seq<seq<Row>>, deduped: seq<Row>, i: nat) {
    && i == CHUNK * |batches| && Chunked(batches) && (i < |deduped| ==> AllFull(batches))
    && Flatten(batches) == deduped[..Min(i, |deduped|)]
  }

  lemma ProgressStep(batches: seq<seq<Row>>, deduped: seq<Row>, i: nat)
    requires Progress(batches, deduped, i) && i < |deduped|
    ensures i / CHUNK == |batches|
    ensures Progress(batches + [ChunkAt(deduped, i)], deduped, i + CHUNK)
  {
    var end := Min(i + CHUNK, |deduped|);
    var chunk := ChunkAt(deduped, i);
    ChunkedSnoc(batches, chunk);
    assert (batches + [chunk])[..|batches|] == batches;
    assert deduped[..i] + chunk == deduped[..end];
  }

  function FailedChunks(batches: seq<seq<Row>>, create: seq<Row> -> Option<nat>): seq<nat> {
    if batches == [] then [] else
      FailedChunks(batches[..|batches| - 1], create) +
      if create(batches[|batches| - 1]).None? then [|batches|] else []
  }

  lemma {:induction false} FailedChunksAre(batches: seq<seq<Row>>, create: seq<Row> -> Option<nat>, e: nat)
    ensures e in FailedChunks(batches, create) <==> 1 <= e <= |batches| && create(batches[e - 1]).None?
  {
    if batches != [] {
      FailedChunksAre(batches[..|batches| - 1], create, e);
    }
  }

  /** A database never reports more rows than it was given. */
  ghost predicate Honest(create: seq<Row> -> Option<nat>) { forall b :: create(b).Some? ==> create(b).value <= |b| }

  class ImportService {
    var batches: seq<seq<Row>>

    constructor ()
      ensures batches == []
    {
      batches := [];
    }

    /** The first loop: what is kept, in order. */
    method Deduplicate(contacts: seq<Row>) returns (deduped: seq<Row>)
      ensures deduped == Dedup(contacts, {})
    {
      var seen := {};
      deduped := [];
      var i := 0;
      while i < |contacts|
        invariant i <= |contacts| && deduped + Dedup(contacts[i..], seen) == Dedup(contacts, {})
      {
        var key := Key(contacts[i]);
        assert contacts[i..][1..] == contacts[i + 1..];
        if key !in seen {
          seen := seen + {key};
          deduped := deduped + [contacts[i]];
        }
        i := i + 1;
      }
    }

    /** One turn of the second loop. */
    method InsertChunk(chunk: seq<Row>, number: nat, create: seq<Row> -> Option<nat>)
      returns (inserted: nat, skipped: nat, errors: seq<nat>)
      requires Honest(create) && number == |batches| + 1
      modifies this
      ensures batches == old(batches) + [chunk]
      ensures Created(batches, create) == Created(old(batches), create) + inserted
      ensures inserted + skipped + FailedRows(batches, create) == FailedRows(old(batches), create) + |chunk|
      ensures FailedChunks(batches, create) == FailedChunks(old(batches), create) + errors
    {
      inserted, skipped, errors := 0, 0, [];
      var answer := create(chunk);
      if answer.Some? {
        inserted := answer.value;
        skipped := |chunk| - answer.value;
      } else {
        errors := [number];
      }
      batches := batches + [chunk];
      assert batches[..|batches| - 1] == old(batches);
    }

    /** The second loop. Every row is accounted for: inserted, skipped, or in a chunk that failed; and the chunks are
        the rows, 500 at a time. */
    method InsertAll(deduped: seq<Row>, create: seq<Row> -> Option<nat>)
      returns (inserted: nat, skipped: nat, errors: seq<nat>)
      requires Honest(create) && batches == []
      modifies this
      ensures Flatten(batches) == deduped && Chunked(batches)
      ensures inserted == Created(batches, create)
      ensures inserted + skipped + FailedRows(batches, create) == |deduped|
      ensures errors == FailedChunks(batches, create)
    {
      inserted, skipped, errors := 0, 0, [];
      var i := 0;
      while i < |deduped|
        invariant Progress(batches, deduped, i)
        invariant inserted == Created(batches, create)
        invariant inserted + skipped + FailedRows(batches, create) == Min(i, |deduped|)
        invariant errors == FailedChunks(batches, create)
      {
        ProgressStep(batches, deduped, i);
        var chunk := ChunkAt(deduped, i);
        assert Min(i, |deduped|) + |chunk| == Min(i + CHUNK, |deduped|);
        ghost var before := batches;
        var created, known, failed := InsertChunk(chunk, i / CHUNK + 1, create);
        assert batches == before + [chunk];
        assert Progress(batches, deduped, i + CHUNK);
        inserted, skipped, errors := inserted + created, skipped + known, errors + failed;
        i := i + CHUNK;
      }
      assert deduped[..|deduped|] == deduped;
    }

    method BulkInsertContacts(contacts: seq<Row>, create: seq<Row> -> Option<nat>)
      returns (inserted: nat, skipped: nat, errors: seq<nat>)
      requires Honest(create) && batches == []
      modifies this
      ensures Flatten(batches) == Dedup(contacts, {}) && Chunked(batches)
      ensures inserted == Created(batches, create)
      ensures inserted + skipped + FailedRows(batches, create) == |contacts|
      ensures errors == FailedChunks(batches, create)
    {
      inserted, skipped, errors := 0, 0, [];
      if contacts == [] {
        return;
      }
      var deduped := Deduplicate(contacts);
      DedupIsShorter(contacts, {});
      inserted, skipped, errors := InsertAll(deduped, create);
      skipped := skipped + (|contacts| - |deduped|);
    }
  }
}
