/** `TriggerInvoiceImportView`: the folder scan that creates or resets a record
    for every PDF found under the base path and queues its job. */
module ScanTrigger {
  import opened Wrappers
  import opened Text
  import opened Dates
  import opened Money
  import opened Users
  import opened Audit
  import opened Invoices
  import opened Database
  import opened InvoiceViews
  import DirectoryScanner
  import ImportManager
  import InvoiceTasks

  const DefaultBasePath: string := "G:\\Controle de TI\\Planilhas de controles\\Despesas T.I"
  const ScanStartedMessage: string := "Processamento em segundo plano iniciado"

  // ---- `int()` of the folder name ----

  /** Digits with single underscores between them, the digit part Python's
      `int()` accepts. */
  predicate UnderscoredDigits(s: string) {
    |s| > 0 && IsDigit(s[0]) && forall i :: 0 <= i < |s| ==> DigitOrJoin(s, i)
  }

  /** Position `i` holds a digit, or an underscore with a digit after it. */
  predicate DigitOrJoin(s: string, i: nat)
    requires i < |s|
  {
    IsDigit(s[i]) || (s[i] == '_' && i + 1 < |s| && IsDigit(s[i + 1]))
  }

  /** An optional sign, then underscored digits. */
  predicate IntLiteral(t: string) {
    UnderscoredDigits(t) || (|t| > 0 && (t[0] == '+' || t[0] == '-') && UnderscoredDigits(t[1..]))
  }

  /** The digits of `s`, underscores dropped. */
  function DigitsOf(s: string): (r: string)
    ensures AllDigits(r)
    ensures AllDigits(s) ==> r == s
  {
    if |s| == 0 then ""
    else
      assert s == [s[0]] + s[1..];
      (if IsDigit(s[0]) then [s[0]] else []) + DigitsOf(s[1..])
  }

  /** `int(s)` of a string: surrounding whitespace is stripped, then an
      optional sign and digits with single underscores between them are read;
      any other text raises (`None`). */
  function PyInt(s: string): (r: Option<int>)
    ensures r.Some? <==> IntLiteral(PyStrip(s))
    ensures |s| > 0 && AllDigits(s) ==> r == Some(DigitsToNat(s))
  {
    var t := PyStrip(s);
    if UnderscoredDigits(t) then Some(DigitsToNat(DigitsOf(t)))
    else if |t| > 0 && (t[0] == '+' || t[0] == '-') && UnderscoredDigits(t[1..]) then
      var n: int := DigitsToNat(DigitsOf(t[1..]));
      Some(if t[0] == '-' then -n else n)
    else None
  }

  /** `int()` reads back `str()` of every integer, negative ones included. */
  lemma PyIntRoundTrip(n: int)
    ensures PyInt(IntToString(n)) == Some(n)
  {
    if n < 0 {
      NegativeRead(n);
    } else {
      NonNegativeRead(n);
    }
  }

  lemma NegativeRead(n: int)
    requires n < 0
    ensures PyInt(IntToString(n)) == Some(n)
  {
    var d := NatToString(-n);
    calc {
      PyInt(IntToString(n));
      { assert IntToString(n) == "-" + d; }
      PyInt("-" + d);
      { MinusRead(d); }
      Some(0 - DigitsToNat(d));
      { NatToStringRoundTrip(-n); }
      Some(n);
    }
  }

  lemma NonNegativeRead(n: nat)
    ensures PyInt(IntToString(n)) == Some(n)
  {
    var d := NatToString(n);
    assert IntToString(n) == d;
    NatToStringRoundTrip(n);
    PlainRead(d);
  }

  lemma PlainRead(s: string)
    requires |s| > 0 && AllDigits(s)
    ensures PyInt(s) == Some(DigitsToNat(s))
  {
  }

  /** Text of digits, underscores and signs holds no whitespace, so stripping
      keeps it. */
  lemma StripNone(s: string)
    requires forall i :: 0 <= i < |s| ==> IsDigit(s[i]) || s[i] == '_' || s[i] == '+' || s[i] == '-'
    ensures PyStrip(s) == s
  {
  }

  /** Plain digits are underscored digits with nothing to drop. */
  lemma PlainDigits(s: string)
    requires |s| > 0 && AllDigits(s)
    ensures UnderscoredDigits(s) && DigitsOf(s) == s
  {
  }

  /** Whitespace around the digits is stripped. */
  lemma PyIntSpaced(s: string)
    requires |s| > 0 && AllDigits(s)
    ensures PyInt(" " + s) == Some(DigitsToNat(s))
    ensures PyInt(s + "\n") == Some(DigitsToNat(s))
  {
    PlainDigits(s);
    SpaceBefore(s);
    LineAfter(s);
  }

  lemma SpaceBefore(s: string)
    requires |s| > 0 && AllDigits(s)
    ensures PyStrip(" " + s) == s
  {
    var t := " " + s;
    assert t[1..] == s;
    assert LeadingCount(s, IsPyWhitespace) == 0;
    assert LeadingCount(t, IsPyWhitespace) == 1;
    assert TrailingCount(s, IsPyWhitespace) == 0;
  }

  lemma LineAfter(s: string)
    requires |s| > 0 && AllDigits(s)
    ensures PyStrip(s + "\n") == s
  {
    var t := s + "\n";
    assert LeadingCount(t, IsPyWhitespace) == 0;
    assert t[..|t| - 1] == s;
    assert TrailingCount(t, IsPyWhitespace) == 1;
  }

  /** A sign in front of the digits is read. */
  lemma PyIntSigned(s: string)
    requires |s| > 0 && AllDigits(s)
    ensures PyInt("+" + s) == Some(DigitsToNat(s))
    ensures PyInt("-" + s) == Some(0 - DigitsToNat(s))
  {
    PlusRead(s);
    MinusRead(s);
  }

  lemma PlusRead(s: string)
    requires |s| > 0 && AllDigits(s)
    ensures PyInt("+" + s) == Some(DigitsToNat(s))
  {
    PlainDigits(s);
    SignedStrip(s, '+');
  }

  lemma MinusRead(s: string)
    requires |s| > 0 && AllDigits(s)
    ensures PyInt("-" + s) == Some(0 - DigitsToNat(s))
  {
    PlainDigits(s);
    SignedStrip(s, '-');
  }

  lemma SignedStrip(s: string, sign: char)
    requires |s| > 0 && AllDigits(s) && (sign == '+' || sign == '-')
    ensures PyStrip([sign] + s) == [sign] + s && ([sign] + s)[1..] == s
    ensures !UnderscoredDigits([sign] + s)
  {
    StripNone([sign] + s);
  }

  /** Dropping underscores distributes over concatenation. */
  lemma {:induction false} DigitsOfConcat(x: string, y: string)
    ensures DigitsOf(x + y) == DigitsOf(x) + DigitsOf(y)
    decreases |x|
  {
    if |x| > 0 {
      assert (x + y)[1..] == x[1..] + y;
      DigitsOfConcat(x[1..], y);
    } else {
      assert x + y == y;
    }
  }

  /** One underscore between digit runs is read as if absent. */
  lemma PyIntUnderscore(a: string, b: string)
    requires |a| > 0 && |b| > 0 && AllDigits(a) && AllDigits(b)
    ensures PyInt(a + "_" + b) == Some(DigitsToNat(a + b))
  {
    UnderscoreJoin(a, b);
    UnderscoreDropped(a, b);
  }

  lemma UnderscoreDropped(a: string, b: string)
    requires AllDigits(a) && AllDigits(b)
    ensures DigitsOf(a + "_" + b) == a + b
  {
    DigitsOfConcat(a + "_", b);
    DigitsOfConcat(a, "_");
    NoDigitsInUnderscore();
  }

  lemma NoDigitsInUnderscore()
    ensures DigitsOf("_") == ""
  {
    assert "_"[1..] == "";
  }

  lemma UnderscoreJoin(a: string, b: string)
    requires |a| > 0 && |b| > 0 && AllDigits(a) && AllDigits(b)
    ensures PyStrip(a + "_" + b) == a + "_" + b && UnderscoredDigits(a + "_" + b)
  {
    var t := a + "_" + b;
    StripNone(t);
    assert t[|a|] == '_' && t[|a| + 1] == b[0];
  }

  /** What `int()` refuses: doubled, leading or trailing underscores, a bare
      sign, and blank text. */
  lemma PyIntStrict(a: string, b: string)
    requires |a| > 0 && |b| > 0 && AllDigits(a) && AllDigits(b)
    ensures PyInt(a + "__" + b).None? && PyInt("_" + a).None? && PyInt(a + "_").None?
    ensures PyInt("+").None? && PyInt("").None? && PyInt(" ").None?
  {
    DoubleUnderscore(a, b);
    LeadingUnderscore(a);
    TrailingUnderscore(a);
    StripNone("+");
    assert "+"[1..] == "";
    assert PyStrip(" ") == "";
  }

  lemma DoubleUnderscore(a: string, b: string)
    requires |a| > 0 && |b| > 0 && AllDigits(a) && AllDigits(b)
    ensures !IntLiteral(PyStrip(a + "__" + b))
  {
    var t := a + "__" + b;
    StripNone(t);
    assert t[0] == a[0] && IsDigit(t[0]);
    assert t[|a|] == '_' && t[|a| + 1] == '_';
    NotUnderscoredAt(t, |a|);
  }

  lemma LeadingUnderscore(a: string)
    requires |a| > 0 && AllDigits(a)
    ensures !IntLiteral(PyStrip("_" + a))
  {
    StripNone("_" + a);
  }

  lemma TrailingUnderscore(a: string)
    requires |a| > 0 && AllDigits(a)
    ensures !IntLiteral(PyStrip(a + "_"))
  {
    var u := a + "_";
    StripNone(u);
    assert u[0] == a[0] && IsDigit(u[0]);
    assert u[|a|] == '_' && |a| + 1 == |u|;
    NotUnderscoredAt(u, |a|);
  }

  /** A character that is neither a digit nor an underscore before a digit
      spoils the digit part. */
  lemma NotUnderscoredAt(t: string, i: nat)
    requires i < |t| && !IsDigit(t[i]) && !(t[i] == '_' && i + 1 < |t| && IsDigit(t[i + 1]))
    ensures !UnderscoredDigits(t)
  {
    assert !DigitOrJoin(t, i);
  }

  /** The `year` default: the scanned folder name when it is non-empty, the
      current year otherwise; the name reaches the integer column, whose save
      reads it with `int()` and raises when that fails. */
  function TriggerYear(year: string, today: Date): (r: Option<int>)
    ensures year == "" ==> r == Some(today.year)
    ensures year != "" ==> (r.Some? <==> IntLiteral(PyStrip(year)))
    ensures year != "" && AllDigits(year) ==> r == Some(DigitsToNat(year))
  {
    if year == "" then Some(today.year) else PyInt(year)
  }

  /** A year folder named the way `str()` writes a year is read as that year. */
  lemma TriggerYearRoundTrip(n: int, today: Date)
    ensures TriggerYear(IntToString(n), today) == Some(n)
  {
    PyIntRoundTrip(n);
  }

  /** The record `get_or_create` makes for a scanned file: the folder names
      with their fallbacks, PROCESSING, and (as written) no stored file. */
  function ScannedRecord(e: DirectoryScanner.ScanResult, h: string, year: int, file: string,
                         now: Moment): (r: InvoiceImport)
    requires IsValidMoment(now)
    ensures WellFormedImport(r) && r.fileHash == h && r.report.None? && r.file == file
    ensures r.status == Processing && r.filePath == e.path && r.year == year
    ensures r.city != "" && r.carrier != "" && r.month != ""
    ensures e.city != "" ==> r.city == e.city
    ensures e.carrier != "" ==> r.carrier == e.carrier
    ensures e.month != "" ==> r.month == e.month
  {
    NewImport(e.path, h, year, if e.city != "" then e.city else "N/A",
              if e.carrier != "" then e.carrier else "OUTROS",
              if e.month != "" then e.month else "N/A", now).(status := Processing, file := file)
  }

  /** One scanned file: hash it (an error skips the file), get or create its
      record, set an existing one to PROCESSING with a full save, and queue
      its job. With `attach`, a record without a stored file also receives a
      copy of the PDF under its hash, as the upload view does. */
  function TriggerStep(db: Db, e: DirectoryScanner.ScanResult, hash: Result<string, string>,
                       now: Moment, attach: bool): (r: (Db, Option<nat>))
    requires Valid(db) && IsValidMoment(now)
    ensures Valid(r.0) && r.0.reports == db.reports && r.0.categories == db.categories && r.0.log == db.log
    ensures r.1.None? ==> r.0 == db
    ensures hash.Err? ==> r == (db, None)
    ensures r.1.Some? ==> (r.1.value < |r.0.imports| && hash.Ok?
              && r.0.imports[r.1.value].status == Processing && r.0.imports[r.1.value].fileHash == hash.value)
    ensures attach && r.1.Some? ==> r.0.imports[r.1.value].file != ""
    ensures |db.imports| <= |r.0.imports| <= |db.imports| + 1
    ensures |r.0.imports| == |db.imports| + 1 ==>
              r.1 == Some(|db.imports|) && (!attach ==> r.0.imports[|db.imports|].file == "")
    ensures forall k :: 0 <= k < |db.imports| && r.1 != Some(k) ==> r.0.imports[k] == db.imports[k]
    ensures forall k :: 0 <= k < |db.imports| ==>
              r.0.imports[k].file == db.imports[k].file || (attach && db.imports[k].file == "")
    ensures hash.Ok? && FindByHash(db.imports, hash.value).Some? ==> r.1 == FindByHash(db.imports, hash.value)
    ensures hash.Ok? && FindByHash(db.imports, hash.value).None? ==>
              (r.1.Some? <==> TriggerYear(e.year, now.date).Some?)
  {
    match hash
    case Err(_) => (db, None)
    case Ok(h) =>
      match FindByHash(db.imports, h)
      case Some(k) =>
        var rec := db.imports[k];
        var file := if attach && rec.file == "" then HashFileName(h, now.date) else rec.file;
        (Resave(db, k, rec.(status := Processing, updatedAt := now, file := file)), Some(k))
      case None =>
        match TriggerYear(e.year, now.date)
        case None => (db, None)
        case Some(year) =>
          var file := if attach then HashFileName(h, now.date) else "";
          var (db1, k) := AddImport(db, ScannedRecord(e, h, year, file, now));
          (db1, Some(k))
  }

  /** The import ids one step queues. */
  function Queued(id: Option<nat>): (s: seq<nat>)
    ensures |s| <= 1 && (|s| == 1 <==> id.Some?) && (id.Some? ==> s[0] == id.value)
  {
    if id.Some? then [id.value] else []
  }

  /** Every file of the scan, in order. */
  function TriggerLoop(db: Db, entries: seq<DirectoryScanner.ScanResult>,
                       hashOf: string -> Result<string, string>, now: Moment, attach: bool): (r: (Db, seq<nat>))
    requires Valid(db) && IsValidMoment(now)
    ensures Valid(r.0) && r.0.reports == db.reports && r.0.categories == db.categories && r.0.log == db.log
    ensures |r.1| <= |entries| && |db.imports| <= |r.0.imports|
    decreases |entries|
  {
    if |entries| == 0 then (db, [])
    else
      var (db1, id) := TriggerStep(db, entries[0], hashOf(entries[0].path), now, attach);
      var (db2, rest) := TriggerLoop(db1, entries[1..], hashOf, now, attach);
      (db2, Queued(id) + rest)
  }

  /** Every queued id names a record left PROCESSING; a record that was not
      queued is as it was, and every record the scan created was queued. */
  predicate QueuedProcessing(db: Db, r: (Db, seq<nat>)) {
    |db.imports| <= |r.0.imports|
    && (forall i :: 0 <= i < |r.1| ==> r.1[i] < |r.0.imports| && r.0.imports[r.1[i]].status == Processing)
    && (forall k :: 0 <= k < |db.imports| && k !in r.1 ==> r.0.imports[k] == db.imports[k])
    && (forall k :: |db.imports| <= k < |r.0.imports| ==> k in r.1)
  }

  /** What one step promises about the record it queues. */
  predicate StepQueued(db: Db, step: (Db, Option<nat>)) {
    |db.imports| <= |step.0.imports| <= |db.imports| + 1
    && (|step.0.imports| == |db.imports| + 1 ==> step.1 == Some(|db.imports|))
    && (step.1.Some? ==> step.1.value < |step.0.imports| && step.0.imports[step.1.value].status == Processing)
    && (forall k :: 0 <= k < |db.imports| && step.1 != Some(k) ==> step.0.imports[k] == db.imports[k])
  }

  /** A step followed by the rest of the scan. */
  lemma QueuedCompose(db: Db, step: (Db, Option<nat>), rest: (Db, seq<nat>))
    requires StepQueued(db, step) && QueuedProcessing(step.0, rest)
    ensures QueuedProcessing(db, (rest.0, Queued(step.1) + rest.1))
  {
    var r := (rest.0, Queued(step.1) + rest.1);
    forall i | 0 <= i < |r.1|
      ensures r.1[i] < |r.0.imports| && r.0.imports[r.1[i]].status == Processing
    {
      if i >= |Queued(step.1)| {
        assert r.1[i] == rest.1[i - |Queued(step.1)|];
      } else {
        var k := step.1.value;
        assert r.1[i] == k;
        if k in rest.1 {
          var j :| 0 <= j < |rest.1| && rest.1[j] == k;
        }
      }
    }
    forall k | |db.imports| <= k < |r.0.imports|
      ensures k in r.1
    {
      if k < |step.0.imports| {
        assert r.1[0] == k;
      } else {
        assert k in rest.1;
        assert r.1[|Queued(step.1)|..] == rest.1;
      }
    }
  }

  lemma {:induction false} TriggerQueuedProcessing(db: Db, entries: seq<DirectoryScanner.ScanResult>,
                                                   hashOf: string -> Result<string, string>, now: Moment, attach: bool)
    requires Valid(db) && IsValidMoment(now)
    ensures QueuedProcessing(db, TriggerLoop(db, entries, hashOf, now, attach))
    decreases |entries|
  {
    if |entries| > 0 {
      var step := TriggerStep(db, entries[0], hashOf(entries[0].path), now, attach);
      var rest := TriggerLoop(step.0, entries[1..], hashOf, now, attach);
      assert StepQueued(db, step);
      TriggerQueuedProcessing(step.0, entries[1..], hashOf, now, attach);
      QueuedCompose(db, step, rest);
    }
  }

  /** A record keeps its stored file, except that with `attach` one without a
      file gets one; so as written every record the scan created is left
      without a file, and with `attach` every queued record holds one. */
  predicate FilesAsStored(db: Db, r: (Db, seq<nat>), attach: bool) {
    |db.imports| <= |r.0.imports|
    && (forall k :: 0 <= k < |db.imports| ==>
          r.0.imports[k].file == db.imports[k].file || (attach && db.imports[k].file == ""))
    && (!attach ==> forall k :: |db.imports| <= k < |r.0.imports| ==> r.0.imports[k].file == "")
    && (attach ==> forall i :: 0 <= i < |r.1| ==> r.1[i] < |r.0.imports| && r.0.imports[r.1[i]].file != "")
  }

  /** What one step promises about stored files. */
  predicate StepFiles(db: Db, step: (Db, Option<nat>), attach: bool) {
    |db.imports| <= |step.0.imports| <= |db.imports| + 1
    && (|step.0.imports| == |db.imports| + 1 ==>
          step.1 == Some(|db.imports|) && (!attach ==> step.0.imports[|db.imports|].file == ""))
    && (forall k :: 0 <= k < |db.imports| ==>
          step.0.imports[k].file == db.imports[k].file || (attach && db.imports[k].file == ""))
    && (attach && step.1.Some? ==> step.1.value < |step.0.imports| && step.0.imports[step.1.value].file != "")
  }

  /** A step followed by the rest of the scan, as far as files go. */
  lemma FilesCompose(db: Db, step: (Db, Option<nat>), rest: (Db, seq<nat>), attach: bool)
    requires StepFiles(db, step, attach) && FilesAsStored(step.0, rest, attach)
    ensures FilesAsStored(db, (rest.0, Queued(step.1) + rest.1), attach)
  {
    var r := (rest.0, Queued(step.1) + rest.1);
    if !attach {
      forall k | |db.imports| <= k < |r.0.imports|
        ensures r.0.imports[k].file == ""
      {
        if k < |step.0.imports| {
          assert step.0.imports[k].file == "";
        }
      }
    } else {
      forall i | 0 <= i < |r.1|
        ensures r.1[i] < |r.0.imports| && r.0.imports[r.1[i]].file != ""
      {
        if i >= |Queued(step.1)| {
          assert r.1[i] == rest.1[i - |Queued(step.1)|];
        }
      }
    }
  }

  lemma {:induction false} TriggerFiles(db: Db, entries: seq<DirectoryScanner.ScanResult>,
                                        hashOf: string -> Result<string, string>, now: Moment, attach: bool)
    requires Valid(db) && IsValidMoment(now)
    ensures FilesAsStored(db, TriggerLoop(db, entries, hashOf, now, attach), attach)
    decreases |entries|
  {
    if |entries| > 0 {
      var step := TriggerStep(db, entries[0], hashOf(entries[0].path), now, attach);
      var rest := TriggerLoop(step.0, entries[1..], hashOf, now, attach);
      assert StepFiles(db, step, attach);
      TriggerFiles(step.0, entries[1..], hashOf, now, attach);
      FilesCompose(db, step, rest, attach);
    }
  }

  /** Files that cannot be hashed are skipped and change nothing. */
  lemma {:induction false} TriggerSkipsUnhashed(db: Db, entries: seq<DirectoryScanner.ScanResult>,
                                                hashOf: string -> Result<string, string>, now: Moment, attach: bool)
    requires Valid(db) && IsValidMoment(now)
    requires forall i :: 0 <= i < |entries| ==> hashOf(entries[i].path).Err?
    ensures TriggerLoop(db, entries, hashOf, now, attach) == (db, [])
    decreases |entries|
  {
    if |entries| > 0 {
      assert hashOf(entries[0].path).Err?;
      assert forall i :: 0 <= i < |entries[1..]| ==> entries[1..][i] == entries[i + 1];
      TriggerSkipsUnhashed(db, entries[1..], hashOf, now, attach);
    }
  }

  /** When every file hashes and every year folder can be read, every file
      queues one job. */
  lemma {:induction false} TriggerQueuesAll(db: Db, entries: seq<DirectoryScanner.ScanResult>,
                                            hashOf: string -> Result<string, string>, now: Moment, attach: bool)
    requires Valid(db) && IsValidMoment(now)
    requires forall i :: 0 <= i < |entries| ==>
               hashOf(entries[i].path).Ok? && TriggerYear(entries[i].year, now.date).Some?
    ensures |TriggerLoop(db, entries, hashOf, now, attach).1| == |entries|
    decreases |entries|
  {
    if |entries| > 0 {
      var step := TriggerStep(db, entries[0], hashOf(entries[0].path), now, attach);
      assert hashOf(entries[0].path).Ok? && TriggerYear(entries[0].year, now.date).Some?;
      assert step.1.Some?;
      assert forall i :: 0 <= i < |entries[1..]| ==> entries[1..][i] == entries[i + 1];
      TriggerQueuesAll(step.0, entries[1..], hashOf, now, attach);
    }
  }

  /** `TriggerInvoiceImportView.post`: the base folder (the request's or the
      default one) must exist; `walk` is what walking it yields, `hashOf` what
      hashing each found path gives. */
  function TriggerWith(db: Db, actor: Actor, basePath: Option<string>, pathExists: bool,
                       walk: seq<DirectoryScanner.WalkedFile>, sep: char,
                       hashOf: string -> Result<string, string>, now: Moment, attach: bool): (r: Response)
    requires Valid(db) && IsValidMoment(now) && DirectoryScanner.AllNamesOk(walk, sep)
    ensures Valid(r.db)
    ensures !HasPermission(IsAnalyst, actor) ==> r == Response(db, Denial(actor), [])
    ensures HasPermission(IsAnalyst, actor) && !pathExists ==>
              r == Response(db, Reply(400, ErrorMessage("Caminho não encontrado ou inacessível: "
                                                        + basePath.GetOr(DefaultBasePath))), [])
    ensures HasPermission(IsAnalyst, actor) && pathExists ==>
              var found := DirectoryScanner.Scan(basePath.GetOr(DefaultBasePath), walk, sep);
              var out := TriggerLoop(db, found, hashOf, now, attach);
              r == Response(out.0, Reply(200, ScanStarted(ScanStartedMessage, |found|, |out.1|)), out.1)
              && |out.1| <= |found|
  {
    if !HasPermission(IsAnalyst, actor) then Response(db, Denial(actor), [])
    else
      var base := basePath.GetOr(DefaultBasePath);
      if !pathExists then Response(db, Reply(400, ErrorMessage("Caminho não encontrado ou inacessível: " + base)), [])
      else
        var found := DirectoryScanner.Scan(base, walk, sep);
        var (db1, ids) := TriggerLoop(db, found, hashOf, now, attach);
        Response(db1, Reply(200, ScanStarted(ScanStartedMessage, |found|, |ids|)), ids)
  }

  /** The view as written: records it creates have no stored file. */
  function Trigger(db: Db, actor: Actor, basePath: Option<string>, pathExists: bool,
                   walk: seq<DirectoryScanner.WalkedFile>, sep: char,
                   hashOf: string -> Result<string, string>, now: Moment): (r: Response)
    requires Valid(db) && IsValidMoment(now) && DirectoryScanner.AllNamesOk(walk, sep)
    ensures Valid(r.db) && |db.imports| <= |r.db.imports|
    ensures forall k :: |db.imports| <= k < |r.db.imports| ==> k in r.queued && r.db.imports[k].file == ""
  {
    TriggerQueuedProcessing(db, DirectoryScanner.Scan(basePath.GetOr(DefaultBasePath), walk, sep), hashOf, now, false);
    TriggerFiles(db, DirectoryScanner.Scan(basePath.GetOr(DefaultBasePath), walk, sep), hashOf, now, false);
    TriggerWith(db, actor, basePath, pathExists, walk, sep, hashOf, now, false)
  }

  /** The view with every queued record holding its PDF, so that the job
      can open it. */
  function TriggerCorrected(db: Db, actor: Actor, basePath: Option<string>, pathExists: bool,
                            walk: seq<DirectoryScanner.WalkedFile>, sep: char,
                            hashOf: string -> Result<string, string>, now: Moment): (r: Response)
    requires Valid(db) && IsValidMoment(now) && DirectoryScanner.AllNamesOk(walk, sep)
    ensures Valid(r.db) && |db.imports| <= |r.db.imports|
    ensures forall i :: 0 <= i < |r.queued| ==> r.queued[i] < |r.db.imports| && r.db.imports[r.queued[i]].file != ""
  {
    TriggerFiles(db, DirectoryScanner.Scan(basePath.GetOr(DefaultBasePath), walk, sep), hashOf, now, true);
    TriggerWith(db, actor, basePath, pathExists, walk, sep, hashOf, now, true)
  }

  /** As written, the job of every record the scan created fails at once:
      the record has no stored file, so the importer is never reached and
      the record ends FAILED with CRITICAL_TASK_FAILURE. */
  lemma TriggeredRecordsFail(db: Db, actor: Actor, basePath: Option<string>, pathExists: bool,
                             walk: seq<DirectoryScanner.WalkedFile>, sep: char,
                             hashOf: string -> Result<string, string>, now: Moment,
                             k: nat, user: Result<Actor, string>, extraction: ImportManager.Input,
                             mediaRoot: string, later: Moment)
    requires Valid(db) && IsValidMoment(now) && DirectoryScanner.AllNamesOk(walk, sep)
    requires ImportManager.InputOk(extraction) && IsValidMoment(later)
    requires |db.imports| <= k < |Trigger(db, actor, basePath, pathExists, walk, sep, hashOf, now).db.imports|
    ensures var r := Trigger(db, actor, basePath, pathExists, walk, sep, hashOf, now);
      k in r.queued
      && InvoiceTasks.ProcessTask(r.db, k, user, extraction, mediaRoot, later)
         == InvoiceTasks.TaskRaised(InvoiceTasks.NoFileFailure(r.db, k, later), InvoiceTasks.NoFileMessage)
  {
    var r := Trigger(db, actor, basePath, pathExists, walk, sep, hashOf, now);
    InvoiceTasks.NoFileAlwaysFails(r.db, k, user, extraction, mediaRoot, later);
  }

  /** With the file attached, the job of every queued record runs the
      importer. */
  lemma TriggeredRecordsReachImporter(db: Db, actor: Actor, basePath: Option<string>, pathExists: bool,
                                      walk: seq<DirectoryScanner.WalkedFile>, sep: char,
                                      hashOf: string -> Result<string, string>, now: Moment,
                                      i: nat, user: Actor, extraction: ImportManager.Input,
                                      mediaRoot: string, later: Moment)
    requires Valid(db) && IsValidMoment(now) && DirectoryScanner.AllNamesOk(walk, sep)
    requires ImportManager.InputOk(extraction) && IsValidMoment(later)
    requires i < |TriggerCorrected(db, actor, basePath, pathExists, walk, sep, hashOf, now).queued|
    ensures var r := TriggerCorrected(db, actor, basePath, pathExists, walk, sep, hashOf, now);
      var k := r.queued[i];
      k < |r.db.imports| && r.db.imports[k].file != ""
      && InvoiceTasks.ProcessTask(r.db, k, Ok(user), extraction, mediaRoot, later)
         == InvoiceTasks.RunImporter(r.db, k, user, extraction, mediaRoot, later)
  {
  }
}
