/** `InvoiceInboxView`: the review inbox, which first rescues jobs left
    running too long and then lists the records waiting for attention,
    newest first. */
module InvoiceInbox {
  import opened Wrappers
  import opened Text
  import opened Dates
  import opened Money
  import opened Users
  import opened Audit
  import opened Invoices
  import opened Database
  import opened InvoiceViews

  const TimeoutMessage: string := "Timeout: O processamento demorou muito e foi abortado. Tente novamente."

  /** Seconds a job may stay PROCESSING or OCR_RUNNING without a save. */
  const StaleAfter: int := 300

  /** A job that has stayed PROCESSING or OCR_RUNNING for more than five
      minutes since its record was last saved. */
  predicate IsStale(rec: InvoiceImport, now: Moment)
    requires WellFormedImport(rec) && IsValidMoment(now)
  {
    (rec.status == Processing || rec.status == OcrRunning) && Seconds(rec.updatedAt) < Seconds(now) - StaleAfter
  }

  /** The row after the rescue's bulk update: FAILED with the timeout message
      and code when stale, otherwise as it was. The update writes only those
      three columns, not `updated_at`. */
  function Rescued(rec: InvoiceImport, now: Moment): (r: InvoiceImport)
    requires WellFormedImport(rec) && IsValidMoment(now)
    ensures WellFormedImport(r) && !IsStale(r, now)
    ensures r.(status := rec.status, errorMessage := rec.errorMessage, errorCode := rec.errorCode) == rec
    ensures !IsStale(rec, now) <==> r == rec
    ensures IsStale(rec, now) ==>
              r.status == Failed && r.errorMessage == Some(TimeoutMessage) && r.errorCode == Some(TimeoutError)
  {
    if IsStale(rec, now) then rec.(status := Failed, errorMessage := Some(TimeoutMessage), errorCode := Some(TimeoutError))
    else rec
  }

  /** The stale-job rescue the inbox runs first. */
  function StaleRescue(db: Db, now: Moment): (r: Db)
    requires Valid(db) && IsValidMoment(now)
    ensures Valid(r) && |r.imports| == |db.imports|
    ensures r.reports == db.reports && r.categories == db.categories && r.log == db.log
    ensures r.nextReport == db.nextReport && r.nextCategory == db.nextCategory
    ensures forall i :: 0 <= i < |r.imports| ==> r.imports[i] == Rescued(db.imports[i], now)
  {
    var imports := seq(|db.imports|, i requires 0 <= i < |db.imports| => Rescued(db.imports[i], now));
    var r := db.(imports := imports);
    assert RowsWellFormed(r);
    assert HashesUnique(imports);
    assert LinksUnique(imports);
    assert LinksResolve(r);
    r
  }

  /** After the rescue no job is stale, a row changed exactly when it was
      stale, and running the rescue again changes nothing. */
  lemma StaleRescueIdempotent(db: Db, now: Moment)
    requires Valid(db) && IsValidMoment(now)
    ensures var r := StaleRescue(db, now);
      (forall i :: 0 <= i < |r.imports| ==> !IsStale(r.imports[i], now))
      && (forall i :: 0 <= i < |r.imports| ==> (r.imports[i] != db.imports[i] <==> IsStale(db.imports[i], now)))
      && StaleRescue(r, now) == r
  {
    var r := StaleRescue(db, now);
    var r2 := StaleRescue(r, now);
    assert r2.imports == r.imports;
  }

  /** The statuses the inbox lists: all but PENDING and SUCCESS. */
  predicate InInbox(s: ImportStatus) {
    s in {Inbox, Processing, OcrRunning, PendingReview, Skipped, Failed}
  }

  /** Ids below `n` whose record has an inbox status, ascending. */
  function InboxIds(imports: seq<InvoiceImport>, n: nat): (r: seq<nat>)
    requires n <= |imports|
    ensures forall i :: 0 <= i < |r| ==> r[i] < n && InInbox(imports[r[i]].status)
    decreases n
  {
    if n == 0 then []
    else InboxIds(imports, n - 1) + (if InInbox(imports[n - 1].status) then [n - 1] else [])
  }

  /** Each id below `n` occurs once when its record has an inbox status and
      not at all otherwise. */
  lemma {:induction false} InboxIdsCount(imports: seq<InvoiceImport>, n: nat, k: nat)
    requires n <= |imports|
    ensures multiset(InboxIds(imports, n))[k] == if k < n && InInbox(imports[k].status) then 1 else 0
    decreases n
  {
    if n > 0 {
      var a := InboxIds(imports, n - 1);
      var b: seq<nat> := if InInbox(imports[n - 1].status) then [n - 1] else [];
      assert InboxIds(imports, n) == a + b;
      var ma: multiset<nat> := multiset(a);
      var mb: multiset<nat> := multiset(b);
      assert multiset(a + b) == ma + mb;
      InboxIdsCount(imports, n - 1, k);
      if k == n - 1 && InInbox(imports[n - 1].status) {
        assert multiset(b)[k] == 1;
      } else {
        assert multiset(b)[k] == 0;
      }
    }
  }

  lemma InboxIdsCounts(imports: seq<InvoiceImport>)
    ensures forall k: nat :: multiset(InboxIds(imports, |imports|))[k]
                             == if k < |imports| && InInbox(imports[k].status) then 1 else 0
  {
    forall k: nat
      ensures multiset(InboxIds(imports, |imports|))[k] == if k < |imports| && InInbox(imports[k].status) then 1 else 0
    {
      InboxIdsCount(imports, |imports|, k);
    }
  }

  predicate AllWellFormed(imports: seq<InvoiceImport>) {
    forall i :: 0 <= i < |imports| ==> WellFormedImport(imports[i])
  }

  predicate IdsIn(imports: seq<InvoiceImport>, ids: seq<nat>) {
    forall i :: 0 <= i < |ids| ==> ids[i] < |imports|
  }

  function Created(imports: seq<InvoiceImport>, k: nat): int
    requires AllWellFormed(imports) && k < |imports|
  {
    Seconds(imports[k].createdAt)
  }

  /** Newest `created_at` first. */
  predicate NewestFirst(imports: seq<InvoiceImport>, ids: seq<nat>)
    requires AllWellFormed(imports) && IdsIn(imports, ids)
  {
    forall i, j :: 0 <= i < j < |ids| ==> Created(imports, ids[i]) >= Created(imports, ids[j])
  }

  /** Places `k` ahead of the first id created no later than it. */
  function InsertNewest(imports: seq<InvoiceImport>, k: nat, ids: seq<nat>): (r: seq<nat>)
    requires AllWellFormed(imports) && k < |imports| && IdsIn(imports, ids)
    ensures IdsIn(imports, r)
    ensures multiset(r) == multiset(ids) + multiset{k}
    ensures |r| > 0 && (r[0] == k || (|ids| > 0 && r[0] == ids[0]))
  {
    if |ids| == 0 || Created(imports, k) >= Created(imports, ids[0]) then [k] + ids
    else
      assert ids == [ids[0]] + ids[1..];
      var rest := InsertNewest(imports, k, ids[1..]);
      assert multiset([ids[0]] + rest) == multiset{ids[0]} + multiset(rest);
      [ids[0]] + rest
  }

  /** Inserting into a newest-first list keeps it newest first. */
  lemma {:induction false} InsertNewestOrder(imports: seq<InvoiceImport>, k: nat, ids: seq<nat>)
    requires AllWellFormed(imports) && k < |imports| && IdsIn(imports, ids) && NewestFirst(imports, ids)
    ensures NewestFirst(imports, InsertNewest(imports, k, ids))
    decreases |ids|
  {
    if |ids| == 0 || Created(imports, k) >= Created(imports, ids[0]) {
      ConsNewest(imports, k, ids);
    } else {
      TailNewest(imports, ids);
      var rest := InsertNewest(imports, k, ids[1..]);
      InsertNewestOrder(imports, k, ids[1..]);
      ConsNewest(imports, ids[0], rest);
    }
  }

  /** The tail of a newest-first list is newest first and no newer than its head. */
  lemma TailNewest(imports: seq<InvoiceImport>, ids: seq<nat>)
    requires AllWellFormed(imports) && IdsIn(imports, ids) && NewestFirst(imports, ids) && |ids| > 0
    ensures IdsIn(imports, ids[1..]) && NewestFirst(imports, ids[1..])
    ensures |ids| > 1 ==> Created(imports, ids[0]) >= Created(imports, ids[1])
  {
    var t := ids[1..];
    assert IdsIn(imports, t);
    forall i, j | 0 <= i < j < |t|
      ensures Created(imports, t[i]) >= Created(imports, t[j])
    {
      assert t[i] == ids[i + 1] && t[j] == ids[j + 1];
    }
  }

  /** An id no older than the head of a newest-first list can go in front. */
  lemma ConsNewest(imports: seq<InvoiceImport>, x: nat, rest: seq<nat>)
    requires AllWellFormed(imports) && x < |imports| && IdsIn(imports, rest) && NewestFirst(imports, rest)
    requires |rest| > 0 ==> Created(imports, x) >= Created(imports, rest[0])
    ensures IdsIn(imports, [x] + rest) && NewestFirst(imports, [x] + rest)
  {
    var r := [x] + rest;
    assert IdsIn(imports, r);
    forall i, j | 0 <= i < j < |r|
      ensures Created(imports, r[i]) >= Created(imports, r[j])
    {
      assert r[j] == rest[j - 1];
      if i == 0 {
        if j > 1 {
          assert Created(imports, rest[0]) >= Created(imports, rest[j - 1]);
        }
      } else {
        assert r[i] == rest[i - 1];
      }
    }
  }

  /** `order_by('-created_at')`. */
  function SortNewest(imports: seq<InvoiceImport>, ids: seq<nat>): (r: seq<nat>)
    requires AllWellFormed(imports) && IdsIn(imports, ids)
    ensures IdsIn(imports, r) && NewestFirst(imports, r)
    ensures multiset(r) == multiset(ids)
  {
    if |ids| == 0 then []
    else
      assert ids == [ids[0]] + ids[1..];
      var rest := SortNewest(imports, ids[1..]);
      InsertNewestOrder(imports, ids[0], rest);
      InsertNewest(imports, ids[0], rest)
  }

  const MediaUrl: string := "/media/"

  /** One row of the inbox listing. */
  function ItemOf(id: nat, rec: InvoiceImport): (item: InboxItem)
    ensures item.id == id && ParseImportStatus(item.status) == Some(rec.status)
    ensures item.filePath.Some? <==> rec.file != ""
    ensures item.filePath.Some? ==> item.filePath.value == MediaUrl + rec.file
    ensures Quantize(item.totalValue) == rec.totalValue.GetOr(0)
    ensures item.carrier == rec.carrier && item.invoiceNumber == rec.invoiceNumber && item.dueDate == rec.dueDate
    ensures item.confidence == rec.confidence && item.createdAt == rec.createdAt
    ensures item.errorMessage == rec.errorMessage && item.errorCode == rec.errorCode
  {
    ImportStatusRoundTrip(rec.status);
    QuantizeExact(rec.totalValue.GetOr(0));
    InboxItem(id, if rec.file != "" then Some(MediaUrl + rec.file) else None, rec.carrier, rec.invoiceNumber,
              rec.dueDate, if rec.totalValue.Some? && rec.totalValue.value != 0 then CentsValue(rec.totalValue.value) else 0.0,
              rec.confidence, rec.createdAt, ImportStatusName(rec.status), rec.errorMessage, rec.errorCode)
  }

  /** The order of the inbox: every record with an inbox status, newest first. */
  function InboxOrder(imports: seq<InvoiceImport>): (r: seq<nat>)
    requires AllWellFormed(imports)
    ensures IdsIn(imports, r) && NewestFirst(imports, r)
    ensures forall k: nat :: multiset(r)[k] == if k < |imports| && InInbox(imports[k].status) then 1 else 0
  {
    var ids := InboxIds(imports, |imports|);
    InboxIdsCounts(imports);
    SortNewest(imports, ids)
  }

  function InboxListing(imports: seq<InvoiceImport>): (items: seq<InboxItem>)
    requires AllWellFormed(imports)
    ensures |items| == |InboxOrder(imports)|
    ensures forall i :: 0 <= i < |items| ==>
              items[i] == ItemOf(InboxOrder(imports)[i], imports[InboxOrder(imports)[i]])
  {
    var order := InboxOrder(imports);
    seq(|order|, i requires 0 <= i < |order| => ItemOf(order[i], imports[order[i]]))
  }

  /** `InvoiceInboxView.get`: rescue stale jobs, then list every record that
      is waiting, running, needs review, was skipped or failed, newest
      first. */
  function InboxView(db: Db, actor: Actor, now: Moment): (r: Response)
    requires Valid(db) && IsValidMoment(now)
    ensures Valid(r.db) && r.queued == []
    ensures !HasPermission(IsViewer, actor) ==> r == Response(db, Denial(actor), [])
    ensures HasPermission(IsViewer, actor) ==>
              r.db == StaleRescue(db, now)
              && r.reply == Reply(200, Listing(InboxListing(r.db.imports)))
  {
    if !HasPermission(IsViewer, actor) then Response(db, Denial(actor), [])
    else
      var db1 := StaleRescue(db, now);
      Response(db1, Reply(200, Listing(InboxListing(db1.imports))), [])
  }

  /** Each listed row is a record with an inbox status, listed under its
      id, newest first. */
  lemma ListingRows(imports: seq<InvoiceImport>)
    requires AllWellFormed(imports)
    ensures var items := InboxListing(imports);
      (forall i :: 0 <= i < |items| ==>
         items[i].id < |imports| && InInbox(imports[items[i].id].status)
         && items[i] == ItemOf(items[i].id, imports[items[i].id]))
      && (forall i, j :: 0 <= i < j < |items| ==> Created(imports, items[i].id) >= Created(imports, items[j].id))
  {
    var order := InboxOrder(imports);
    var items := InboxListing(imports);
    forall i | 0 <= i < |items|
      ensures items[i].id == order[i] && InInbox(imports[order[i]].status)
    {
      assert order[i] in multiset(order);
    }
  }

  /** A sequence holding each value at most once has no repeated entries. */
  lemma NoRepeats(s: seq<nat>)
    requires forall k: nat :: multiset(s)[k] <= 1
    ensures forall i, j :: 0 <= i < j < |s| ==> s[i] != s[j]
  {
    forall i, j | 0 <= i < j < |s|
      ensures s[i] != s[j]
    {
      assert s == s[..j] + [s[j]] + s[j + 1..];
      var m: multiset<nat> := multiset(s[..j]);
      assert multiset(s) == m + multiset{s[j]} + multiset(s[j + 1..]);
      assert m[s[i]] >= 1;
      assert multiset(s)[s[j]] >= m[s[j]] + 1;
    }
  }

  /** No record is listed twice. */
  lemma ListingDistinct(imports: seq<InvoiceImport>)
    requires AllWellFormed(imports)
    ensures var items := InboxListing(imports);
      forall i, j :: 0 <= i < j < |items| ==> items[i].id != items[j].id
  {
    var order := InboxOrder(imports);
    NoRepeats(order);
  }

  /** The listing's rows carry the inbox order's ids, position by position. */
  lemma ListingIds(imports: seq<InvoiceImport>)
    requires AllWellFormed(imports)
    ensures var items := InboxListing(imports);
      var order := InboxOrder(imports);
      |items| == |order| && forall i :: 0 <= i < |items| ==> items[i].id == order[i]
  {
  }

  /** A record is listed exactly when its status is an inbox status. */
  lemma ListingMembers(imports: seq<InvoiceImport>, k: nat)
    requires AllWellFormed(imports)
    ensures var items := InboxListing(imports);
      k < |imports| && InInbox(imports[k].status) <==> exists i :: 0 <= i < |items| && items[i].id == k
  {
    var order := InboxOrder(imports);
    var items := InboxListing(imports);
    ListingIds(imports);
    assert multiset(order)[k] == if k < |imports| && InInbox(imports[k].status) then 1 else 0;
    if k in order {
      var i :| 0 <= i < |order| && order[i] == k;
      assert items[i].id == k;
    }
    if exists i :: 0 <= i < |items| && items[i].id == k {
      var i :| 0 <= i < |items| && items[i].id == k;
      assert order[i] == k;
    }
  }

  /** A listing of records none of which is stale: each inbox record once,
      and only those. */
  lemma ListingContents(imports: seq<InvoiceImport>, now: Moment, k: nat)
    requires AllWellFormed(imports) && IsValidMoment(now)
    requires forall i :: 0 <= i < |imports| ==> !IsStale(imports[i], now)
    ensures var items := InboxListing(imports);
      (forall i :: 0 <= i < |items| ==>
         items[i].id < |imports| && InInbox(imports[items[i].id].status) && !IsStale(imports[items[i].id], now))
      && (k < |imports| && InInbox(imports[k].status) <==> exists i :: 0 <= i < |items| && items[i].id == k)
      && (forall i, j :: 0 <= i < j < |items| ==> items[i].id != items[j].id)
  {
    ListingRows(imports);
    ListingMembers(imports, k);
    ListingDistinct(imports);
  }

  /** The inbox lists what the rescue left: each record with an inbox status
      once, newest first, and none of them stale. */
  lemma InboxContents(db: Db, actor: Actor, now: Moment, k: nat)
    requires Valid(db) && IsValidMoment(now) && HasPermission(IsViewer, actor)
    ensures var r := InboxView(db, actor, now);
      var items := r.reply.body.items;
      (forall i :: 0 <= i < |items| ==>
         items[i].id < |r.db.imports| && InInbox(r.db.imports[items[i].id].status)
         && !IsStale(r.db.imports[items[i].id], now))
      && (k < |db.imports| && InInbox(r.db.imports[k].status) <==> exists i :: 0 <= i < |items| && items[i].id == k)
      && (forall i, j :: 0 <= i < j < |items| ==> items[i].id != items[j].id)
  {
    var r := InboxView(db, actor, now);
    StaleRescueIdempotent(db, now);
    ListingContents(r.db.imports, now, k);
  }
}
