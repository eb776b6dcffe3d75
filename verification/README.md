# Carrier-invoice governance, modelled in Dafny

The system receives telephone-carrier invoices (VIVO and CLARO) as PDF
files. A file arrives in one of two ways: an analyst uploads it, or a scan
of a `year/city/carrier/month` folder tree finds it. Either way it becomes
an `InvoiceImport` record and a background job processes it.

The job runs the import manager. The manager:

- reuses or computes the file's hash;
- skips a file whose report is still active;
- picks a parser, either from the carrier hint or from the carrier the
  text names;
- extracts the total, the due date and the invoice number, with a
  confidence score;
- decides between SUCCESS and PENDING_REVIEW;
- writes the record and, on success, creates or rewrites the linked
  `Report`.

An analyst confirms the invoices waiting in the inbox; confirming creates
a report. Reports then follow a governance workflow: PENDING, REVIEW,
APPROVED, CANCELED, FAILED. Each move is checked against a fixed table.
Cancelling needs a comment. Each change is written to the audit log. A
dashboard summarises the reports, and a React client offers the status
menu, the inbox, the upload form and the report list.

This project models that core as pure functions over an immutable
database value, and proves properties about it.

| file | module | what it models |
|---|---|---|
| `wrappers.dfy` | `Wrappers` | `Option`, `Result`, Python's `x or d` / JavaScript's `x \|\| d` on strings |
| `text.dfy` | `Text` | digits, `str(int)`, ASCII case mapping, `strip`/`trim`, `split`/`join` |
| `dates.dfy` | `Dates` | the proleptic Gregorian calendar, month windows, ISO dates, month names |
| `money.dfy` | `Money` | two-place decimals held in cents, quantisation, `str(Decimal)` |
| `users.dfy` | `Users` | the four roles and the permission classes |
| `audit.dfy` | `Audit` | the audit log row and `AuditService.log_action` |
| `reports_model.dfy` | `Reports` | `Category`, `Report`, report statuses |
| `invoices_model.dfy` | `Invoices` | `InvoiceImport` and its statuses and defaults |
| `store.dfy` | `Database` | the tables, their unique / one-to-one / PROTECT / SET_NULL constraints |
| `parsing.dfy` | `Parsing` | `clean_currency`, `parse_date`, `extract_text` |
| `vivo.dfy`, `claro.dfy` | `VivoParser`, `ClaroParser` | the two carrier parsers |
| `scanner.dfy` | `DirectoryScanner` | the folder scan |
| `importer.dfy` | `ImportManager` | `process_invoice` and `_handle_report` |
| `tasks.dfy` | `InvoiceTasks` | `process_invoice_task` |
| `workflow.dfy` | `Workflow` | `ReportWorkflowService.transition_status` |
| `report_views.dfy` | `ReportViews` | the report endpoints: permissions, create, update, delete, transition, history |
| `dashboard.dfy` | `Dashboard` | the status summary and the insights |
| `report_filters.dfy` | `ReportFilters` | `ReportFilter` |
| `report_serializer.dfy` | `ReportSerializer` | `ReportSerializer` |
| `reviewer.dfy` | `InvoiceReviewer` | `InvoiceReviewer.confirm_invoice` |
| `invoice_views.dfy` | `InvoiceViews` | the invoice endpoints' replies and permissions; upload, download and confirm |
| `scan_trigger.dfy` | `ScanTrigger` | `TriggerInvoiceImportView`, the folder scan endpoint |
| `invoice_inbox.dfy` | `InvoiceInbox` | `InvoiceInboxView`, with its stale-job rescue |
| `client_ui.dfy` | `ClientUi` | colours and notices shared by the client screens |
| `status_actions.dfy` | `StatusActions` | `ReportStatusActions.tsx` |
| `inbox_screen.dfy` | `InboxScreen` | `InboxList.tsx` |
| `upload_screen.dfy` | `UploadScreen` | `InvoiceUpload.tsx` |
| `reports_screen.dfy` | `ReportsScreen` | `ReportsList.tsx`, `ReportsFilters.tsx`, `reportsService.ts` |

Conventions of the model:

- **Database.** A database is one value, `Db`, holding:
  - the imports, as a sequence; an import's id is its position;
  - the reports and categories, as maps keyed by id, plus the next free
    id of each;
  - the audit log, as a sequence in time order.

  `Database.Valid` states the schema constraints: unique hashes, a
  one-to-one report link, links that resolve, categories that resolve,
  unique category names and fresh ids. Every operation that writes keeps
  `Valid`.
- **Money.** Amounts are stored in cents. Extracted amounts are exact
  decimals (`real`), quantised to cents when saved, as the decimal column
  does.
- **Inputs.** Hashing, text extraction, OCR and the regular-expression
  matches are inputs to the model: a `Result` for what may raise, and
  sequences of matches for the patterns. The same holds for the clock (a
  `Moment` parameter), the user lookup and the walked folder tree.
- **Outcomes.** `Done` is the importer's `(status, message)` return
  value. `Raised` is an exception that escapes it.

## Model

| member | source | states |
|---|---|---|
| Wrappers.OrElse | backend/audit/services.py:48 | a present, non-empty string is kept; `None` or `""` gives the fallback, as `or` and `\|\|` do |
| Users.HasPermission | backend/users/permissions.py:3-17 | a check admits a requester iff they are authenticated and, for a role check, their role is among the roles it allows; its strength order is stated by PermissionChain and RoleLevels |
| Users.AllowedRoles | backend/users/permissions.py:3-17 | each role check admits only known roles, and always admits ADMIN |
| Users.PermissionChain | backend/users/permissions.py:3-17 | passing a stricter check (IsAdmin, IsGestor, IsAnalyst, IsViewer, authenticated) implies passing every looser one |
| Users.AnonymousDenied | backend/users/permissions.py:3-17 | no check admits an unauthenticated requester |
| Users.UnknownRoleDenied | backend/users/permissions.py:3-17 | a role outside the four known roles passes no role check |
| Users.RoleLevels | backend/users/permissions.py:3-17 | for each check, exactly which roles pass it; IsViewer admits exactly the four known roles |
| Audit.ActionName | backend/audit/models.py:6-13 | each action is stored as its upper-case code, which fits the 20-character `action` column (line 22) |
| Audit.ActionDisplay | backend/audit/models.py:6-13 | the Portuguese label of each action, as `get_action_display()` gives it |
| Audit.ActionNamesDistinct | backend/audit/models.py:6-13 | distinct audit actions are stored as distinct strings |
| Audit.AssignLookup | backend/reports/services.py:53-54 | after `d[key] = value`, the key reads back the value and every other key reads as before |
| Audit.JsonSerial | backend/audit/services.py:10-16 | dates become 10-character ISO strings; decimals become strings with two decimals; null, strings, integers and floats pass through as JSON null, strings and numbers, a float staying a float |
| Audit.Assign | backend/reports/services.py:53-54 | `d[key] = value` holds the new pair, and every pair with another key is kept |
| Audit.SerializeAssign | backend/audit/services.py:43-44 | serialising after `d[key] = value` shows the serialised value at the key and every other key as in the serialised original |
| Audit.Serialize | backend/audit/services.py:43-44 | the JSON round trip keeps every key in order and maps each value through the serialiser |
| Audit.SerializeLookup | backend/audit/services.py:43-44 | reading a key from the serialised state gives the serialised value of the key in the original |
| Audit.Clean | backend/audit/services.py:33-45 | a falsy state (`None` or an empty dict) is stored as null, any other state serialised |
| Audit.LogAction | backend/audit/services.py:19-61 | exactly one row is appended and earlier rows are untouched; the entity is the override name when non-empty, else the class name; the id is `str(pk)`; the user is recorded iff authenticated; both states are cleaned |
| Workflow.AllowedTargets | backend/reports/services.py:9-15 | no status lists itself as a target |
| Workflow.CanTransition | backend/reports/services.py:25 | a move is allowed iff the target is in the source status's table row; TransitionTable lists the seven allowed moves |
| Workflow.TransitionTable | backend/reports/services.py:9-15 | exactly seven moves are allowed, and they are named |
| Workflow.FinalStates | backend/reports/services.py:12-13 | APPROVED and CANCELED have no outgoing move, and no status moves to itself |
| Workflow.AuditActionFor | backend/reports/services.py:39-45 | APPROVE iff the target is APPROVED, REJECT iff it is CANCELED, UPDATE otherwise |
| Workflow.AfterState | backend/reports/services.py:52-54 | the after-state carries `_workflow_comment` iff the comment is truthy, and then it is the comment |
| Workflow.ApplyTransition | backend/reports/services.py:47-63 | only the report's status changes; imports and categories are untouched; one audit row is appended |
| Workflow.TransitionStatus | backend/reports/services.py:18-65 | the invalid-transition error happens iff the status is unknown or not in the table; the comment error happens iff a legal cancel has a falsy comment; otherwise the transition applies |
| Workflow.TransitionAudit | backend/reports/services.py:36-63 | the appended row has the target's action, entity Report, the report id, the old and new status, and the comment iff truthy |
| Workflow.TableBeforeComment | backend/reports/services.py:25-33 | an illegal cancel without a comment is reported as an invalid transition, not as a missing comment |
| Workflow.WhitespaceCommentCancels | backend/reports/services.py:32-33 | a comment of only spaces is accepted for cancelling |
| Reports.StatusName | backend/reports/models.py:16-21 | each status is stored as its upper-case code, which fits the 20-character `status` column (line 37) |
| Reports.StatusDisplay | backend/reports/models.py:16-21 | the Portuguese label of each status, as `get_status_display()` gives it |
| Reports.ParseStatus | backend/reports/models.py:16-21 | only the five stored names read as statuses, each as itself |
| Reports.StatusNameRoundTrip | backend/reports/models.py:16-21 | every status reads back from its stored name, and the list of choices is complete |
| Reports.NewReport | backend/reports/models.py:36-41 | a report created without a status is PENDING; every other field is as given |
| Reports.ReportDict | backend/reports/services.py:36-52 | the snapshot holds the stored status name and no workflow comment |
| ReportSerializer.FieldSets | backend/reports/serializers.py:15-18 | the writable and read-only fields are disjoint; status is writable; the timestamps are read-only |
| ReportSerializer.Represent | backend/reports/serializers.py:9-13 | the category name and status label are derived; the source import is absent iff no import links the report; the confidence is shown iff there is a source, and it is that import's score |
| ReportSerializer.ConfidenceIsLive | backend/reports/serializers.py:13 | after the linked import's score changes, the report shows the new score |
| ReportFilters.FiltersConjoin | backend/reports/filters.py:1-13 | no parameters keep every report; otherwise a report is kept iff each supplied parameter alone keeps it |
| ReportFilters.BoundsInclusive | backend/reports/filters.py:5-8 | the value and date bounds are inclusive, and the dates bound the reference date, not the due date |
| ReportFilters.BoundsExclude | backend/reports/filters.py:6-7 | a value above the maximum, or a reference date before the start, is excluded |
| ReportFilters.CategoryNameCaseInsensitive | backend/reports/filters.py:9 | upper-casing the searched text or the category name does not change the result |
| ReportFilters.FilterReports | backend/reports/filters.py:1-13 | exactly the reports that every supplied parameter keeps, each once, newest reference date first as the model's default ordering (backend/reports/models.py:50) sorts them |
| ReportFilters.SortByDate | backend/reports/models.py:50 | the ids rearranged (same multiset) so that no report precedes one with a later reference date |
| ReportFilters.InsertByDateOrder | backend/reports/models.py:50 | inserting one report into a newest-first list keeps it newest first |
| ReportFilters.PageCount | backend/core/settings.py:154-155 | at least one page, and just enough pages of 20 to hold every result |
| ReportFilters.Page | backend/core/settings.py:154-155 | page `n` exists iff 1 <= n <= the page count; it holds at most 20 results, exactly 20 before the last page, and they are the results from position (n-1)*20 on, in order |
| ReportFilters.PageHolds | backend/core/settings.py:154-155 | every result appears on page i/20+1 at position i%20 |
| ReportFilters.RefineNarrows | backend/reports/filters.py:1-13 | a stricter query never returns a report the looser one drops |
| ReportViews.RequiredPermission | backend/reports/views.py:25-49 | which permission guards each action: reading needs a viewer, writing an analyst, deleting an admin, anything else authentication |
| ReportViews.PermissionPolicy | backend/reports/views.py:25-49 | only admins delete; whoever may transition may read; update and transition need the same permission |
| ReportViews.FieldValidation | backend/reports/serializers.py:9-18 | no error iff every sent title is non-blank once stripped, every sent category exists, and a create or full update carries the title, the reference date, the total and the category; each failure is reported with the serializer's message (`This field is required.`, `This field may not be blank.`, `Invalid pk "<id>" - object does not exist.`) |
| ReportViews.ApplyInput | backend/reports/views.py:83 | each field sent replaces the stored one, the title stripped of surrounding whitespace; each field not sent is kept |
| ReportViews.ApplyInputLaws | backend/reports/views.py:83 | sending nothing keeps the report; sending every field of a report (with a stripped title) gives that report |
| ReportViews.PerformUpdate | backend/reports/views.py:65-92 | the serializer's field errors come first, as the 400 body; then a status different from the stored one is refused with the transition message; it is refused iff one of these holds; otherwise the report becomes the old one with the sent fields written over it, its status unchanged, and one UPDATE row holds the snapshots before and after |
| ReportViews.PerformCreate | backend/reports/views.py:51-63 | it fails iff the serializer's field validation fails, with its errors; otherwise a fresh id holds exactly the report sent (title stripped, PENDING and no due date by default) and one row is logged, IMPORT for the import path and UPDATE otherwise, with no before state and the new report's snapshot as the after state |
| ReportViews.PerformDestroy | backend/reports/views.py:94-108 | the report is gone and imports that linked it survive unlinked; one DELETE row holds the before state only |
| ReportViews.TransitionEndpoint | backend/reports/views.py:110-132 | denied iff not an analyst; not found iff the report is missing; a falsy status is a 400 error; otherwise the workflow's result or its error message |
| ReportViews.HistoryLine | backend/reports/views.py:145-153 | each line carries the entry's time and changes, the user name or "System", and the workflow comment from the after state |
| ReportViews.MatchingIds | backend/reports/views.py:141 | exactly the log entries about the report, newest first |
| ReportViews.History | backend/reports/views.py:134-155 | every line is the history line of a log entry about the report; the entries' positions strictly decrease (newest first); every entry about the report has a line |
| ReportViews.HistoryAfterTransition | backend/reports/views.py:134-155 | right after a transition, the history starts with its entry, labelled with its action and carrying the comment iff it was truthy |
| Dashboard.IsOverdue | backend/reports/views.py:191-195 | overdue means a due date before today and a status other than APPROVED or CANCELED; TallyOpen counts them |
| Dashboard.Billable | backend/reports/views.py:286 | a report counts in the totals iff it is neither CANCELED nor FAILED; InsightsTrend sums them |
| Dashboard.Tally | backend/reports/views.py:168-171 | the count never exceeds the number of ids scanned |
| Dashboard.TallyNone | backend/reports/views.py:175-178 | a filter that selects no report counts zero reports for a zero total |
| Dashboard.TallyPartition | backend/reports/views.py:175-185 | the five per-status counts add up to the number of reports |
| Dashboard.TallyOpen | backend/reports/views.py:190-195 | the open reports are exactly the pending, review and failed ones |
| Dashboard.StatusSummary | backend/reports/views.py:163-207 | one bucket per status plus OVERDUE, zero-initialised, each the tally of its filter |
| Dashboard.SummaryCounts | backend/reports/views.py:163-207 | the buckets partition the reports; overdue reports are at most the open ones; a report without a due date is never overdue |
| Dashboard.Variation | backend/reports/views.py:301-306 | with a positive last total, the percent change; otherwise 100 iff the current total is positive, else 0 |
| Dashboard.VariationThresholds | backend/reports/views.py:301-306 | the variation exceeds 10% iff the current total exceeds 110% of the last; it falls below -10% iff the current total is under 90% |
| Dashboard.InsightList | backend/reports/views.py:319-329 | an increase line iff the variation exceeds 10%, a decrease line iff it is below -10%, an error line iff there are errors, a duplicate line iff there are duplicates; the variation line comes first |
| Dashboard.Insights | backend/reports/views.py:273-339 | this month's and last month's billable totals by reference date, their variation, this month's failed and skipped imports, and the matching insight lines |
| Dashboard.BillableMonthTotals | backend/reports/views.py:278-296 | the two windows' totals are the sums of the billable reports whose reference date falls in this calendar month and in the previous one |
| Dashboard.InsightsTrend | backend/reports/views.py:284-329 | the totals cover this and the previous month's billable reports; with a positive last total, an increase line iff 10·current > 11·last and a decrease line iff 10·current < 9·last; with none, an increase line (100%) iff the current total is positive |
| Dashboard.InsightWindows | backend/reports/views.py:278-296 | the two windows select exactly this month's and last month's dates |
| Dashboard.CountCreated | backend/reports/views.py:307-316 | the count of imports created in the window with the given status is never more than there are imports; CreatedWindow states which creation times fall in this month's window |
| Dashboard.CreatedWindow | backend/reports/views.py:310-313 | filtering by creation date matches comparing timestamps with the month's first midnight |
| Dates.NextMonthByTimedelta | backend/reports/views.py:280 | 32 days after a month's first day, set to day 1, is the next month's first day |
| Dates.PreviousMonthByTimedelta | backend/reports/views.py:281-282 | the day before a month's first day, set to day 1, is the previous month's first day |
| Dates.MonthWindow | backend/reports/views.py:288-291 | the current-month window holds exactly the dates of that month |
| Dates.PreviousMonthWindow | backend/reports/views.py:293-296 | the previous-month window holds exactly the dates of that month |
| Dates.IsoFormat | backend/audit/services.py:12-13 | an ISO date is ten characters with dashes at positions 4 and 7 |
| Dates.IsoRoundTrip | backend/audit/services.py:12-13 | reading back an ISO rendering gives the date |
| Dates.PortugueseMonth | backend/invoices/services/reviewer.py:83-88 | months 1 to 12 get a name rather than a number; any other number is written as itself |
| Dates.EnglishMonth | backend/invoices/services/importer.py:152 | the month's English name, as `strftime('%B')` writes it in the C locale |
| Dates.OrdinalOrder | backend/invoices/views.py:192-196 | calendar order and day-count order agree, so subtracting datetimes measures elapsed time |
| Money.Quantize | backend/invoices/models.py:29 | an amount is stored within half a cent of its exact value |
| Money.QuantizeExact | backend/invoices/models.py:29 | an amount that already has two decimals is stored exactly |
| Money.DecimalString | backend/audit/services.py:14-15 | `str(Decimal)` with two places: a sign iff negative, a dot, two digits |
| Money.DecimalStringDigits | backend/audit/services.py:14-15 | the digits before and after the dot give back the amount |
| Text.Upper | backend/invoices/services/importer.py:45 | upper-casing maps each character and keeps the length |
| Text.Capitalize | backend/invoices/services/reviewer.py:80 | the first character is upper-cased and the rest lower-cased |
| Text.Trim | backend/invoices/parsers/base.py:34 | the result has no edge whitespace; a string without whitespace is kept; an all-whitespace string becomes empty |
| Text.JoinSplit | backend/invoices/services/scanner.py:22-23 | joining the pieces of a split gives back the string |
| Parsing.CurrencyChars | backend/invoices/parsers/base.py:65 | only digits and commas are kept; each comma becomes a dot and every digit stays |
| Parsing.ParseDecimal | backend/invoices/parsers/base.py:66-69 | `Decimal()` of the cleaned text: a non-negative value when it reads, none (the caught error) when it does not |
| Parsing.ParseDecimalNone | backend/invoices/parsers/base.py:66-69 | the decimal is rejected iff there is no digit or more than one dot |
| Parsing.CleanCurrency | backend/invoices/parsers/base.py:62-69 | an empty input gives `None`; a present input gives `None` iff it has no digit or two or more commas; any amount is non-negative |
| Parsing.CleanFormatted | backend/invoices/parsers/base.py:62-69 | a Brazilian-formatted amount reads back as that amount |
| Parsing.ParseDate | backend/invoices/parsers/base.py:71-77 | only real calendar dates come back, and blank input gives `None` |
| Parsing.ParseFields | backend/invoices/parsers/base.py:71-77 | in-range fields written dd/mm/yyyy, with surrounding whitespace, parse iff the calendar has that day |
| Parsing.ParseFormatted | backend/invoices/parsers/base.py:71-77 | a date written dd/mm/yyyy reads back as itself |
| Parsing.ParseChecksCalendar | backend/invoices/parsers/base.py:71-77 | 31/02 never parses, and 29/02 parses iff the year is a leap year |
| Parsing.ParseRejectsYearZero | backend/invoices/parsers/base.py:71-77 | year 0000 has the right shape but never parses |
| Parsing.StripKeepsContent | backend/invoices/parsers/base.py:34 | stripping keeps every non-whitespace character |
| Parsing.PagesText | backend/invoices/parsers/base.py:23-30 | the joined page text carries the pages' non-whitespace characters, no more and no fewer |
| Parsing.ExtractText | backend/invoices/parsers/base.py:18-37 | the result is the digital text or the OCR text, and OCR only when the stripped digital text is under 50 characters |
| Parsing.OcrThresholdByContent | backend/invoices/parsers/base.py:34-35 | pages with 50 or more non-whitespace characters never go to OCR; pages with none always do |
| ClaroParser.Parse | backend/invoices/parsers/claro.py:5-33 | empty text gives confidence 0 and nothing else; otherwise the cleaned total and parsed due date; confidence 100 iff both are truthy, else 50 |
| ClaroParser.ZeroTotalKept | backend/invoices/parsers/claro.py:30-31 | a zero total is kept as zero but lowers the confidence to 50 |
| ClaroParser.MatchedTotalCleans | backend/invoices/parsers/claro.py:21-24 | a total the pattern captures always cleans to its value |
| VivoParser.MaxAmount | backend/invoices/parsers/vivo.py:30-39 | the largest truthy cleaned amount, or `None` iff there is none |
| VivoParser.FirstDate | backend/invoices/parsers/vivo.py:49-54 | the first candidate that parses, or `None` iff none parses |
| VivoParser.Latest | backend/invoices/parsers/vivo.py:108-118 | the latest present date, or `None` iff none is present |
| VivoParser.LatestDate | backend/invoices/parsers/vivo.py:108-118 | the latest candidate that parses, or `None` iff none parses |
| VivoParser.Parse | backend/invoices/parsers/vivo.py:6-71 | empty text gives confidence 0; 100 iff the primary pass finds all three fields; 50 iff the total or due date is still missing; any total is positive |
| VivoParser.FallbackOnlyFills | backend/invoices/parsers/vivo.py:73-124 | a field the primary pass found is never overwritten by the fallback |
| VivoParser.FallbackFills | backend/invoices/parsers/vivo.py:89-118 | a missing total becomes the largest fallback amount, and a missing due date the latest fallback date |
| VivoParser.MissingInvoiceOnly | backend/invoices/parsers/vivo.py:62-69 | a missing invoice number alone gives confidence 80 |
| VivoParser.PrimaryDatesTriedInOrder | backend/invoices/parsers/vivo.py:49-54 | an unparseable match does not stop a later one from being used |
| DirectoryScanner.JoinPath | backend/invoices/services/scanner.py:19 | `os.path.join`: no separator after an empty head or a trailing separator, exactly one otherwise |
| DirectoryScanner.SplitJoin | backend/invoices/services/scanner.py:22-23 | splitting a joined path gives back its components |
| DirectoryScanner.ScanEntry | backend/invoices/services/scanner.py:17-34 | there is an entry iff the name ends in .pdf (any case) and lies four folders deep or more; the fields are the first five path parts |
| DirectoryScanner.Scan | backend/invoices/services/scanner.py:8-35 | at most one result per walked file; ScanMembers says which files give one and ScanAppend that the walk splits |
| DirectoryScanner.ScanAppend | backend/invoices/services/scanner.py:8-35 | scanning two parts of a walk one after the other gives the scan of the whole walk |
| DirectoryScanner.ScanMembers | backend/invoices/services/scanner.py:8-35 | the scan holds exactly the entries of the walked files |
| DirectoryScanner.ScanSingle | backend/invoices/services/scanner.py:18-26 | a file is reported iff it is a deep-enough PDF |
| DirectoryScanner.UpperCaseExtensionKept | backend/invoices/services/scanner.py:18 | `FATURA.PDF` is kept |
| Invoices.ParseImportStatus | backend/invoices/models.py:6-14 | only the eight stored names read as statuses |
| Invoices.ImportStatusRoundTrip | backend/invoices/models.py:6-14 | every status reads back from its name, and there are exactly eight |
| Invoices.NewImport | backend/invoices/models.py:16-54 | the defaults: PENDING, confidence 0, and no file, data, report or error |
| Invoices.StoredFileName | backend/invoices/models.py:17 | a stored file's name ends with the name it was saved under |
| Invoices.ImportDict | backend/invoices/services/reviewer.py:25 | the snapshot of an import holds its status under "status" and serialises |
| Database.FindByHash | backend/invoices/services/importer.py:81 | the first record with the hash, or `None` iff no record has it |
| Database.FindByHashUnique | backend/invoices/models.py:18 | with unique hashes, the record found is the only one |
| Database.GetOrCreateCategory | backend/invoices/services/reviewer.py:80 | the category with that name; a new empty-description category only when none exists; nothing else changes |
| Database.CreateReport | backend/invoices/services/reviewer.py:91-98 | the report is stored under an id not used before |
| Database.DeleteReport | backend/invoices/models.py:32-38 | the report is removed and every link to it cleared |
| Database.DeleteReportKeepsImports | backend/invoices/models.py:32-38 | after a report is deleted, every import survives, only its link possibly cleared |
| Database.CreateCategory | backend/reports/serializers.py:4-7 | the name and description are stripped; it is refused as blank iff the stripped name is empty, as taken iff another category has the stripped name; otherwise the stripped category takes a fresh id and nothing else changes |
| Database.CreateCategoryIgnoresPadding | backend/reports/models.py:5 | a padded name fares exactly as its stripped form, so " Vivo" beside "Vivo" is taken and a name of whitespace alone is blank |
| Database.DeleteCategory | backend/reports/models.py:27 | refused iff some report is in the category (PROTECT) |
| ImportManager.IdentifyCarrier | backend/invoices/services/importer.py:43-50 | VIVO iff the upper-cased text contains VIVO or TELEFONICA; otherwise CLARO or nothing |
| ImportManager.IdentifyCarrierCaseInsensitive | backend/invoices/services/importer.py:43-50 | texts that upper-case alike name the same carrier |
| ImportManager.IdentifyCarrierPriority | backend/invoices/services/importer.py:43-50 | VIVO wins over CLARO; CLARO iff there is no VIVO mark and a CLARO mark; nothing iff there are no marks |
| ImportManager.CarrierKey | backend/invoices/services/importer.py:98-113 | the upper-cased hint when it is non-empty, else the carrier the text sample names |
| ImportManager.FinalCarrier | backend/invoices/services/importer.py:145 | a carrier is always set; the key when present, else OUTROS |
| ImportManager.ChooseParser | backend/invoices/services/importer.py:102-115 | the CLARO parser iff the key is CLARO, else the VIVO parser |
| ImportManager.Parsed | backend/invoices/services/importer.py:117-118 | the chosen parser's outcome, and any fields it extracts are sound; ExtractionErrorRung and RoutingRung state what each outcome leads to |
| ImportManager.FinalStatus | backend/invoices/services/importer.py:131-140 | SUCCESS iff the total is present and non-zero and the due date is present, else PENDING_REVIEW |
| ImportManager.ResolveHash | backend/invoices/services/importer.py:59-65 | the instance's stored hash when it has one, else the computed hash |
| ImportManager.FailHash | backend/invoices/services/importer.py:66-73 | FAILED; only a passed instance is marked with HASH_ERROR |
| ImportManager.SkipActive | backend/invoices/services/importer.py:84-92 | SKIPPED; only a passed instance is marked with DUPLICATE_ACTIVE |
| ImportManager.IsActive | backend/invoices/services/importer.py:86 | a record is active iff its report exists and is PENDING or APPROVED; ActiveDuplicateRung states that such a record ends the call SKIPPED |
| ImportManager.FailExtraction | backend/invoices/services/importer.py:117-129 | FAILED; the existing record gets EXTRACTION_FAILED and its report becomes FAILED |
| ImportManager.StoredAmount | backend/invoices/services/importer.py:155 | the extracted total, or zero when there is none |
| ImportManager.WithData | backend/invoices/services/importer.py:147-181 | the written record holds the hash, the path, the carrier, the extracted fields, the earned status and its error code; the file is stored as `<hash>.pdf` only for uploads |
| ImportManager.BridgeReport | backend/invoices/services/importer.py:240-261 | the bridged report is PENDING, carries the import's total and due date, and is dated by the due date or today |
| ImportManager.BridgeUpdate | backend/invoices/services/importer.py:244-252 | the linked report is rewritten in place, and nothing else changes |
| ImportManager.BridgeCreate | backend/invoices/services/importer.py:253-263 | a new report is created and linked |
| ImportManager.HandleReport | backend/invoices/services/importer.py:235-263 | nothing happens unless the import succeeded; then the import ends linked to one report holding its data |
| ImportManager.Rewrite | backend/invoices/services/importer.py:171-184 | the record is rewritten in place, and a success leaves it linked |
| ImportManager.LogImport | backend/invoices/services/importer.py:186-192 | one row about the import is appended and nothing else changes |
| ImportManager.PersistExisting | backend/invoices/services/importer.py:163-194 | the REPROCESS path: the record is rewritten in place, one REPROCESS row is logged, and an existing link is kept |
| ImportManager.PersistNew | backend/invoices/services/importer.py:195-221 | the IMPORT path: exactly one record is appended and one IMPORT row is logged |
| ImportManager.Persist | backend/invoices/services/importer.py:143-233 | raises iff rewriting the record would duplicate another record's hash; otherwise reprocesses or creates |
| ImportManager.Existing | backend/invoices/services/importer.py:77-81 | the passed instance, else the record with the hash |
| ImportManager.AfterHash | backend/invoices/services/importer.py:77-233 | once the hash is known: the result is FAILED, SKIPPED, SUCCESS or PENDING_REVIEW, at most one record is added, and it raises only for a hash-less instance |
| ImportManager.ProcessInvoice | backend/invoices/services/importer.py:52-233 | the result status is FAILED, SKIPPED, SUCCESS or PENDING_REVIEW; at most one record is added; it raises only for a hash-less instance |
| ImportManager.HashErrorRung | backend/invoices/services/importer.py:59-73 | a hash error ends the call with FAILED, and no report or audit row is touched |
| ImportManager.StoredHashReused | backend/invoices/services/importer.py:62-63 | an instance with a stored hash is never hashed again |
| ImportManager.ActiveDuplicateRung | backend/invoices/services/importer.py:84-92 | a record whose report is PENDING or APPROVED makes the call SKIPPED, and nothing else changes |
| ImportManager.ExtractionErrorRung | backend/invoices/services/importer.py:117-129 | a parser error makes the call FAILED; no record is created and no row logged |
| ImportManager.RoutingRung | backend/invoices/services/importer.py:131-140 | SUCCESS iff the total is present and non-zero and the due date is present; the confidence plays no part |
| ImportManager.ReprocessInPlace | backend/invoices/services/importer.py:94-95 | a known record that is not active is rewritten in place with one REPROCESS row |
| ImportManager.NewRecordAppended | backend/invoices/services/importer.py:195-221 | an unknown hash adds exactly one record, at the end, with one IMPORT row |
| ImportManager.NoSecondReport | backend/invoices/services/importer.py:244-252 | reprocessing an import that has a report never creates a second one |
| ImportManager.StoredDefaults | backend/invoices/services/importer.py:145-159 | the defaults: a zero total, carrier OUTROS, the current year, city N/A, the English month; the error code is empty iff the status is SUCCESS |
| InvoiceTasks.MarkProcessing | backend/invoices/tasks.py:20-22 | the record becomes PROCESSING, with a new timestamp only if it was not already |
| InvoiceTasks.SaveStatus | backend/invoices/tasks.py:37-38 | only the record's status and `updated_at` change; every other record, report, category and log row is kept |
| InvoiceTasks.FailTask | backend/invoices/tasks.py:48-53 | FAILED with the prefixed message and CRITICAL_TASK_FAILURE; `updated_at` is kept |
| InvoiceTasks.NoFileFailure | backend/invoices/tasks.py:27-28 | a record without a file ends FAILED with the fixed message |
| InvoiceTasks.TaskInput | backend/invoices/tasks.py:30 | the importer gets the stored file's path, as a plain path with no hints |
| InvoiceTasks.Started | backend/invoices/tasks.py:37-38 | the importer starts from the record marked OCR_RUNNING |
| InvoiceTasks.RunImporter | backend/invoices/tasks.py:37-53 | the importer's outcome becomes the summary line, and its exception marks the record failed |
| InvoiceTasks.ProcessTask | backend/invoices/tasks.py:11-53 | an unknown id raises; no file fails; a failed user lookup fails; otherwise the importer runs |
| InvoiceTasks.NoFileAlwaysFails | backend/invoices/tasks.py:27-28 | a record without a file always fails, and the importer is never reached |
| InvoiceTasks.FailureKeepsTimestamp | backend/invoices/tasks.py:52 | a failed job leaves the timestamp of its last full save |
| InvoiceTasks.StoredHashUsed | backend/invoices/tasks.py:40-41 | the job's outcome does not depend on re-hashing a record that holds a hash |
| InvoiceViews.ViewPermission | backend/invoices/views.py:139 | download and inbox need a viewer; trigger, upload and confirm need an analyst |
| InvoiceViews.Denial | backend/invoices/views.py:15 | a refusal is 401 iff the requester is anonymous, else 403 |
| InvoiceViews.ViewPolicy | backend/invoices/views.py:181 | a viewer may list but neither upload nor confirm; whoever may upload may download |
| ScanTrigger.TriggerYear | backend/invoices/views.py:43 | an empty folder gives the current year; any other name is read iff `int()` accepts it, and a digit string gives its value |
| ScanTrigger.PyInt | backend/invoices/models.py:21 | the integer column reads a name iff, once stripped of whitespace, it is an optional sign and digits with single underscores between them; a digit string reads as its value |
| ScanTrigger.PyIntSpaced | backend/invoices/models.py:21 | surrounding whitespace is ignored |
| ScanTrigger.PyIntSigned | backend/invoices/models.py:21 | a leading `+` or `-` is read as the sign |
| ScanTrigger.PyIntUnderscore | backend/invoices/models.py:21 | an underscore between digits is dropped |
| ScanTrigger.PyIntStrict | backend/invoices/models.py:21 | doubled, leading or trailing underscores, a bare sign and blank text are refused |
| ScanTrigger.PyIntRoundTrip | backend/invoices/models.py:21 | `int(str(n))` is `n` for every integer |
| ScanTrigger.TriggerYearRoundTrip | backend/invoices/views.py:43 | a folder named by `str(year)` reads as that year |
| ScanTrigger.ScannedRecord | backend/invoices/views.py:39-49 | a scanned record is PROCESSING with the folder names or their fallbacks, and has no file |
| InvoiceViews.HashFileName | backend/invoices/views.py:121 | the stored name ends in .pdf |
| ScanTrigger.TriggerStep | backend/invoices/views.py:32-60 | a hash error skips the file; a known hash reuses its record; at most one record is added, PROCESSING and queued |
| ScanTrigger.TriggerLoop | backend/invoices/views.py:32-60 | the scan never queues more jobs than there are files, and never drops records |
| ScanTrigger.TriggerQueuedProcessing | backend/invoices/views.py:39-57 | every queued record is PROCESSING, records not queued are unchanged, and every record created is queued |
| ScanTrigger.TriggerFiles | backend/invoices/views.py:39-49 | as written, created records have no file; with the file attached, every queued record holds one |
| ScanTrigger.TriggerSkipsUnhashed | backend/invoices/views.py:58-60 | files that cannot be hashed change nothing |
| ScanTrigger.TriggerQueuesAll | backend/invoices/views.py:29-57 | when every file hashes and every year reads, every file queues a job |
| ScanTrigger.TriggerWith | backend/invoices/views.py:17-66 | denied, or 400 for a missing folder, or 200 with the counts found and queued |
| ScanTrigger.Trigger | backend/invoices/views.py:17-66 | every record the view creates is queued without a file |
| ScanTrigger.TriggerCorrected | backend/invoices/views.py:39-49 | every queued record holds its file |
| ScanTrigger.TriggeredRecordsFail | backend/invoices/views.py:39-56 | as written, every record the scan creates fails its job |
| ScanTrigger.TriggeredRecordsReachImporter | backend/invoices/views.py:39-56 | with the file attached, every queued job reaches the importer |
| InvoiceViews.UploadView | backend/invoices/views.py:73-133 | no file or a non-PDF gives 400 and a hash error gives 500; otherwise the record with that hash is reused or created, set PROCESSING, given the stored file and queued (202) |
| InvoiceViews.UploadTwice | backend/invoices/views.py:90-112 | a second upload of the same content reuses the first record |
| InvoiceViews.Download | backend/invoices/views.py:141-175 | 404 for an unknown or file-less record; otherwise one EXPORT row and the file named after the first 8 characters of the hash |
| InvoiceViews.DownloadNameFromHash | backend/invoices/views.py:172 | the download name carries the first eight characters of the hash |
| InvoiceInbox.IsStale | backend/invoices/views.py:192-196 | a row is stale iff it is PROCESSING or OCR_RUNNING and was last updated more than five minutes ago; StaleRescue fails exactly these |
| InvoiceInbox.Rescued | backend/invoices/views.py:192-202 | a stale job becomes FAILED with the timeout message and code; any other record is unchanged |
| InvoiceInbox.StaleRescue | backend/invoices/views.py:189-204 | every record is passed through the rescue, and nothing else changes |
| InvoiceInbox.StaleRescueIdempotent | backend/invoices/views.py:192-203 | afterwards no job is stale; a row changed iff it was stale; a second rescue changes nothing |
| InvoiceInbox.SortNewest | backend/invoices/views.py:214 | a permutation of the ids, newest first |
| InvoiceInbox.InsertNewestOrder | backend/invoices/views.py:214 | placing one id into a newest-first list keeps the list newest first |
| InvoiceInbox.ItemOf | backend/invoices/views.py:218-231 | a row mirrors the record; the file URL is present iff there is a file; the total quantises back to the stored one |
| InvoiceInbox.InboxOrder | backend/invoices/views.py:206-214 | each inbox-status record exactly once, newest first |
| InvoiceInbox.InboxListing | backend/invoices/views.py:216-231 | one row per record, in inbox order |
| InvoiceInbox.InboxView | backend/invoices/views.py:183-233 | the view rescues stale jobs, then lists the inbox |
| InvoiceInbox.ListingRows | backend/invoices/views.py:206-231 | each row is an inbox-status record, newest first |
| InvoiceInbox.ListingDistinct | backend/invoices/views.py:214 | no record is listed twice |
| InvoiceInbox.ListingMembers | backend/invoices/views.py:206-214 | a record is listed iff it has an inbox status |
| InvoiceInbox.InboxContents | backend/invoices/views.py:189-233 | the inbox lists each inbox-status record once, none of them stale |
| InvoiceViews.ConfirmView | backend/invoices/views.py:241-251 | 400 iff the confirmation fails, and then the database is untouched |
| InvoiceReviewer.TotalEdited | backend/invoices/services/reviewer.py:32-43 | the total counts as edited iff one is sent and its text differs from `str()` of the stored total |
| InvoiceReviewer.DueEdited | backend/invoices/services/reviewer.py:32-43 | the due date counts as edited iff one is sent and it differs from the stored date's ISO text; DueEditedMeansOtherDay gives its meaning |
| InvoiceReviewer.NumberEdited | backend/invoices/services/reviewer.py:32-43 | the number counts as edited iff one is sent and it differs from the stored one (an absent one read as empty) |
| InvoiceReviewer.CarrierEdited | backend/invoices/services/reviewer.py:32-43 | the carrier counts as edited iff one is sent and it differs from the stored one |
| InvoiceReviewer.TotalText | backend/invoices/services/reviewer.py:41 | the stored total's text is empty iff there is no total |
| InvoiceReviewer.DueText | backend/invoices/services/reviewer.py:41 | the stored due date's text reads back as the date |
| InvoiceReviewer.DueEditedMeansOtherDay | backend/invoices/services/reviewer.py:39-43 | an ISO due date counts as edited iff it names another day |
| InvoiceReviewer.ApplyEdits | backend/invoices/services/reviewer.py:28-43 | each edited field takes the sent value, and nothing else changes |
| InvoiceReviewer.Reviewed | backend/invoices/services/reviewer.py:46-66 | SUCCESS; confidence 30 iff something was edited |
| InvoiceReviewer.ReviewReport | backend/invoices/services/reviewer.py:79-98 | PENDING, dated by the due date or today, with the total or zero; the title is built from the carrier and the Portuguese month |
| InvoiceReviewer.SaveReviewed | backend/invoices/services/reviewer.py:66-76 | the record is saved as reviewed, with one UPDATE row holding its before and after; the after-state is the record held in memory, so an edited total shows as the JSON number sent (integer or float) and every other field as stored |
| InvoiceReviewer.NumberValue | backend/invoices/services/reviewer.py:41-42 | the value assigned in memory is an `int` iff the JSON wrote the number as an integer, a `float` otherwise; it can be logged |
| InvoiceReviewer.SentNumber | backend/invoices/services/reviewer.py:41-42 | the number as the audit snapshot writes it: the JSON serialisation of the value held in memory |
| InvoiceReviewer.InMemoryDict | backend/invoices/services/reviewer.py:41-42 | the snapshot of the record held in memory stays loggable; InMemoryLogged states what it shows |
| InvoiceReviewer.InMemoryLogged | backend/invoices/services/reviewer.py:41-42 | `model_to_dict` of a record whose total was assigned a number shows that number at `total_value` and leaves every other field as stored |
| InvoiceReviewer.CreateReviewReport | backend/invoices/services/reviewer.py:78-110 | a new report in the capitalised carrier's category; the record is relinked to it; one IMPORT row, whose after-state shows a non-zero edited total as the number sent and otherwise the stored decimal as text |
| InvoiceReviewer.ReportTotalLogged | backend/audit/services.py:14-15 | a report's snapshot shows its total as a decimal string |
| InvoiceReviewer.Finish | backend/invoices/services/reviewer.py:23-113 | the record ends SUCCESS, linked to a new PENDING report; the old report stays, unlinked; two rows are logged, each showing an edited total as the number sent (the report's only when non-zero) |
| InvoiceReviewer.EditedTotalLoggedAsSent | backend/invoices/services/reviewer.py:66-110 | a confirmation with an edited total succeeds and logs the number sent in the review entry, and in the report entry unless it is zero |
| InvoiceReviewer.Confirm | backend/invoices/services/reviewer.py:13-113 | an unknown id is not found; it fails iff the due date was edited; otherwise it finishes with the edits |
| InvoiceReviewer.CorrectedDue | backend/invoices/services/reviewer.py:42 | an edited ISO due date is stored as the date |
| InvoiceReviewer.ConfirmCorrected | backend/invoices/services/reviewer.py:13-113 | fails iff the edited due date is not a date; the total is compared by value |
| InvoiceReviewer.Untouched | frontend/src/features/invoices/InboxList.tsx:42-55 | an untouched dialog sends the carrier as stored and the total at its value |
| InvoiceReviewer.ConfirmOutcome | backend/invoices/services/reviewer.py:28-66 | without a due-date edit: SUCCESS, linked to a new PENDING report, confidence 30 iff a field was edited |
| InvoiceReviewer.ConfirmTwice | backend/invoices/services/reviewer.py:91-102 | confirming twice creates a second report, and the first stays unlinked |
| InvoiceReviewer.EditedDueDateRejected | backend/invoices/services/reviewer.py:87-88 | as written, an edit of the due date to a real day rolls back |
| InvoiceReviewer.EditedDueDateStored | backend/invoices/services/reviewer.py:42 | corrected, the edited day is stored and dates the report |
| InvoiceReviewer.UntouchedRoundTotalPenalised | backend/invoices/services/reviewer.py:41 | as written, an untouched total of 100.00 is counted as an edit |
| InvoiceReviewer.UntouchedKeepsConfidence | backend/invoices/services/reviewer.py:41 | corrected, an untouched confirmation keeps the confidence and the total |
| StatusActions.Actions | frontend/src/features/reports/components/ReportStatusActions.tsx:65-77 | the history entry comes last; every other entry targets a move the server allows; direct moves never cancel |
| StatusActions.Offered | frontend/src/features/reports/components/ReportStatusActions.tsx:65-75 | the menu's targets, in menu order |
| StatusActions.MenuByStatus | frontend/src/features/reports/components/ReportStatusActions.tsx:67-75 | the menu for each status |
| StatusActions.MenuWithinServerTable | frontend/src/features/reports/components/ReportStatusActions.tsx:65-75 | the menu offers a subset of the server's table, missing only the moves back to PENDING |
| StatusActions.HandleTransition | frontend/src/features/reports/components/ReportStatusActions.tsx:32-46 | one request; a refetch iff it succeeded; the server's error text when there is one; always closes |
| StatusActions.SubmitRejection | frontend/src/features/reports/components/ReportStatusActions.tsx:53-59 | a comment that is blank after trimming only warns; otherwise CANCELED is requested with the comment |
| StatusActions.Choose | frontend/src/features/reports/components/ReportStatusActions.tsx:48-51 | a move requests at once; reject opens the dialog; history asks the parent; the menu closes |
| StatusActions.ClientRequestsAccepted | frontend/src/features/reports/components/ReportStatusActions.tsx:65-77 | every request the menu sends passes the server's checks |
| StatusActions.BlankCommentOnlyBlockedHere | frontend/src/features/reports/components/ReportStatusActions.tsx:54 | a comment of spaces is refused by the client, though the server would accept it |
| InboxScreen.ScoreColor | frontend/src/features/invoices/InboxList.tsx:82-86 | green from 80, amber from 50, red below 50 |
| InboxScreen.ScoreColorMonotone | frontend/src/features/invoices/InboxList.tsx:82-86 | a higher score never gets a worse colour |
| InboxScreen.ScoreCellOf | frontend/src/features/invoices/InboxList.tsx:119-143 | the spinner, failure chip or duplicate chip by status, with the error text or its default; otherwise the score chip |
| InboxScreen.ActionCellOf | frontend/src/features/invoices/InboxList.tsx:146-173 | review buttons iff INBOX or PENDING_REVIEW; otherwise a caption |
| InboxScreen.CellsFollowRecord | frontend/src/features/invoices/InboxList.tsx:119-173 | the cells follow the record's status as the server lists it |
| InboxScreen.RescuedShowsTimeout | frontend/src/features/invoices/InboxList.tsx:121-130 | a job the rescue timed out shows as a failure with the timeout code |
| InboxScreen.WarningMatchesChip | frontend/src/features/invoices/InboxList.tsx:242 | the low-confidence warning appears iff the chip is red |
| InboxScreen.Snapshot | frontend/src/features/invoices/InboxList.tsx:42-50 | the dialog copies the item; a missing due date becomes "" |
| InboxScreen.Payload | frontend/src/features/invoices/InboxList.tsx:52-55 | the body carries the draft's fields |
| InboxScreen.UntouchedReviewSendsRecord | frontend/src/features/invoices/InboxList.tsx:42-55 | an untouched dialog never edits the due date, number or carrier |
| InboxScreen.Refresh | frontend/src/features/invoices/InboxList.tsx:18-29 | items are replaced on success; a silent refresh shows no error and leaves the spinner alone |
| InboxScreen.OpenReview | frontend/src/features/invoices/InboxList.tsx:42-50 | opening sets the item under review and its draft |
| InboxScreen.ConfirmClick | frontend/src/features/invoices/InboxList.tsx:52-63 | nothing is sent without an item; otherwise the draft is sent; success closes the dialog and reloads |
| InboxScreen.ZeroTotalNotBlocking | frontend/src/features/invoices/InboxList.tsx:230-231 | a zero total is flagged and still sent |
| UploadScreen.Pick | frontend/src/features/invoices/InvoiceUpload.tsx:21-35 | a file is accepted iff it is a PDF by MIME type and at most 10 MiB; the MIME type is checked first |
| UploadScreen.SizeLimitInclusive | frontend/src/features/invoices/InvoiceUpload.tsx:27 | exactly 10 MiB passes, and one byte more does not |
| UploadScreen.ChecksDiffer | frontend/src/features/invoices/InvoiceUpload.tsx:22 | the client checks the MIME type and the server checks the name, so a file can pass one and fail the other |
| UploadScreen.Read | frontend/src/features/invoices/InvoiceUpload.tsx:94-96 | a 2xx reply is an answer; an error body's text is kept |
| UploadScreen.UploadClick | frontend/src/features/invoices/InvoiceUpload.tsx:61-100 | no file sends nothing; routed statuses notify and go to the inbox; other statuses show a card; errors keep the file and show the message |
| UploadScreen.AlertSeverity | frontend/src/features/invoices/InvoiceUpload.tsx:115-123 | SUCCESS green, SKIPPED info, FAILED red, anything else amber |
| UploadScreen.ResultTitle | frontend/src/features/invoices/InvoiceUpload.tsx:193-196 | a SUCCESS card reads "Reprocessada" or "Importada" according to the message; a status other than SUCCESS, SKIPPED or PENDING_REVIEW reads as a failure |
| UploadScreen.CardAlwaysFailure | frontend/src/features/invoices/InvoiceUpload.tsx:81-90 | a card an upload produces always has the failure heading |
| UploadScreen.UploadViewOutcomes | frontend/src/features/invoices/InvoiceUpload.tsx:61-100 | against the server view, an accepted upload goes to the inbox with the view's message, and a refusal shows its error |
| ReportsScreen.StatusColor | frontend/src/features/reports/ReportsList.tsx:15-21 | one colour per status, with CANCELED and FAILED both red |
| ReportsScreen.ScoreCellOf | frontend/src/features/reports/ReportsList.tsx:171-185 | N/A iff there is no score; green only at 100, info from 80, amber from 50, red below |
| ReportsScreen.ScoreBandsAcrossScreens | frontend/src/features/reports/ReportsList.tsx:176-180 | the two screens agree below 80 and differ from 80 to 99 |
| ReportsScreen.AfterDelete | frontend/src/features/reports/ReportsList.tsx:57-60 | the list is refetched iff the delete succeeded |
| ReportsScreen.SentSourceId | backend/reports/serializers.py:12 | `invoice_source_id` is sent iff the report has a source import, and it is a database key, never 0 |
| ReportsScreen.DownloadForLinked | frontend/src/features/reports/ReportsList.tsx:197-206 | the original-PDF button (DownloadOffered) is shown for exactly the reports some import links |
| ReportsScreen.Merge | frontend/src/features/reports/ReportsList.tsx:53-55 | patched fields take the patch's value, and the others are kept |
| ReportsScreen.MergeLaws | frontend/src/features/reports/ReportsList.tsx:53-55 | an empty patch changes nothing, and a patch applied twice is applied once |
| ReportsScreen.ChangePatch | frontend/src/features/reports/components/ReportsFilters.tsx:20-22 | a change sets its own field and page 1 |
| ReportsScreen.ChangeResetsPage | frontend/src/features/reports/components/ReportsFilters.tsx:20-22 | after a change: page 1, the changed field set, the others kept |
| ReportsScreen.StatusOptionsOmit | frontend/src/features/reports/components/ReportsFilters.tsx:57-60 | only PENDING, APPROVED and CANCELED can be chosen |
| ReportsScreen.CategoryOptions | frontend/src/features/reports/components/ReportsFilters.tsx:72-77 | "" first, then the loaded ids; a failed load leaves only "" |
| ReportsScreen.PageChange | frontend/src/features/reports/ReportsList.tsx:49-51 | a page change sets only the page, and it is at least 1 |
| ReportsScreen.PageRoundTrip | frontend/src/features/reports/ReportsList.tsx:49-51 | the page shown is the one chosen, and re-choosing it changes nothing |
| ReportsScreen.LookupAppended | frontend/src/features/reports/reportsService.ts:5-11 | each key reads back its value, or nothing when the value was not appended |
| ReportsScreen.Entries | frontend/src/features/reports/reportsService.ts:7-11 | the five candidate parameters, with distinct keys in fixed order |
| ReportsScreen.QueryParams | frontend/src/features/reports/reportsService.ts:4-15 | at most the five parameters, each key at most once and in the fixed order; which ones and with what text is stated by QueryContents |
| ReportsScreen.QueryContents | frontend/src/features/reports/reportsService.ts:4-15 | page and category appear only when non-zero, dates and status only when set, all in fixed order |
| ReportsScreen.ServerQuery | backend/reports/filters.py:3-13 | the query is refused iff a non-empty status, category or date does not read; otherwise each filter is set iff its parameter was sent non-empty, with the value sent |
| ReportsScreen.QueryGet | backend/reports/filters.py:4-13 | `QueryDict.get`: nothing iff the key was not sent, else the value of its last occurrence |
| ReportsScreen.QueryGetAppended | frontend/src/features/reports/reportsService.ts:4-15 | in the client's query each key reads back its own value, or nothing when it was not appended |
| ReportsScreen.Given | backend/reports/filters.py:4-13 | a filter applies iff its parameter's last value is present and non-empty, and then it is that value |
| ReportsScreen.LastStatusDecides | backend/reports/filters.py:4-13 | `status=PENDING&status=BOGUS` reads BOGUS and the request is invalid |
| ReportsScreen.EmptyValuesSkipped | backend/reports/filters.py:3-13 | parameters that are absent or empty filter nothing |
| ReportsScreen.GivenFromBar | frontend/src/features/reports/reportsService.ts:4-15 | the client's query carries each set filter of the bar, non-empty, and leaves the others out |
| ReportsScreen.FiltersReachServer | backend/reports/filters.py:3-13 | the server reads back the bar's status, truthy category and non-empty dates |

## Left out

- Hashing. SHA-256 is not computed; its result or error is an input of the importer, the trigger and the upload view.
- Text extraction. pdfplumber and OCR are inputs: page texts and an OCR text. The parsers' regular-expression matches are inputs too, as sequences of captured strings.
- The Celery queue. A queued job is an id in the response. `.delay` and retries are not modelled.
- The clock. The current time is a parameter, and the user lookup's result is an input.
- The `IntegrityError` race in the upload view (backend/invoices/views.py:105-108). It needs two concurrent requests.
- The importer's generic database-error handler (backend/invoices/services/importer.py:225-233). Only the hash-conflict failure is modelled, as `Raised`.
- Storage name collisions. Django's suffixing of an existing file name is not modelled.
- Floating point and text formatting: the rounding and `%.1f` formatting of the dashboard percentages. The client's number and date formatting.
- Dashboard.Insights: the variation is exact rather than `round(variation, 1)`, and the insight texts are not formatted.
- Case mapping. Upper- and lower-casing cover ASCII letters only, with no Unicode case folding.
- Dates.PortugueseMonth: the contract says a month gets a non-numeric name, not which of the twelve names.
- Dates.EnglishMonth: only its length is stated, as `strftime('%B')` depends on the locale.
- React rendering, the 5-second polling of the inbox and the snackbar queue. They are presentation, not logic.
- Authentication tokens and login.
- URL encoding of query strings.
- Exception texts other than the ones the views return. The reviewer's errors are modelled by kind (`ConfirmError`), not by text.
- Dates spelled other than `dd/mm/yyyy` or ISO.
- Ordering ties. Inbox rows with equal `created_at` may appear in any order.
- The source's `print` diagnostics.
- Record ids start at 0 in the model and at 1 in the database. Where the client tests a sent id for truthiness, `ReportsScreen.SentSourceId` adds the one.
- ReportsScreen.ServerQuery: dates are read in ISO form only. Django's other date input formats (`%m/%d/%Y`, `%m/%d/%y` and the rest) and surrounding whitespace are not accepted by the model. A category id is read as ASCII digits only. The query reads only the status, category and date parameters the client sends. `min_value`, `max_value` and `category_name` are never sent, so they are not read, and a category id is not checked for existence.
- The dashboard's timeline and carrier views (backend/reports/views.py:209-265). They are read-only aggregations outside the core.
- Category listing and editing. Only creating and deleting categories is modelled.
- Column widths and digit limits (`max_length`, `max_digits`). They are not enforced.
- Audit.LogAction: the `except` branch that swallows logging errors (backend/audit/services.py:62-65) is not modelled, since the model cannot fail to log.
- Audit.JsonSerial: snapshots hold dates, decimals, integers, floats, strings and null; the `str()` fallback for any other type (backend/audit/services.py:16) is not modelled. A float is kept as its exact value, not as the binary double Python holds.
- InvoiceReviewer.SentNumber: the JSON text of an edited total is an input. Whether it was written as an integer decides `int` or `float`; the digits a float prints with are not modelled.
- ScanTrigger.TriggerYear: `int()` also reads non-ASCII decimal digits (Arabic-Indic, full-width and others); the model reads ASCII digits only.
- Parsing.CurrencyChars: `\d` in a Python `str` pattern also matches non-ASCII decimal digits (Arabic-Indic, full-width and others); the model keeps ASCII digits only.
- Parsing.ParseDecimal: `Decimal()` also reads non-ASCII decimal digits; the model reads ASCII digits only.
- Parsing.ParseDecimalNone: states rejection for ASCII digit strings; a text whose digits are non-ASCII is rejected by the model but read by `Decimal()`.
- Parsing.CleanCurrency: inherits the two lines above; an amount written in non-ASCII decimal digits gives `None` in the model and a value in Python.
- Parsing.ParseDate: `strptime`'s `%d`, `%m` and `%Y` also match non-ASCII decimal digits; the model reads ASCII digits only.
- ReportViews.FieldValidation: the dates, the total, the status choice and the due date arrive already parsed, so their parse errors ("Date has wrong format", "A valid number is required", "is not a valid choice") are not modelled; each failing field carries one message, where the response lists every message of the field.
- ReportFilters.FilterReports: reports with equal reference dates come in the database's order; the model keeps them in ascending id order.
- Dashboard.CountCreated: states only a bound; which imports are in the window is stated by CreatedWindow.
- Dashboard.Tally: states only a bound. The empty case is stated by TallyNone, and the exact counts by TallyPartition and TallyOpen.

## Findings

| source | as written | input that shows it | evidently intended | confidence | as-written member | corrected member |
|---|---|---|---|---|---|---|
| backend/invoices/views.py:39-49 | the folder trigger creates records through `get_or_create` defaults that set no `file`; the job then raises "No file associated" (backend/invoices/tasks.py:27-28) | any new PDF found by the scan | the scanned PDF is stored on the record, so the job can read it | not executed | ScanTrigger.TriggeredRecordsFail | ScanTrigger.TriggeredRecordsReachImporter |
| backend/invoices/services/reviewer.py:42 | an edited due date is assigned as the string sent; the report title then reads `ref_date.month` from that string (line 88), so the confirmation rolls back | due date edited to "2025-03-10" | the string is read as a date before it is stored | not executed | InvoiceReviewer.EditedDueDateRejected | InvoiceReviewer.EditedDueDateStored |
| backend/invoices/services/reviewer.py:41 | the total counts as edited when `str(new_value) != str(old_value)`; the inbox sends the total as a JSON number, so an untouched 100.00 comes back as `100` and is counted as an edit, lowering the confidence to 30 | stored total 100.00, dialog confirmed untouched | the total is compared by value | not executed | InvoiceReviewer.UntouchedRoundTotalPenalised | InvoiceReviewer.UntouchedKeepsConfidence |
