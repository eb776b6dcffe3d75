/** `DirectoryScanner.scan`: walks a folder tree laid out as
    `Year/City/Carrier/Month/<name>.pdf` and reads the metadata from the path.
    The walk itself is an input: the files `os.walk` yields, in its order,
    each as the directories below the base folder and the file name. */
module DirectoryScanner {
  import opened Wrappers
  import opened Text

  /** A file the walk yields: `dirs` are the folders between the base folder
      and the file. */
  datatype WalkedFile = WalkedFile(dirs: seq<string>, name: string)

  /** Path components never contain the separator. */
  predicate NameOk(f: WalkedFile, sep: char) {
    sep !in f.name && forall i :: 0 <= i < |f.dirs| ==> sep !in f.dirs[i]
  }

  /** One result dictionary: `path`, `year`, `city`, `carrier`, `month`,
      `filename`, all strings. */
  datatype ScanResult = ScanResult(path: string, year: string, city: string,
                                   carrier: string, month: string, filename: string)

  /** `os.path.join(a, b)` for a relative `b`: no separator is added after an
      empty head or one that already ends with a separator. */
  function JoinPath(a: string, b: string, sep: char): (r: string)
    ensures |r| >= |a| + |b|
    ensures a == "" ==> r == b
    ensures a != "" ==> r[..|a|] == a && (a[|a| - 1] == sep ==> r == a + b)
    ensures a != "" && a[|a| - 1] != sep ==> r == a + [sep] + b
  {
    if a == "" || a[|a| - 1] == sep then a + b else a + [sep] + b
  }

  /** The path of `f` relative to the base folder (`os.path.relpath`). */
  function RelPath(f: WalkedFile, sep: char): string {
    Join(f.dirs + [f.name], sep)
  }

  /** The file is kept when its lower-cased name ends in `.pdf`. */
  predicate IsPdfName(name: string) {
    EndsWith(Lower(name), ".pdf")
  }

  /** Splitting a separator-free list of components joined by the separator
      gives back the components. */
  lemma {:induction false} SplitJoin(parts: seq<string>, sep: char)
    requires |parts| >= 1 && forall i :: 0 <= i < |parts| ==> sep !in parts[i]
    ensures Split(Join(parts, sep), sep) == parts
  {
    if |parts| == 1 {
      SplitPiece(parts[0], sep, "");
    } else {
      assert sep !in parts[0];
      SplitPiece(parts[0], sep, Join(parts[1..], sep));
      SplitJoin(parts[1..], sep);
      assert parts == [parts[0]] + parts[1..];
    }
  }

  /** The entry the scan makes for one walked file, if any. The relative path
      is split at the separator and needs five components or more; the five
      fields are the first five components, so a file nested deeper reports a
      folder name as its `filename`. */
  function ScanEntry(base: string, f: WalkedFile, sep: char): (r: Option<ScanResult>)
    requires NameOk(f, sep)
    ensures r.Some? <==> IsPdfName(f.name) && |f.dirs| >= 4
    ensures r.Some? ==> (r.value.year == f.dirs[0] && r.value.city == f.dirs[1]
                         && r.value.carrier == f.dirs[2] && r.value.month == f.dirs[3])
    ensures r.Some? && |f.dirs| == 4 ==> r.value.filename == f.name
    ensures r.Some? && |f.dirs| > 4 ==> r.value.filename == f.dirs[4]
    ensures r.Some? ==> r.value.path == JoinPath(base, RelPath(f, sep), sep)
  {
    var comps := f.dirs + [f.name];
    assert forall i :: 0 <= i < |comps| ==> sep !in comps[i];
    SplitJoin(comps, sep);
    if !IsPdfName(f.name) then None
    else
      var parts := Split(RelPath(f, sep), sep);
      if |parts| >= 5 then
        Some(ScanResult(JoinPath(base, RelPath(f, sep), sep),
                        parts[0], parts[1], parts[2], parts[3], parts[4]))
      else None
  }

  predicate AllNamesOk(files: seq<WalkedFile>, sep: char) {
    forall i :: 0 <= i < |files| ==> NameOk(files[i], sep)
  }

  /** The entries one file contributes: its entry, or none. */
  function Kept(base: string, f: WalkedFile, sep: char): (r: seq<ScanResult>)
    requires NameOk(f, sep)
    ensures |r| <= 1
    ensures |r| == 0 <==> ScanEntry(base, f, sep).None?
    ensures |r| == 1 ==> r[0] == ScanEntry(base, f, sep).value
  {
    match ScanEntry(base, f, sep)
    case Some(e) => [e]
    case None => []
  }

  /** `scan()`: one entry per kept file, in walk order. */
  function Scan(base: string, files: seq<WalkedFile>, sep: char): (r: seq<ScanResult>)
    requires AllNamesOk(files, sep)
    ensures |r| <= |files|
  {
    if |files| == 0 then [] else Kept(base, files[0], sep) + Scan(base, files[1..], sep)
  }

  /** Scanning two parts of a walk one after the other gives the scan of the
      whole walk. */
  lemma {:induction false} ScanAppend(base: string, a: seq<WalkedFile>, b: seq<WalkedFile>, sep: char)
    requires AllNamesOk(a, sep) && AllNamesOk(b, sep)
    ensures AllNamesOk(a + b, sep)
    ensures Scan(base, a + b, sep) == Scan(base, a, sep) + Scan(base, b, sep)
  {
    assert AllNamesOk(a + b, sep) by {
      forall i | 0 <= i < |a + b|
        ensures NameOk((a + b)[i], sep)
      {
        if i < |a| { assert (a + b)[i] == a[i]; } else { assert (a + b)[i] == b[i - |a|]; }
      }
    }
    if |a| == 0 {
      assert a + b == b;
    } else {
      assert (a + b)[1..] == a[1..] + b;
      ScanAppend(base, a[1..], b, sep);
    }
  }

  /** The scan reports exactly the entries of the walked files. */
  lemma {:induction false} ScanMembers(base: string, files: seq<WalkedFile>, sep: char, e: ScanResult)
    requires AllNamesOk(files, sep)
    ensures e in Scan(base, files, sep) <==> exists i :: 0 <= i < |files| && ScanEntry(base, files[i], sep) == Some(e)
  {
    if |files| > 0 {
      ScanMembers(base, files[1..], sep, e);
      if e in Scan(base, files, sep) && ScanEntry(base, files[0], sep) != Some(e) {
        assert e in Scan(base, files[1..], sep);
        var i :| 0 <= i < |files[1..]| && ScanEntry(base, files[1..][i], sep) == Some(e);
        assert files[1..][i] == files[i + 1];
      }
      if exists i :: 0 <= i < |files| && ScanEntry(base, files[i], sep) == Some(e) {
        var i :| 0 <= i < |files| && ScanEntry(base, files[i], sep) == Some(e);
        if i > 0 { assert files[1..][i - 1] == files[i]; }
      }
    }
  }

  /** A file is reported exactly when it is a PDF four folders deep or more,
      and a walk of non-PDF files or shallow files reports nothing. */
  lemma ScanSingle(base: string, f: WalkedFile, sep: char)
    requires NameOk(f, sep)
    ensures |Scan(base, [f], sep)| == 1 <==> IsPdfName(f.name) && |f.dirs| >= 4
    ensures |Scan(base, [f], sep)| == 0 <==> !(IsPdfName(f.name) && |f.dirs| >= 4)
  {
    assert [f][..0] == [];
  }

  /** The check is case-insensitive in the extension: `FATURA.PDF` is kept. */
  lemma UpperCaseExtensionKept()
    ensures IsPdfName("FATURA.PDF")
  {
    var l := Lower("FATURA.PDF");
    assert l[6] == '.' && l[7] == 'p' && l[8] == 'd' && l[9] == 'f';
    assert l[6..] == ".pdf";
  }
}
