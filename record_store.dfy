/** The per-record store of the Flutter version: the workers are kept in memory
    as a list and each one is also kept on disk as its own JSON file,
    `<id>.json` in the workers directory, where `<id>` is the UUID in its
    32-hex-digit "simple" form.  Every mutation of the list is paired with a
    write or delete of that file, and either can fail. */
module RecordStore {
  import opened Wrappers

  /** A 128-bit UUID. */
  newtype Uuid = x: int | 0 <= x < 0x1_0000_0000_0000_0000_0000_0000_0000_0000

  /** The message of the "no such id" error of `update_worker`. */
  const NotFound := "Worker not found by ID"

  /** One worker record.  The id is the UUID drawn when the record was created;
      everything else, the birth date included, is free text. */
  datatype Worker = Worker(
    id: Uuid,
    name: string,
    taj: string,
    taxnumber: string,
    mothersname: string,
    birthdate: string,
    birthplace: string,
    zip: string,
    city: string,
    street: string,
    isSelected: bool)

  // ---------------------------------------------------------------------------
  // Value functions on a worker.  `Uuid::new_v4` is not modelled: the fresh id
  // it would draw is a parameter.

  /** `Default for Worker`: a blank, unselected record with the id `id`. */
  function DefaultWorker(id: Uuid): (w: Worker)
    ensures w.id == id && !w.isSelected
    ensures w.name == w.taj == w.taxnumber == w.mothersname == w.birthdate == ""
    ensures w.birthplace == w.zip == w.city == w.street == ""
  {
    Worker(id, "", "", "", "", "", "", "", "", "", false)
  }

  /** `Worker::new`: the given field values under the fresh id `id`. */
  function NewWorker(id: Uuid, name: string, taj: string, taxnumber: string, mothersname: string,
                     birthdate: string, birthplace: string, zip: string, city: string, street: string,
                     isSelected: bool): (w: Worker)
    ensures w.id == id && w.isSelected == isSelected
    ensures w.name == name && w.taj == taj && w.taxnumber == taxnumber && w.mothersname == mothersname
    ensures w.birthdate == birthdate && w.birthplace == birthplace
    ensures w.zip == zip && w.city == city && w.street == street
  {
    Worker(id, name, taj, taxnumber, mothersname, birthdate, birthplace, zip, city, street, isSelected)
  }

  /** `Worker::cloned`: an owned copy, equal to the original. */
  function Cloned(w: Worker): (r: Worker)
    ensures r == w
  {
    w
  }

  /** `Worker::set_selected`: a copy that differs from `w` in the selection flag only. */
  function SetSelected(w: Worker, to: bool): (r: Worker)
    ensures r.isSelected == to
    ensures r.(isSelected := w.isSelected) == w
  {
    w.(isSelected := to)
  }

  // ---------------------------------------------------------------------------
  // File names.

  const HexDigits := "0123456789abcdef"

  function Pow16(k: nat): (r: nat)
    ensures r >= 1
  {
    if k == 0 then 1 else 16 * Pow16(k - 1)
  }

  lemma {:induction false} Pow16Add(a: nat, b: nat)
    ensures Pow16(a + b) == Pow16(a) * Pow16(b)
  {
    if a > 0 {
      Pow16Add(a - 1, b);
      assert Pow16(a + b) == 16 * Pow16(a - 1 + b);
    }
  }

  /** Thirty-two hex digits cover exactly the UUIDs. */
  lemma UuidHexWidth()
    ensures Pow16(32) == 0x1_0000_0000_0000_0000_0000_0000_0000_0000
  {
    Pow16Sixteen();
    Pow16Add(16, 16);
  }

  lemma Pow16Sixteen()
    ensures Pow16(16) == 0x1_0000_0000_0000_0000
  {
    Pow16Eight();
    Pow16Add(8, 8);
  }

  lemma Pow16Eight()
    ensures Pow16(8) == 0x1_0000_0000
  {
    assert Pow16(4) == 0x1_0000;
    Pow16Add(4, 4);
  }

  /** The `width` lowest hex digits of `n`, most significant first, lower case. */
  function Hex(n: nat, width: nat): (s: string)
    ensures |s| == width
  {
    if width == 0 then [] else Hex(n / 16, width - 1) + [HexDigits[n % 16]]
  }

  function HexDigitValue(c: char): nat {
    if '0' <= c <= '9' then c as nat - '0' as nat
    else if 'a' <= c <= 'f' then c as nat - 'a' as nat + 10
    else 0
  }

  /** The number a string of hex digits denotes. */
  function HexValue(s: string): nat {
    if s == [] then 0 else 16 * HexValue(s[..|s| - 1]) + HexDigitValue(s[|s| - 1])
  }

  lemma {:induction false} HexRoundTrip(n: nat, width: nat)
    requires n < Pow16(width)
    ensures HexValue(Hex(n, width)) == n
  {
    if width > 0 {
      var s := Hex(n, width);
      assert s[..|s| - 1] == Hex(n / 16, width - 1);
      assert n / 16 < Pow16(width - 1);
      HexRoundTrip(n / 16, width - 1);
      HexDigitRoundTrip(n % 16);
    }
  }

  lemma HexDigitRoundTrip(d: nat)
    requires d < 16
    ensures HexDigitValue(HexDigits[d]) == d
  {
  }

  /** `format!("{}.json", id.as_simple())`: the one file a record is stored in.
      It depends on the id alone. */
  function FileName(id: Uuid): (f: string)
    ensures |f| == 37 && f[32..] == ".json"
  {
    Hex(id as nat, 32) + ".json"
  }

  /** Different records are stored in different files. */
  lemma FileNameInjective(a: Uuid, b: Uuid)
    ensures FileName(a) == FileName(b) <==> a == b
  {
    if FileName(a) == FileName(b) {
      UuidHexWidth();
      assert Hex(a as nat, 32) == FileName(a)[..32] == FileName(b)[..32] == Hex(b as nat, 32);
      HexRoundTrip(a as nat, 32);
      HexRoundTrip(b as nat, 32);
    }
  }

  // ---------------------------------------------------------------------------
  // The workers directory.

  /** What a file holds: a record that deserialises, or anything else. */
  datatype Content = Record(worker: Worker) | Garbled

  /** What a `save` of `w` may leave behind.  A successful save stores `w` under
      its file name.  A failed one touches no other file and leaves that one as
      it was (the create failed), truncated or partly written (`File::create`
      empties it before the write), or holding all of `w`: when the explicit
      `flush` fails, the `BufWriter` retries the flush as it is dropped and
      ignores the outcome, so the record may reach the disk after all. */
  ghost predicate SaveEffect(before: map<string, Content>, after: map<string, Content>, w: Worker, ok: bool) {
    if ok then after == before[FileName(w.id) := Record(w)]
    else
      || after == before
      || after == before[FileName(w.id) := Garbled]
      || after == before[FileName(w.id) := Record(w)]
  }

  /** The workers directory, file name to content.  Any directory or I/O call
      may fail; the model chooses the outcome arbitrarily. */
  class FileSystem {
    var files: map<string, Content>

    constructor (files: map<string, Content>)
      ensures this.files == files
    {
      this.files := files;
    }

    /** `Worker::save`. */
    method Save(w: Worker) returns (r: Result<Worker>)
      modifies this
      ensures SaveEffect(old(files), files, w, r.Ok?)
      ensures r.Ok? ==> r.value == w
    {
      var created: bool := *;
      if !created {
        var msg: string := *;
        return Err(msg);
      }
      var written: bool := *;
      if !written {
        files := files[FileName(w.id) := Garbled];
        var msg: string := *;
        return Err(msg);
      }
      files := files[FileName(w.id) := Record(w)];
      var flushed: bool := *;
      if !flushed {
        // The drop of the `BufWriter` flushed the record anyway.
        var msg: string := *;
        return Err(msg);
      }
      return Ok(w);
    }

    /** `Worker::delete`: removing a file that is not there fails. */
    method Delete(w: Worker) returns (r: Result<()>)
      modifies this
      ensures r.Ok? ==> FileName(w.id) in old(files) && files == old(files) - {FileName(w.id)}
      ensures r.Err? ==> files == old(files)
      ensures FileName(w.id) !in old(files) ==> r.Err?
    {
      var name := FileName(w.id);
      var removed: bool := *;
      if name !in files || !removed {
        var msg: string := *;
        return Err(msg);
      }
      files := files - {name};
      return Ok(());
    }
  }

  // ---------------------------------------------------------------------------
  // Specification functions over the in-memory list.

  /** Index of the first worker with id `id`. */
  function Position(ws: seq<Worker>, id: Uuid): (r: Option<nat>)
    ensures r.Some? ==> r.value < |ws| && ws[r.value].id == id
    ensures r.Some? ==> forall j :: 0 <= j < r.value ==> ws[j].id != id
    ensures r.None? <==> forall j :: 0 <= j < |ws| ==> ws[j].id != id
  {
    if ws == [] then None
    else if ws[0].id == id then Some(0)
    else match Position(ws[1..], id)
      case None => None
      case Some(k) => Some(k + 1)
  }

  ghost predicate DistinctIds(ws: seq<Worker>) {
    forall i, j :: 0 <= i < j < |ws| ==> ws[i].id != ws[j].id
  }

  /** The selected workers, in list order. */
  function Selected(ws: seq<Worker>): (r: seq<Worker>)
    ensures |r| <= |ws|
    ensures forall w :: w in r <==> w in ws && w.isSelected
  {
    if ws == [] then []
    else if ws[0].isSelected then [ws[0]] + Selected(ws[1..])
    else Selected(ws[1..])
  }

  /** `Vec::retain(|w| w.id != id)`: the list without any record with that id. */
  function Retain(ws: seq<Worker>, id: Uuid): (r: seq<Worker>)
    ensures |r| <= |ws|
    ensures forall w :: w in r <==> w in ws && w.id != id
  {
    if ws == [] then []
    else if ws[0].id != id then [ws[0]] + Retain(ws[1..], id)
    else Retain(ws[1..], id)
  }

  /** Filtering on the flag distributes over concatenation, so it keeps list order. */
  lemma {:induction false} SelectedAppend(a: seq<Worker>, b: seq<Worker>)
    ensures Selected(a + b) == Selected(a) + Selected(b)
  {
    if a == [] {
      assert a + b == b;
    } else {
      assert (a + b)[1..] == a[1..] + b;
      SelectedAppend(a[1..], b);
    }
  }

  /** Retaining distributes over concatenation, so the survivors keep list order. */
  lemma {:induction false} RetainAppend(a: seq<Worker>, b: seq<Worker>, id: Uuid)
    ensures Retain(a + b, id) == Retain(a, id) + Retain(b, id)
  {
    if a == [] {
      assert a + b == b;
    } else {
      assert (a + b)[1..] == a[1..] + b;
      RetainAppend(a[1..], b, id);
    }
  }

  /** Retaining drops nothing when no record has the id. */
  lemma {:induction false} RetainAbsent(ws: seq<Worker>, id: Uuid)
    requires Position(ws, id).None?
    ensures Retain(ws, id) == ws
  {
    if ws != [] {
      RetainAbsent(ws[1..], id);
    }
  }

  /** Sub-lists of a list with distinct ids have distinct ids. */
  lemma {:induction false} RetainDistinct(ws: seq<Worker>, id: Uuid)
    requires DistinctIds(ws)
    ensures DistinctIds(Retain(ws, id))
  {
    if ws != [] {
      RetainDistinct(ws[1..], id);
      var rest := Retain(ws[1..], id);
      if ws[0].id != id {
        forall j | 0 <= j < |rest| ensures rest[j].id != ws[0].id {
          assert rest[j] in ws[1..];
        }
      }
    }
  }

  /** The list and the directory agree: ids are distinct and each record's
      file holds exactly that record. */
  ghost predicate SyncedWith(ws: seq<Worker>, files: map<string, Content>) {
    && DistinctIds(ws)
    && forall w <- ws :: FileName(w.id) in files && files[FileName(w.id)] == Record(w)
  }

  /** Saving a record with a new id and appending it keeps list and directory in step. */
  lemma AppendSynced(ws: seq<Worker>, files: map<string, Content>, w: Worker)
    requires SyncedWith(ws, files) && Position(ws, w.id).None?
    ensures SyncedWith(ws + [w], files[FileName(w.id) := Record(w)])
  {
    var ws', files' := ws + [w], files[FileName(w.id) := Record(w)];
    forall i, j | 0 <= i < j < |ws'| ensures ws'[i].id != ws'[j].id {
      assert ws'[i] == ws[i];
    }
    forall v <- ws' ensures FileName(v.id) in files' && files'[FileName(v.id)] == Record(v) {
      FileNameInjective(v.id, w.id);
    }
  }

  /** `add_new_worker` does not check for a listed id: appending a record whose
      id is already there leaves two records sharing one file, so list and
      directory no longer agree, whatever they did before. */
  lemma AppendDuplicateBreaksSync(ws: seq<Worker>, files: map<string, Content>, w: Worker)
    requires Position(ws, w.id).Some?
    ensures !SyncedWith(ws + [w], files[FileName(w.id) := Record(w)])
  {
    var k := Position(ws, w.id).value;
    assert (ws + [w])[k].id == (ws + [w])[|ws|].id;
  }

  /** Deleting a file and dropping the records with its id keeps them in step. */
  lemma RetainSynced(ws: seq<Worker>, files: map<string, Content>, id: Uuid)
    requires SyncedWith(ws, files)
    ensures SyncedWith(Retain(ws, id), files - {FileName(id)})
  {
    RetainDistinct(ws, id);
    forall v <- Retain(ws, id) ensures FileName(v.id) in files - {FileName(id)} {
      FileNameInjective(v.id, id);
    }
  }

  /** Saving a record over the one with its id keeps them in step. */
  lemma ReplaceSynced(ws: seq<Worker>, files: map<string, Content>, k: nat, w: Worker)
    requires SyncedWith(ws, files) && k < |ws| && ws[k].id == w.id
    ensures SyncedWith(ws[k := w], files[FileName(w.id) := Record(w)])
  {
    var ws', files' := ws[k := w], files[FileName(w.id) := Record(w)];
    forall v <- ws' ensures FileName(v.id) in files' && files'[FileName(v.id)] == Record(v) {
      FileNameInjective(v.id, w.id);
      var j :| 0 <= j < |ws'| && ws'[j] == v;
      if j != k {
        assert ws[j] == v;
      }
    }
  }

  /** After a save of `w` whose outcome is ignored, the list with `w` at the
      place of its id agrees with the directory exactly when `w`'s file holds `w`. */
  lemma SaveSynced(ws: seq<Worker>, before: map<string, Content>, after: map<string, Content>, k: nat, w: Worker)
    requires SyncedWith(ws, before) && k < |ws| && ws[k].id == w.id
    requires SaveEffect(before, after, w, true) || SaveEffect(before, after, w, false)
    ensures SyncedWith(ws[k := w], after) <==> FileName(w.id) in after && after[FileName(w.id)] == Record(w)
  {
    if FileName(w.id) in after && after[FileName(w.id)] == Record(w) {
      var name := FileName(w.id);
      if after == before {
        assert before[name := Record(w)] == before;
      }
      assert after == before[name := Record(w)];
      ReplaceSynced(ws, before, k, w);
    } else {
      assert ws[k := w][k] == w;
    }
  }

  // ---------------------------------------------------------------------------
  // Ordering by name, as `String::cmp` does it: code point by code point, a
  // proper prefix first.

  predicate NameLe(a: string, b: string) {
    a == [] || (b != [] && (a[0] < b[0] || (a[0] == b[0] && NameLe(a[1..], b[1..]))))
  }

  lemma {:induction false} NameLeTotal(a: string, b: string)
    ensures NameLe(a, b) || NameLe(b, a)
  {
    if a != [] && b != [] && a[0] == b[0] {
      NameLeTotal(a[1..], b[1..]);
    }
  }

  lemma {:induction false} NameLeTransitive(a: string, b: string, c: string)
    requires NameLe(a, b) && NameLe(b, c)
    ensures NameLe(a, c)
  {
    if a != [] && a[0] == b[0] && b[0] == c[0] {
      NameLeTransitive(a[1..], b[1..], c[1..]);
    }
  }

  ghost predicate SortedByName(ws: seq<Worker>) {
    forall i, j :: 0 <= i < j < |ws| ==> NameLe(ws[i].name, ws[j].name)
  }

  /** A record whose name is not above any name of a sorted list may go in front of it. */
  lemma SortedCons(a: Worker, t: seq<Worker>)
    requires SortedByName(t)
    requires forall x :: x in t ==> NameLe(a.name, x.name)
    ensures SortedByName([a] + t)
  {
    forall i, j | 0 <= i < j < |[a] + t| ensures NameLe(([a] + t)[i].name, ([a] + t)[j].name) {
      if i == 0 {
        assert ([a] + t)[j] == t[j - 1];
      } else {
        assert ([a] + t)[i] == t[i - 1] && ([a] + t)[j] == t[j - 1];
      }
    }
  }

  lemma InsertFront(w: Worker, ws: seq<Worker>)
    requires SortedByName(ws) && ws != [] && NameLe(w.name, ws[0].name)
    ensures SortedByName([w] + ws)
  {
    forall x | x in ws ensures NameLe(w.name, x.name) {
      var j :| 0 <= j < |ws| && ws[j] == x;
      if j > 0 {
        NameLeTransitive(w.name, ws[0].name, x.name);
      }
    }
    SortedCons(w, ws);
  }

  lemma InsertBehind(w: Worker, ws: seq<Worker>, tail: seq<Worker>)
    requires SortedByName(ws) && ws != [] && !NameLe(w.name, ws[0].name)
    requires SortedByName(tail) && multiset(tail) == multiset(ws[1..]) + multiset{w}
    ensures SortedByName([ws[0]] + tail)
    ensures multiset([ws[0]] + tail) == multiset(ws) + multiset{w}
  {
    assert ws == [ws[0]] + ws[1..];
    forall x | x in tail ensures NameLe(ws[0].name, x.name) {
      assert x in multiset(tail);
      if x == w {
        NameLeTotal(w.name, ws[0].name);
      } else {
        assert x in multiset(ws[1..]);
        var j :| 0 <= j < |ws[1..]| && ws[1..][j] == x;
        assert ws[j + 1] == x;
      }
    }
    SortedCons(ws[0], tail);
  }

  /** Insert `w` in front of the first record whose name is not below its own. */
  function InsertByName(w: Worker, ws: seq<Worker>): (r: seq<Worker>)
    requires SortedByName(ws)
    ensures SortedByName(r)
    ensures multiset(r) == multiset(ws) + multiset{w}
  {
    if ws == [] then [w]
    else if NameLe(w.name, ws[0].name) then
      InsertFront(w, ws);
      [w] + ws
    else
      var tail := InsertByName(w, ws[1..]);
      InsertBehind(w, ws, tail);
      [ws[0]] + tail
  }

  /** `sort_by(|a, b| a.name.cmp(&b.name))`, as an insertion sort. */
  function SortByName(ws: seq<Worker>): (r: seq<Worker>)
    ensures SortedByName(r)
    ensures multiset(r) == multiset(ws)
  {
    if ws == [] then []
    else
      assert ws == [ws[0]] + ws[1..];
      InsertByName(ws[0], SortByName(ws[1..]))
  }

  // ---------------------------------------------------------------------------
  // Loading.

  /** No element occurs twice. */
  ghost predicate Distinct<T>(xs: seq<T>) {
    forall i, j :: 0 <= i < j < |xs| ==> xs[i] != xs[j]
  }

  /** In a list without repetitions every element occurs once. */
  lemma {:induction false} DistinctCount<T>(xs: seq<T>, x: T)
    requires Distinct(xs)
    ensures multiset(xs)[x] == if x in xs then 1 else 0
  {
    if xs != [] {
      var init, last := xs[..|xs| - 1], xs[|xs| - 1];
      assert xs == init + [last];
      assert Distinct(init) by {
        forall i, j | 0 <= i < j < |init| ensures init[i] != init[j] {
          assert init[i] == xs[i] && init[j] == xs[j];
        }
      }
      DistinctCount(init, x);
      if x == last {
        forall i | 0 <= i < |init| ensures init[i] != x {
          assert init[i] == xs[i];
        }
      }
    }
  }

  /** Two lists without repetitions that hold the same elements are
      permutations of each other. */
  lemma SameElementsPermutation<T>(a: seq<T>, b: seq<T>)
    requires Distinct(a) && Distinct(b)
    requires forall x :: x in a <==> x in b
    ensures multiset(a) == multiset(b)
  {
    forall x ensures multiset(a)[x] == multiset(b)[x] {
      DistinctCount(a, x);
      DistinctCount(b, x);
    }
  }

  /** The records held by the files `names`, in that order. */
  function Loaded(files: map<string, Content>, names: seq<string>): (r: seq<Worker>)
    requires forall n <- names :: n in files && files[n].Record?
    ensures |r| == |names|
    ensures forall i :: 0 <= i < |names| ==> files[names[i]] == Record(r[i])
  {
    if names == [] then []
    else Loaded(files, names[..|names| - 1]) + [files[names[|names| - 1]].worker]
  }

  /** Save, then reload: when the list agrees with the directory, `Open` loads
      every record of the list whose file the listing did not skip. */
  lemma ReloadFindsSaved(ws: seq<Worker>, files: map<string, Content>, read: seq<string>,
                         skipped: set<string>, w: Worker)
    requires SyncedWith(ws, files) && w in ws
    requires forall n :: n in files <==> n in read || n in skipped
    requires forall n <- read :: n in files && n !in skipped && files[n].Record?
    requires FileName(w.id) !in skipped
    ensures w in Loaded(files, read)
  {
    var i :| 0 <= i < |read| && read[i] == FileName(w.id);
    var r := Loaded(files, read);
    assert files[read[i]] == Record(r[i]);
  }

  /** When nothing is skipped and every file belongs to a record of the list,
      a reload gives back exactly the list, up to order. */
  lemma ReloadIsPermutation(ws: seq<Worker>, files: map<string, Content>, read: seq<string>)
    requires SyncedWith(ws, files)
    requires files.Keys == set v <- ws :: FileName(v.id)
    requires Distinct(read) && forall n :: n in files <==> n in read
    ensures forall n <- read :: n in files && files[n].Record?
    ensures multiset(Loaded(files, read)) == multiset(ws)
  {
    forall n <- read ensures n in files && files[n].Record? {
      var v :| v in ws && n == FileName(v.id);
    }
    var r := Loaded(files, read);
    forall i | 0 <= i < |r| ensures r[i] in ws && read[i] == FileName(r[i].id) {
      var v :| v in ws && read[i] == FileName(v.id);
      assert files[read[i]] == Record(v);
    }
    assert Distinct(r) by {
      forall i, j | 0 <= i < j < |r| ensures r[i] != r[j] {
        assert read[i] != read[j];
      }
    }
    forall x ensures x in r <==> x in ws {
      if x in ws {
        ReloadFindsSaved(ws, files, read, {}, x);
      }
    }
    SameElementsPermutation(r, ws);
  }

  // ---------------------------------------------------------------------------
  // The store.

  /** `Db`: the in-memory list, and the directory that backs it. */
  class Db {
    var workers: seq<Worker>
    const fs: FileSystem

    /** The list and the directory agree: ids are distinct and each record's
        file holds exactly that record. */
    ghost predicate Synced()
      reads this, fs
    {
      SyncedWith(workers, fs.files)
    }

    constructor (fs: FileSystem, workers: seq<Worker>)
      ensures this.fs == fs && this.workers == workers
    {
      this.fs := fs;
      this.workers := workers;
    }

    /** `Db::open`: read every file of the directory, in the directory's own
        order, then sort by name.  A file that cannot be read or does not parse
        aborts the load; a directory entry the listing reports as an error is
        skipped (`read` lists the files loaded, `skipped` those entries). */
    static method Open(fs: FileSystem) returns (r: Result<Db>, ghost read: seq<string>, ghost skipped: set<string>)
      ensures r.Ok? ==> fresh(r.value) && r.value.fs == fs
      ensures r.Ok? ==> Distinct(read)
      ensures r.Ok? ==> forall n :: n in fs.files <==> n in read || n in skipped
      ensures r.Ok? ==> forall n <- read :: n !in skipped && fs.files[n].Record?
      ensures r.Ok? ==> SortedByName(r.value.workers)
      ensures r.Ok? ==> multiset(r.value.workers) == multiset(Loaded(fs.files, read))
    {
      read, skipped := [], {};
      var listed: bool := *;
      if !listed {
        var msg: string := *;
        return Err(msg), read, skipped;
      }
      var loaded: seq<Worker> := [];
      var remaining := fs.files.Keys;
      while remaining != {}
        invariant remaining <= fs.files.Keys
        invariant Distinct(read)
        invariant forall n <- read :: n in fs.files && n !in remaining && n !in skipped && fs.files[n].Record?
        invariant forall n <- skipped :: n in fs.files && n !in remaining
        invariant forall n :: n in fs.files ==> n in read || n in skipped || n in remaining
        invariant loaded == Loaded(fs.files, read)
        decreases |remaining|
      {
        var name :| name in remaining;
        remaining := remaining - {name};
        var entryOk: bool := *;
        if !entryOk {
          skipped := skipped + {name};
        } else {
          var readOk: bool := *;
          if !readOk || fs.files[name].Garbled? {
            var msg: string := *;
            return Err(msg), read, skipped;
          }
          ghost var prev := read;
          loaded := loaded + [fs.files[name].worker];
          read := read + [name];
          assert read[..|read| - 1] == prev;
        }
      }
      var db := new Db(fs, SortByName(loaded));
      return Ok(db), read, skipped;
    }

    /** `Db::add_new_worker`: save first, append only if the save succeeded. */
    method AddNewWorker(worker: Worker) returns (r: Result<()>)
      modifies this, fs
      ensures SaveEffect(old(fs.files), fs.files, worker, r.Ok?)
      ensures workers == if r.Ok? then old(workers) + [worker] else old(workers)
      ensures r.Ok? && Position(old(workers), worker.id).None? ==> GetById(worker.id) == Some(worker)
      ensures r.Ok? && old(Synced()) && Position(old(workers), worker.id).None? ==> Synced()
    {
      var saved := fs.Save(worker);
      if saved.Err? {
        return Err(saved.msg);
      }
      if old(Synced()) && Position(workers, worker.id).None? {
        AppendSynced(workers, old(fs.files), worker);
      }
      workers := workers + [worker];
      return Ok(());
    }

    /** `Db::remove_worker`: delete the file first; only then drop every
        record with the argument's id.  Only the id of the argument is used. */
    method RemoveWorker(worker: Worker) returns (r: Result<()>)
      modifies this, fs
      ensures r.Ok? ==> FileName(worker.id) in old(fs.files)
      ensures r.Ok? ==> fs.files == old(fs.files) - {FileName(worker.id)}
      ensures r.Ok? ==> workers == Retain(old(workers), worker.id) && GetById(worker.id).None?
      ensures r.Err? ==> fs.files == old(fs.files) && workers == old(workers)
      ensures r.Ok? && old(Synced()) ==> Synced()
    {
      var deleted := fs.Delete(worker);
      if deleted.Err? {
        return Err(deleted.msg);
      }
      if old(Synced()) {
        RetainSynced(workers, old(fs.files), worker.id);
      }
      workers := Retain(workers, worker.id);
      return Ok(());
    }

    /** `Db::update_worker`: find the first record with `newWorker`'s id, save,
        and replace the record only if the save succeeded. */
    method UpdateWorker(newWorker: Worker) returns (r: Result<Worker>)
      modifies this, fs
      ensures match Position(old(workers), newWorker.id)
        case None =>
          r == Err(NotFound) && workers == old(workers) && fs.files == old(fs.files)
        case Some(k) =>
          && SaveEffect(old(fs.files), fs.files, newWorker, r.Ok?)
          && workers == (if r.Ok? then old(workers)[k := newWorker] else old(workers))
          && (r.Ok? ==> r.value == newWorker)
      ensures r.Ok? && old(Synced()) ==> Synced()
    {
      var p := FindWorker(newWorker.id);
      if p.None? {
        return Err(NotFound);
      }
      var k := p.value;
      var saved := fs.Save(newWorker);
      if saved.Err? {
        return Err(saved.msg);
      }
      if old(Synced()) {
        ReplaceSynced(workers, old(fs.files), k, newWorker);
      }
      workers := workers[k := newWorker];
      return Ok(newWorker);
    }

    /** `Db::set_worker_selected_by_id`: the flag changes in memory whether or
        not the save that follows succeeds; the save's outcome is discarded. */
    method SetWorkerSelectedById(id: Uuid, selected: bool) returns (r: Option<Worker>)
      modifies this, fs
      ensures match Position(old(workers), id)
        case None => r == None && workers == old(workers) && fs.files == old(fs.files)
        case Some(k) =>
          && workers == old(workers)[k := SetSelected(old(workers)[k], selected)]
          && r == Some(workers[k])
          && (SaveEffect(old(fs.files), fs.files, workers[k], true)
              || SaveEffect(old(fs.files), fs.files, workers[k], false))
      ensures r.Some? && old(Synced()) ==>
        (Synced() <==> FileName(id) in fs.files && fs.files[FileName(id)] == Record(r.value))
    {
      var p := FindWorker(id);
      if p.None? {
        return None;
      }
      var k := p.value;
      ghost var before := workers;
      workers := workers[k := workers[k].(isSelected := selected)];
      var _ := fs.Save(workers[k]);
      if old(Synced()) {
        SaveSynced(before, old(fs.files), fs.files, k, workers[k]);
      }
      return Some(workers[k]);
    }

    /** The scan the `for worker in &mut self.workers` loops perform. */
    method FindWorker(id: Uuid) returns (p: Option<nat>)
      ensures p == Position(workers, id)
    {
      var i := 0;
      while i < |workers|
        invariant 0 <= i <= |workers|
        invariant forall j :: 0 <= j < i ==> workers[j].id != id
      {
        if workers[i].id == id {
          return Some(i);
        }
        i := i + 1;
      }
      return None;
    }

    /** `Db::get_by_id`: the first record with that id. */
    function GetById(id: Uuid): (r: Option<Worker>)
      reads this
      ensures r.Some? ==> r.value in workers && r.value.id == id
      ensures r.Some? ==>
        exists k :: 0 <= k < |workers| && workers[k] == r.value && forall j :: 0 <= j < k ==> workers[j].id != id
      ensures r.None? <==> forall w <- workers :: w.id != id
      ensures DistinctIds(workers) ==> forall w <- workers :: w.id == id ==> r == Some(w)
    {
      match Position(workers, id)
      case Some(k) => Some(workers[k])
      case None => None
    }

    /** `Db::get_workers_selected`: exactly the selected records, in list order. */
    function GetWorkersSelected(): (r: seq<Worker>)
      reads this
      ensures forall w :: w in r <==> w in workers && w.isSelected
      ensures r == Selected(workers)
    {
      Selected(workers)
    }
  }
}
