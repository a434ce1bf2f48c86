/** The packed store of the desktop (GTK) version: one value holding every worker
    and every employer, with a monotonic `u32` id counter per list.  All lookups
    are linear scans for the first record with the requested id. */
module PackedStore {
  import opened Wrappers

  /** Rust's `u32`. */
  newtype u32 = x: int | 0 <= x < 0x1_0000_0000

  const MaxU32: u32 := 0xFFFF_FFFF

  /** The message of every "no such id" error of the store. */
  const NotFound := "Worker not found by ID"

  /** chrono's `NaiveDate`, carried but never inspected by the store. */
  datatype NaiveDate = NaiveDate(year: int, month: nat, day: nat)

  /** One worker record; the datatype constructor is `Worker::new`. */
  datatype Worker = Worker(
    id: u32,
    name: string,
    taj: string,
    taxnumber: string,
    mothersname: string,
    birthdate: NaiveDate,
    birthplace: string,
    zip: u32,
    city: string,
    street: string,
    isSelected: bool)

  datatype Employer = Employer(id: u32, name: string, taxnumber: string)

  /** Index of the first worker whose id is `id`, the position a scan over the
      list stops at. */
  function Position(ws: seq<Worker>, id: u32): (r: Option<nat>)
    ensures r.Some? ==> r.value < |ws| && ws[r.value].id == id
    ensures r.Some? ==> forall j :: 0 <= j < r.value ==> ws[j].id != id
    ensures r.None? <==> forall j :: 0 <= j < |ws| ==> ws[j].id != id
  {
    if ws == [] then None
    else if ws[0].id == id then Some(0)
    else match Position(ws[1..], id)
      case None => None
      case Some(k) => Some(k + 1)
  }

  /** Index of the first employer whose id is `id`. */
  function EmployerPosition(es: seq<Employer>, id: u32): (r: Option<nat>)
    ensures r.Some? ==> r.value < |es| && es[r.value].id == id
    ensures r.Some? ==> forall j :: 0 <= j < r.value ==> es[j].id != id
    ensures r.None? <==> forall j :: 0 <= j < |es| ==> es[j].id != id
  {
    if es == [] then None
    else if es[0].id == id then Some(0)
    else match EmployerPosition(es[1..], id)
      case None => None
      case Some(k) => Some(k + 1)
  }

  /** The selected workers, in store order (the iterator filter on `is_selected`). */
  function Selected(ws: seq<Worker>): (r: seq<Worker>)
    ensures |r| <= |ws|
    ensures forall w :: w in r <==> w in ws && w.isSelected
  {
    if ws == [] then []
    else if ws[0].isSelected then [ws[0]] + Selected(ws[1..])
    else Selected(ws[1..])
  }

  /** Filtering distributes over concatenation, so the filter keeps store order. */
  lemma {:induction false} SelectedAppend(a: seq<Worker>, b: seq<Worker>)
    ensures Selected(a + b) == Selected(a) + Selected(b)
  {
    if a == [] {
      assert a + b == b;
    } else {
      assert (a + b)[1..] == a[1..] + b;
      SelectedAppend(a[1..], b);
    }
  }

  /** A list keeps all of its records exactly when every record is selected. */
  lemma {:induction false} SelectedAll(ws: seq<Worker>)
    ensures Selected(ws) == ws <==> forall j :: 0 <= j < |ws| ==> ws[j].isSelected
  {
    if ws != [] {
      SelectedAll(ws[1..]);
      if !ws[0].isSelected {
        assert |Selected(ws)| <= |ws[1..]| < |ws|;
      }
    }
  }

  /** Changing one record's selection flag changes the number of selected
      records by the difference of the flags, and nothing else moves. */
  lemma ToggleSelectedCount(ws: seq<Worker>, k: nat, b: bool)
    requires k < |ws|
    ensures var ws' := ws[k := ws[k].(isSelected := b)];
      |Selected(ws')| + (if ws[k].isSelected then 1 else 0)
        == |Selected(ws)| + (if b then 1 else 0)
  {
    var w' := ws[k].(isSelected := b);
    var ws' := ws[k := w'];
    assert ws == ws[..k] + [ws[k]] + ws[k+1..];
    assert ws' == ws[..k] + [w'] + ws[k+1..];
    SelectedAppend(ws[..k] + [ws[k]], ws[k+1..]);
    SelectedAppend(ws[..k], [ws[k]]);
    SelectedAppend(ws[..k] + [w'], ws[k+1..]);
    SelectedAppend(ws[..k], [w']);
  }

  /** Every stored worker id was issued by the counter. */
  ghost predicate WorkerIdsIssued(ws: seq<Worker>, counter: u32) {
    forall w <- ws :: w.id <= counter
  }

  ghost predicate EmployerIdsIssued(es: seq<Employer>, counter: u32) {
    forall e <- es :: e.id <= counter
  }

  ghost predicate DistinctWorkerIds(ws: seq<Worker>) {
    forall i, j :: 0 <= i < j < |ws| ==> ws[i].id != ws[j].id
  }

  ghost predicate DistinctEmployerIds(es: seq<Employer>) {
    forall i, j :: 0 <= i < j < |es| ==> es[i].id != es[j].id
  }

  /** With distinct ids, the record removed by id is the only one that had it,
      so a later lookup of that id finds nothing. */
  lemma RemovedIsGone(ws: seq<Worker>, id: u32)
    requires DistinctWorkerIds(ws)
    requires Position(ws, id).Some?
    ensures var k := Position(ws, id).value; Position(ws[..k] + ws[k+1..], id).None?
  {
    var k := Position(ws, id).value;
    var rest := ws[..k] + ws[k+1..];
    forall j | 0 <= j < |rest| ensures rest[j].id != id {
      if j < k {
        assert rest[j] == ws[j];
      } else {
        assert rest[j] == ws[j + 1];
      }
    }
  }

  /** Removing one record keeps the issued ids issued and distinct. */
  lemma RemovePreservesIds(ws: seq<Worker>, k: nat, counter: u32)
    requires k < |ws|
    requires WorkerIdsIssued(ws, counter) && DistinctWorkerIds(ws)
    ensures WorkerIdsIssued(ws[..k] + ws[k+1..], counter)
    ensures DistinctWorkerIds(ws[..k] + ws[k+1..])
  {
    var rest := ws[..k] + ws[k+1..];
    assert forall j :: 0 <= j < |rest| ==> rest[j] == if j < k then ws[j] else ws[j + 1];
  }

  /** The packed store (`Data`). The lists are updated in place by the methods. */
  class Data {
    var employers: seq<Employer>
    var employerCounter: u32
    var workerCounter: u32
    var workers: seq<Worker>

    /** Every stored id was issued by its counter and no id occurs twice.
        The store does not enforce this; the methods below say which of them keep it. */
    ghost predicate Valid()
      reads this
    {
      && WorkerIdsIssued(workers, workerCounter) && DistinctWorkerIds(workers)
      && EmployerIdsIssued(employers, employerCounter) && DistinctEmployerIds(employers)
    }

    /** `Default for Data`. */
    constructor ()
      ensures employers == [] && workers == []
      ensures employerCounter == 0 && workerCounter == 0
      ensures Valid()
    {
      employers := [];
      employerCounter := 0;
      workerCounter := 0;
      workers := [];
    }

    /** `add_new_worker`: the record gets the next counter value as its id. */
    method AddNewWorker(worker: Worker) returns (r: Result<u32>)
      requires workerCounter < MaxU32
      modifies this
      ensures workerCounter == old(workerCounter) + 1
      ensures workers == old(workers) + [worker.(id := workerCounter)]
      ensures r == Ok(workerCounter)
      ensures employers == old(employers) && employerCounter == old(employerCounter)
      ensures old(WorkerIdsIssued(workers, workerCounter)) ==>
        WorkerIdsIssued(workers, workerCounter) && forall w <- old(workers) :: w.id != workerCounter
      ensures old(Valid()) ==> Valid()
    {
      workerCounter := workerCounter + 1;
      var newWorker := worker.(id := workerCounter);
      workers := workers + [newWorker];
      return Ok(workerCounter);
    }

    /** `get_worker_mut_by_id`: the position of the record a mutable borrow
        would point at, found by a front-to-back scan. */
    method GetWorkerMutById(id: u32) returns (p: Option<nat>)
      ensures p == Position(workers, id)
    {
      var i := 0;
      while i < |workers|
        invariant 0 <= i <= |workers|
        invariant forall j :: 0 <= j < i ==> workers[j].id != id
      {
        if workers[i].id == id {
          return Some(i);
        }
        i := i + 1;
      }
      return None;
    }

    /** `update_worker`: overwrite the first record with `newWorker`'s id. */
    method UpdateWorker(newWorker: Worker) returns (r: Result<Worker>)
      modifies this
      ensures match Position(old(workers), newWorker.id)
        case Some(k) => workers == old(workers)[k := newWorker] && r == Ok(newWorker)
        case None => workers == old(workers) && r == Err(NotFound)
      ensures employers == old(employers)
      ensures employerCounter == old(employerCounter) && workerCounter == old(workerCounter)
      ensures old(Valid()) ==> Valid()
    {
      var p := GetWorkerMutById(newWorker.id);
      match p
      case Some(k) =>
        workers := workers[k := newWorker];
        return Ok(newWorker);
      case None =>
        return Err(NotFound);
    }

    /** `update_worker_by_id`: overwrite the first record whose id is `id`
        with `newWorker` as given, its own id included. */
    method UpdateWorkerById(newWorker: Worker, id: u32) returns (r: Result<Worker>)
      modifies this
      ensures match Position(old(workers), id)
        case Some(k) => workers == old(workers)[k := newWorker] && r == Ok(newWorker)
        case None => workers == old(workers) && r == Err(NotFound)
      ensures employers == old(employers)
      ensures employerCounter == old(employerCounter) && workerCounter == old(workerCounter)
      ensures newWorker.id == id && old(Valid()) ==> Valid()
    {
      var p := GetWorkerMutById(id);
      match p
      case Some(k) =>
        workers := workers[k := newWorker];
        return Ok(newWorker);
      case None =>
        return Err(NotFound);
    }

    /** `set_worker_selected_by_id`: only the flag of the first match changes. */
    method SetWorkerSelectedById(id: u32, selected: bool) returns (r: Option<Worker>)
      modifies this
      ensures match Position(old(workers), id)
        case Some(k) =>
          && workers == old(workers)[k := old(workers)[k].(isSelected := selected)]
          && r == Some(workers[k])
        case None => workers == old(workers) && r == None
      ensures employers == old(employers)
      ensures employerCounter == old(employerCounter) && workerCounter == old(workerCounter)
      ensures old(Valid()) ==> Valid()
    {
      var p := GetWorkerMutById(id);
      match p
      case Some(k) =>
        workers := workers[k := workers[k].(isSelected := selected)];
        return Some(workers[k]);
      case None =>
        return None;
    }

    /** `get_workers`: every record, in store order. */
    function GetWorkers(): (r: seq<Worker>)
      reads this
      ensures |r| == |workers| && forall j :: 0 <= j < |r| ==> r[j] == workers[j]
    {
      workers
    }

    /** `get_workers_selected`: exactly the selected records, in store order. */
    function GetWorkersSelected(): (r: seq<Worker>)
      reads this
      ensures forall w :: w in r <==> w in workers && w.isSelected
      ensures r == Selected(workers)
    {
      Selected(workers)
    }

    /** `remove_worker_by_id`: take out the first record with that id. */
    method RemoveWorkerById(id: u32) returns (r: Option<Worker>)
      modifies this
      ensures match Position(old(workers), id)
        case Some(k) =>
          && workers == old(workers)[..k] + old(workers)[k+1..]
          && r == Some(old(workers)[k])
        case None => workers == old(workers) && r == None
      ensures employers == old(employers)
      ensures employerCounter == old(employerCounter) && workerCounter == old(workerCounter)
      ensures old(Valid()) ==> Valid() && Position(workers, id).None?
    {
      var p := GetWorkerMutById(id);
      match p
      case Some(k) =>
        ghost var before := workers;
        r := Some(workers[k]);
        workers := workers[..k] + workers[k+1..];
        if old(Valid()) {
          RemovePreservesIds(before, k, workerCounter);
          RemovedIsGone(before, id);
        }
      case None =>
        return None;
    }

    /** `add_new_employer`: the employer gets the next employer counter value. */
    method AddNewEmployer(name: string, taxnumber: string)
      requires employerCounter < MaxU32
      modifies this
      ensures employerCounter == old(employerCounter) + 1
      ensures employers == old(employers) + [Employer(employerCounter, name, taxnumber)]
      ensures workers == old(workers) && workerCounter == old(workerCounter)
      ensures old(Valid()) ==> Valid()
    {
      employerCounter := employerCounter + 1;
      employers := employers + [Employer(employerCounter, name, taxnumber)];
    }

    /** `get_employers`. */
    function GetEmployers(): (r: seq<Employer>)
      reads this
      ensures |r| == |employers| && forall j :: 0 <= j < |r| ==> r[j] == employers[j]
    {
      employers
    }

    /** `get_employer_mut_by_id`: the position of the first employer with that id. */
    method GetEmployerMutById(id: u32) returns (p: Option<nat>)
      ensures p == EmployerPosition(employers, id)
    {
      var i := 0;
      while i < |employers|
        invariant 0 <= i <= |employers|
        invariant forall j :: 0 <= j < i ==> employers[j].id != id
      {
        if employers[i].id == id {
          return Some(i);
        }
        i := i + 1;
      }
      return None;
    }
  }
}
