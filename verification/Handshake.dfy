/** The handshake between generators, runners and the verifier: atomic steps on the shared collections and
    queues, in any interleaving, with redelivery. */
module Handshake {
  import opened Types
  import opened Verifier

  // ----- judging one entry

  /** A document of the run results: what each compiler stored, and the is_handled field if there is one. */
  datatype Entry = Entry(results: map<nat, RunnerResult>, handled: Option<bool>)

  datatype Verdict = DeployVerdict(deployRows: seq<DeployRow>) | RunVerdict(rows: seq<Row>)

  predicate Ready(e: Entry, n: nat) {
    forall c :: 0 <= c < n ==> c in e.results
  }

  function DataOf(e: Entry, n: nat): (data: seq<RunnerResult>)
    requires Ready(e, n)
    ensures |data| == n && forall c :: 0 <= c < n ==> data[c] == e.results[c]
  {
    seq(n, c requires 0 <= c < n => e.results[c])
  }

  ghost predicate NoneEmpty(data: seq<RunnerResult>) {
    forall c :: 0 <= c < |data| ==> data[c][0] != Deployed([])
  }

  /** Worth marking as handled: deployed everywhere, and not empty. */
  ghost predicate Clean(data: seq<RunnerResult>) {
    NoneEmpty(data) && !AnyFailed(data)
  }

  ghost predicate Judged(v: Verdict, data: seq<RunnerResult>) {
    match v
    case DeployVerdict(rows) => AnyFailed(data) && DeployReport(rows, data)
    case RunVerdict(rows) => !AnyFailed(data) && ReportOf(rows, data)
  }

  /** Only the first deployment is looked at. */
  method IsValid(data: seq<RunnerResult>) returns (valid: bool)
    ensures valid <==> NoneEmpty(data)
  {
    for c := 0 to |data|
      invariant forall b :: 0 <= b < c ==> data[b][0] != Deployed([])
    {
      var first := data[c][0];
      if first.Deployed? && |first.functions| == 0 {
        return false;
      }
    }
    return true;
  }

  /** A verdict together with what it was reached on, which is not stored. */
  datatype Record = Record(id: nat, seen: seq<RunnerResult>, verdict: Verdict)

  datatype Found = Found(id: nat, e: Entry)

  ghost predicate Judgeable(f: Found, n: nat) {
    Ready(f.e, n) && NoneEmpty(DataOf(f.e, n))
  }

  ghost predicate RecordFor(r: Record, f: Found, n: nat) {
    r.id == f.id && Judgeable(f, n) && r.seen == DataOf(f.e, n) && Judged(r.verdict, r.seen)
  }

  ghost predicate ToMark(f: Found, id: nat, n: nat) {
    f.id == id && Ready(f.e, n) && Clean(DataOf(f.e, n))
  }

  /** What comes of one found document: a verdict if it is ready and not empty, and whether it is handled. */
  ghost predicate Examined(id: nat, e: Entry, n: nat, record: Option<Record>, handled: bool) {
    && (record.Some? <==> Judgeable(Found(id, e), n))
    && (record.Some? ==> RecordFor(record.value, Found(id, e), n))
    && (handled <==> ToMark(Found(id, e), id, n))
  }

  /** Reshaping the results of this document runs into an index error. */
  ghost predicate Raises(f: Found, n: nat) {
    Ready(f.e, n) && Clean(DataOf(f.e, n)) && Gap(DataOf(f.e, n))
  }

  method Examine(id: nat, e: Entry, n: nat) returns (record: Option<Record>, handled: bool, raised: bool)
    ensures !raised ==> Examined(id, e, n, record, handled)
    ensures raised <==> Raises(Found(id, e), n)
  {
    hide DeployReport, ReportOf, Gap, Reshaped, WellKeyed, Failed;
    record, handled, raised := None, false, false;
    if !(forall c :: 0 <= c < n ==> c in e.results) {
      return;
    }
    var data := DataOf(e, n);
    var valid := IsValid(data);
    if !valid {
      return;
    }
    var hasError, deployRows := CheckDeployErrors(data);
    if hasError {
      record := Some(Record(id, data, DeployVerdict(deployRows)));
      return;
    }
    NoneFailedIsAllDeployed(data);
    var table;
    table, raised := ReshapeData(data);
    if raised {
      return;
    }
    var rows := VerifyResults(table, data);
    record, handled := Some(Record(id, data, RunVerdict(rows))), true;
  }

  lemma NoneFailedIsAllDeployed(data: seq<RunnerResult>)
    ensures AllDeployed(data) <==> !AnyFailed(data)
  {
    if !AnyFailed(data) {
      forall c, j | 0 <= c < |data| && 0 <= j < |data[c]| ensures data[c][j].Deployed? {
        assert !Failed(data[c]);
      }
    }
  }

  // ----- one pass over the unhandled documents

  /** What one pass leaves behind: a record for exactly the ready, non-empty documents, and the ids of exactly
      those of them that deployed. */
  ghost predicate PassOver(found: seq<Found>, n: nat, records: seq<Record>, ids: seq<nat>) {
    AllEarned(found, n, records) && NoneMissed(found, n, records) && MarkedAre(found, n, ids)
  }

  ghost predicate AllEarned(found: seq<Found>, n: nat, records: seq<Record>) {
    forall r :: r in records ==> exists f :: f in found && RecordFor(r, f, n)
  }

  ghost predicate NoneMissed(found: seq<Found>, n: nat, records: seq<Record>) {
    forall f :: f in found && Judgeable(f, n) ==> exists r :: r in records && RecordFor(r, f, n)
  }

  ghost predicate MarkedAre(found: seq<Found>, n: nat, ids: seq<nat>) {
    forall id :: id in ids <==> exists f :: f in found && ToMark(f, id, n)
  }

  method Pass(found: seq<Found>, n: nat) returns (records: seq<Record>, ids: seq<nat>, raised: bool)
    ensures !raised ==> PassOver(found, n, records, ids)
    ensures raised <==> exists f :: f in found && Raises(f, n)
  {
    hide RecordFor, ToMark, Judgeable, Raises;
    records, ids, raised := [], [], false;
    for i := 0 to |found|
      invariant PassOver(found[..i], n, records, ids)
      invariant !raised && forall f :: f in found[..i] ==> !Raises(f, n)
    {
      assert found[i] == Found(found[i].id, found[i].e);
      var record, handled;
      record, handled, raised := Examine(found[i].id, found[i].e, n);
      if raised {
        return;
      }
      assert found[..i + 1] == found[..i] + [found[i]];
      RecordStep(found[..i], found[i], n, records, record, handled);
      MarkStep(found[..i], found[i], n, ids, record, handled);
      if record.Some? {
        records := records + [record.value];
      }
      if handled {
        ids := ids + [found[i].id];
      }
    }
    assert found[..|found|] == found;
  }

  lemma RecordStep(found: seq<Found>, f: Found, n: nat, records: seq<Record>, record: Option<Record>, handled: bool)
    requires AllEarned(found, n, records) && NoneMissed(found, n, records) && Examined(f.id, f.e, n, record, handled)
    ensures var records' := if record.Some? then records + [record.value] else records;
            AllEarned(found + [f], n, records') && NoneMissed(found + [f], n, records')
  {
    hide RecordFor, Judgeable;
    var records' := if record.Some? then records + [record.value] else records;
    forall r | r in records' ensures exists g :: g in found + [f] && RecordFor(r, g, n) {
      if r in records {
        var g :| g in found && RecordFor(r, g, n);
        assert g in found + [f];
      } else {
        assert f in found + [f];
      }
    }
    forall g | g in found + [f] && Judgeable(g, n) ensures exists r :: r in records' && RecordFor(r, g, n) {
      if g in found {
        var r :| r in records && RecordFor(r, g, n);
        assert r in records';
      } else {
        assert record.value in records';
      }
    }
  }

  lemma MarkStep(found: seq<Found>, f: Found, n: nat, ids: seq<nat>, record: Option<Record>, handled: bool)
    requires MarkedAre(found, n, ids) && Examined(f.id, f.e, n, record, handled)
    ensures MarkedAre(found + [f], n, if handled then ids + [f.id] else ids)
  {
    var ids' := if handled then ids + [f.id] else ids;
    forall id ensures id in ids' <==> exists g :: g in found + [f] && ToMark(g, id, n) {
      if id in ids {
        var g :| g in found && ToMark(g, id, n);
        assert g in found + [f];
      }
      if handled && id == f.id { assert f in found + [f]; }
    }
  }

  // ----- the shared state and its steps

  /** What the verifier process holds: nothing, the outcome of a pass, or the ids it still has to mark. */
  datatype Phase = Idle | Passed(records: seq<Record>, ids: seq<nat>) | Stored(ids: seq<nat>)

  /** A message is a generation id and the compiler whose queue it is in. It is outstanding until its runner
      acknowledges it; until then it may be delivered any number of times. */
  datatype State = State(logged: set<nat>, published: set<(nat, nat)>, outstanding: set<(nat, nat)>,
                         ran: set<(nat, nat)>,
                         entries: map<nat, Entry>, verdicts: seq<Record>, phase: Phase)

  datatype Step =
    | Log(id: nat)
    | Publish(id: nat, c: nat)
    | CreateEntry(id: nat)
    | StoreResult(id: nat, c: nat, result: RunnerResult)
    | Acknowledge(id: nat, c: nat)
    | FindUnhandled(found: seq<Found>, records: seq<Record>, ids: seq<nat>)
    | InsertVerdicts
    | MarkHandled
    | Restart

  ghost predicate Init(s: State) {
    s == State({}, {}, {}, {}, map[], [], Idle)
  }

  /** An update of a document that does not exist changes nothing. */
  function Updated(entries: map<nat, Entry>, id: nat, c: nat, result: RunnerResult): map<nat, Entry> {
    if id in entries then entries[id := Entry(entries[id].results[c := result], Some(false))] else entries
  }

  function Marked(entries: map<nat, Entry>, ids: seq<nat>): map<nat, Entry> {
    map id | id in entries :: if id in ids then entries[id].(handled := Some(true)) else entries[id]
  }

  ghost predicate Next(s: State, step: Step, s': State, n: nat) {
    match step
    case Log(id) => id !in s.logged && s' == s.(logged := s.logged + {id})
    case Publish(id, c) =>
      id in s.logged && c < n && (id, c) !in s.published &&
      s' == s.(published := s.published + {(id, c)}, outstanding := s.outstanding + {(id, c)})
    case CreateEntry(id) =>
      id in s.logged && id !in s.entries && (forall c :: 0 <= c < n ==> (id, c) in s.published) &&
      s' == s.(entries := s.entries[id := Entry(map[], None)])
    case StoreResult(id, c, result) =>
      (id, c) in s.outstanding &&
      s' == s.(entries := Updated(s.entries, id, c, result), ran := s.ran + {(id, c)})
    case Acknowledge(id, c) =>
      (id, c) in s.outstanding && (id, c) in s.ran && s' == s.(outstanding := s.outstanding - {(id, c)})
    case FindUnhandled(found, records, ids) =>
      s.phase.Idle? &&
      (forall f :: f in found ==> f.id in s.entries && s.entries[f.id] == f.e && f.e.handled == Some(false)) &&
      PassOver(found, n, records, ids) && s' == s.(phase := Passed(records, ids))
    case InsertVerdicts =>
      s.phase.Passed? && s.phase.records != [] &&
      s' == s.(verdicts := s.verdicts + s.phase.records, phase := Stored(s.phase.ids))
    case MarkHandled =>
      s.phase.Stored? && s' == s.(entries := Marked(s.entries, s.phase.ids), phase := Idle)
    case Restart => s' == s.(phase := Idle)
  }

  datatype Run = Run(states: seq<State>, steps: seq<Step>)

  /** Any number of generators and runners and one verifier, in any order. */
  ghost predicate Legal(run: Run, n: nat) {
    && |run.states| == |run.steps| + 1 && Init(run.states[0])
    && forall i :: 0 <= i < |run.steps| ==> Next(run.states[i], run.steps[i], run.states[i + 1], n)
  }

  function End(run: Run): State
    requires |run.states| > 0
  {
    run.states[|run.states| - 1]
  }

  function BeforeLast(run: Run): Run
    requires |run.steps| > 0 && |run.states| > 0
  {
    Run(run.states[..|run.states| - 1], run.steps[..|run.steps| - 1])
  }

  lemma BeforeIsLegal(run: Run, n: nat)
    requires Legal(run, n) && run.steps != []
    ensures Legal(BeforeLast(run), n)
    ensures Next(End(BeforeLast(run)), run.steps[|run.steps| - 1], End(run), n)
  {
    hide Next;
    var front := BeforeLast(run);
    forall i | 0 <= i < |front.steps| ensures Next(front.states[i], front.steps[i], front.states[i + 1], n) {
      assert Next(run.states[i], run.steps[i], run.states[i + 1], n);
    }
    var last := |run.steps| - 1;
    assert Next(run.states[last], run.steps[last], run.states[last + 1], n);
  }

  // ----- what is_handled means

  /** There is a verdict for the entry, and the entry holds the results of all compilers. */
  ghost predicate Backed(id: nat, s: State, records: seq<Record>, n: nat) {
    && id in s.entries && Ready(s.entries[id], n)
    && exists r :: r in records && r.id == id && Clean(r.seen) && Judged(r.verdict, r.seen)
  }

  ghost predicate Inv(s: State, n: nat) {
    && (forall id :: id in s.entries && s.entries[id].handled == Some(true) ==> Backed(id, s, s.verdicts, n))
    && (s.phase.Passed? ==> forall id :: id in s.phase.ids ==> Backed(id, s, s.phase.records, n))
    && (s.phase.Stored? ==> forall id :: id in s.phase.ids ==> Backed(id, s, s.verdicts, n))
  }

  /** Entries are never deleted and results are only added or replaced. */
  lemma EntriesGrow(s: State, step: Step, s': State, n: nat, id: nat)
    requires Next(s, step, s', n) && id in s.entries
    ensures id in s'.entries && s.entries[id].results.Keys <= s'.entries[id].results.Keys
    ensures Ready(s.entries[id], n) ==> Ready(s'.entries[id], n)
  {
  }

  lemma BackedStays(s: State, step: Step, s': State, n: nat, id: nat, records: seq<Record>, records': seq<Record>)
    requires Next(s, step, s', n) && Backed(id, s, records, n)
    requires forall r :: r in records ==> r in records'
    ensures Backed(id, s', records', n)
  {
    hide Next, Clean, Judged;
    EntriesGrow(s, step, s', n, id);
  }

  /** The ids that a pass wants marked are backed by its records. */
  lemma PassBacks(s: State, found: seq<Found>, records: seq<Record>, ids: seq<nat>, n: nat)
    requires forall f :: f in found ==> f.id in s.entries && s.entries[f.id] == f.e
    requires PassOver(found, n, records, ids)
    ensures forall id :: id in ids ==> Backed(id, s, records, n)
  {
    hide AnyFailed, Judged;
    forall id | id in ids ensures Backed(id, s, records, n) {
      var f :| f in found && ToMark(f, id, n);
      assert Judgeable(f, n);
      var r :| r in records && RecordFor(r, f, n);
      assert Clean(r.seen);
    }
  }

  /** Every step of every process keeps the meaning of is_handled. */
  lemma InvKept(s: State, step: Step, s': State, n: nat)
    requires Inv(s, n) && Next(s, step, s', n)
    ensures Inv(s', n)
  {
    hide Backed, PassOver;
    forall id | id in s.entries && Backed(id, s, s.verdicts, n) ensures Backed(id, s', s'.verdicts, n) {
      BackedStays(s, step, s', n, id, s.verdicts, s'.verdicts);
    }
    if s.phase.Passed? {
      forall id | id in s.phase.ids
        ensures Backed(id, s', s.phase.records, n) && (step.InsertVerdicts? ==> Backed(id, s', s'.verdicts, n))
      {
        BackedStays(s, step, s', n, id, s.phase.records, s.phase.records);
        if step.InsertVerdicts? { BackedStays(s, step, s', n, id, s.phase.records, s'.verdicts); }
      }
    }
    if s.phase.Stored? {
      forall id | id in s.phase.ids ensures Backed(id, s', s'.verdicts, n) {
        BackedStays(s, step, s', n, id, s.verdicts, s'.verdicts);
      }
    }
    if step.FindUnhandled? {
      PassBacks(s, step.found, step.records, step.ids, n);
      forall id | id in step.ids ensures Backed(id, s', step.records, n) {
        BackedStays(s, step, s', n, id, step.records, step.records);
      }
    }
  }

  lemma {:induction false} InvHolds(run: Run, n: nat)
    requires Legal(run, n)
    ensures Inv(End(run), n)
    decreases |run.steps|
  {
    hide Next;
    if run.steps != [] {
      BeforeIsLegal(run, n);
      InvHolds(BeforeLast(run), n);
      InvKept(End(BeforeLast(run)), run.steps[|run.steps| - 1], End(run), n);
    }
  }

  /** In every reachable state an entry that is marked as handled holds every compiler's result, and a verdict
      on it has been inserted. */
  lemma HandledIsBacked(run: Run, n: nat, id: nat)
    requires Legal(run, n) && id in End(run).entries && End(run).entries[id].handled == Some(true)
    ensures Ready(End(run).entries[id], n)
    ensures exists r :: r in End(run).verdicts && r.id == id && Clean(r.seen) && Judged(r.verdict, r.seen)
  {
    InvHolds(run, n);
    assert Backed(id, End(run), End(run).verdicts, n);
  }

  /** The verdict was there before the mark: only marking makes an entry handled, and when it does the
      verdict is already inserted and the results are already complete. */
  lemma VerdictBeforeMark(run: Run, n: nat, id: nat)
    requires Legal(run, n) && run.steps != [] && id in End(run).entries && End(run).entries[id].handled == Some(true)
    requires id in End(BeforeLast(run)).entries ==> End(BeforeLast(run)).entries[id].handled != Some(true)
    ensures run.steps[|run.steps| - 1] == MarkHandled
    ensures Backed(id, End(BeforeLast(run)), End(BeforeLast(run)).verdicts, n)
  {
    hide Backed, PassOver;
    BeforeIsLegal(run, n);
    InvHolds(BeforeLast(run), n);
  }

  // ----- where verdicts come from

  /** The verdict was reached on what the entry held, unhandled, in some state of the run. */
  ghost predicate Earned(r: Record, run: Run, n: nat) {
    Judged(r.verdict, r.seen) && exists s :: s in run.states && WasSeen(r, s, n)
  }

  ghost predicate WasSeen(r: Record, s: State, n: nat) {
    r.id in s.entries && s.entries[r.id].handled == Some(false) && Ready(s.entries[r.id], n) &&
    r.seen == DataOf(s.entries[r.id], n)
  }

  ghost predicate Held(r: Record, s: State) {
    r in s.verdicts || (s.phase.Passed? && r in s.phase.records)
  }

  lemma {:induction false} VerdictsAreEarned(run: Run, n: nat, r: Record)
    requires Legal(run, n) && Held(r, End(run))
    ensures Earned(r, run, n)
    decreases |run.steps|
  {
    hide Judged, AllEarned, NoneMissed, MarkedAre, WasSeen;
    if run.steps != [] {
      BeforeIsLegal(run, n);
      var step, s := run.steps[|run.steps| - 1], End(BeforeLast(run));
      assert s in run.states;
      if Held(r, s) {
        VerdictsAreEarned(BeforeLast(run), n, r);
      } else {
        PassEarned(s, step, End(run), n, r);
      }
    }
  }

  lemma PassEarned(s: State, step: Step, s': State, n: nat, r: Record)
    requires Next(s, step, s', n) && Held(r, s') && !Held(r, s)
    ensures Judged(r.verdict, r.seen) && WasSeen(r, s, n)
  {
    hide Judged, NoneEmpty;
    var f :| f in step.found && RecordFor(r, f, n);
  }

  // ----- a pass, step by step

  /** Steps j .. m - 1 of the run are one pass under way: the documents are found at j and nothing since has
      ended the pass. */
  ghost predicate UnderWay(run: Run, j: nat, m: nat) {
    && j < m < |run.states| && m <= |run.steps| && run.steps[j].FindUnhandled?
    && (forall i :: j < i <= m ==> !run.states[i].phase.Idle?)
    && (run.states[m].phase.Passed? ==>
         run.states[m].phase.records == run.steps[j].records && run.states[m].phase.ids == run.steps[j].ids)
    && (run.states[m].phase.Stored? ==>
         && run.states[m].phase.ids == run.steps[j].ids
         && forall r :: r in run.steps[j].records ==> r in run.states[m].verdicts)
  }

  /** Whatever the verifier holds comes from one finding. */
  lemma {:induction false} PhaseOrigin(run: Run, n: nat) returns (j: nat)
    requires Legal(run, n) && !End(run).phase.Idle?
    ensures UnderWay(run, j, |run.steps|)
    decreases |run.steps|
  {
    hide PassOver;
    assert run.steps != [];
    BeforeIsLegal(run, n);
    var front, last := BeforeLast(run), |run.steps| - 1;
    assert front.states[last] == End(front) == run.states[last];
    if run.steps[last].FindUnhandled? {
      j := last;
    } else {
      j := PhaseOrigin(front, n);
      OriginLasts(run, j, last);
    }
  }

  lemma OriginLasts(run: Run, j: nat, last: nat)
    requires |run.states| == |run.steps| + 1 && |run.steps| == last + 1 && UnderWay(BeforeLast(run), j, last)
    requires !run.states[last + 1].phase.Idle?
    ensures j < last && run.steps[j] == BeforeLast(run).steps[j]
    ensures forall i :: j < i <= last + 1 ==> !run.states[i].phase.Idle?
  {
    var front := BeforeLast(run);
    forall i | j < i <= last + 1 ensures !run.states[i].phase.Idle? {
      if i <= last { assert run.states[i] == front.states[i]; }
    }
  }

  /** What compiler c's result is after steps lo .. hi - 1, if it was `result` before them. */
  ghost function LastStored(steps: seq<Step>, lo: nat, hi: nat, id: nat, c: nat, result: RunnerResult): RunnerResult
    requires lo <= hi <= |steps|
    decreases hi
  {
    if hi == lo then result
    else if Stores(steps[hi - 1], id, c) then steps[hi - 1].result
    else LastStored(steps, lo, hi - 1, id, c, result)
  }

  /** No compiler's last stored result between the two steps, if it stored one at all, differs from the one
      that was read. */
  ghost predicate NothingReplaced(run: Run, lo: nat, hi: nat, id: nat, seen: seq<RunnerResult>) {
    lo <= hi <= |run.steps| && forall c :: 0 <= c < |seen| ==> LastStored(run.steps, lo, hi, id, c, seen[c]) == seen[c]
  }

  lemma {:induction false} ResultAfter(run: Run, n: nat, lo: nat, hi: nat, id: nat, c: nat)
    requires Legal(run, n) && lo <= hi <= |run.steps| && HasResult(run.states[lo], id, c)
    ensures HasResult(run.states[hi], id, c)
    ensures run.states[hi].entries[id].results[c] ==
            LastStored(run.steps, lo, hi, id, c, run.states[lo].entries[id].results[c])
    decreases hi
  {
    hide PassOver;
    if lo < hi {
      ResultAfter(run, n, lo, hi - 1, id, c);
      assert Next(run.states[hi - 1], run.steps[hi - 1], run.states[hi - 1 + 1], n);
    }
  }

  ghost predicate StoresNothing(run: Run, lo: nat, id: nat) {
    forall i :: lo <= i < |run.steps| ==> !(run.steps[i].StoreResult? && run.steps[i].id == id)
  }

  /** A handled entry was marked at some step, and its results have been left alone since. */
  lemma {:induction false} MarkOrigin(run: Run, n: nat, id: nat) returns (k: nat)
    requires Legal(run, n) && id in End(run).entries && End(run).entries[id].handled == Some(true)
    ensures k < |run.steps| && run.steps[k] == MarkHandled && run.states[k].phase.Stored? &&
            id in run.states[k].phase.ids
    ensures id in run.states[k].entries && StoresNothing(run, k, id)
    decreases |run.steps|
  {
    hide PassOver;
    assert run.steps != [];
    BeforeIsLegal(run, n);
    var front, last := BeforeLast(run), |run.steps| - 1;
    assert front.states[last] == End(front) == run.states[last];
    if run.steps[last].MarkHandled? && id in run.states[last].phase.ids {
      k := last;
    } else {
      k := MarkOrigin(front, n, id);
      assert run.steps[k] == front.steps[k] && run.states[k] == front.states[k];
      forall i | k <= i < |run.steps| ensures !(run.steps[i].StoreResult? && run.steps[i].id == id) {
        if i < last { assert front.steps[i] == run.steps[i]; }
      }
    }
  }

  function Upto(run: Run, m: nat): Run
    requires m <= |run.steps| && |run.states| == |run.steps| + 1
  {
    Run(run.states[..m + 1], run.steps[..m])
  }

  lemma UptoIsLegal(run: Run, n: nat, m: nat)
    requires Legal(run, n) && m <= |run.steps|
    ensures Legal(Upto(run, m), n) && End(Upto(run, m)) == run.states[m]
  {
    hide Next, Init;
    var front := Upto(run, m);
    forall i | 0 <= i < m ensures Next(front.states[i], front.steps[i], front.states[i + 1], n) {
      assert Next(run.states[i], run.steps[i], run.states[i + 1], n);
    }
  }

  /** How a handled entry came to be: found unhandled at j with complete, clean results, judged on them, and
      marked at k in the same pass. The verdict is on what the entry holds now if and only if no result was
      replaced between j and k, net of stores that were undone. */
  lemma HandledIff(run: Run, n: nat, id: nat) returns (j: nat, k: nat, r: Record)
    requires Legal(run, n) && id in End(run).entries && End(run).entries[id].handled == Some(true)
    ensures j < k < |run.steps| && run.steps[k] == MarkHandled && UnderWay(run, j, k) && r in run.steps[j].records
    ensures r in End(run).verdicts && r.id == id && WasSeen(r, run.states[j], n) && Clean(r.seen) &&
            Judged(r.verdict, r.seen)
    ensures StoresNothing(run, k, id) && Ready(End(run).entries[id], n)
    ensures r.seen == DataOf(End(run).entries[id], n) <==> NothingReplaced(run, j, k, id, r.seen)
  {
    hide Judged, Clean, Next, AllEarned, NoneMissed, MarkedAre;
    k := MarkOrigin(run, n, id);
    UptoIsLegal(run, n, k);
    j := PhaseOrigin(Upto(run, k), n);
    assert UnderWay(run, j, k) by { UnderWayUpto(run, j, k); }
    r := FoundRecord(run, n, j, id);
    VerdictStays(run, n, k, r);
    HandledIsBacked(run, n, id);
    forall c | 0 <= c < n
      ensures HasResult(End(run), id, c)
      ensures End(run).entries[id].results[c] == LastStored(run.steps, j, k, id, c, r.seen[c])
    {
      ResultAfter(run, n, j, |run.steps|, id, c);
      LastStoredSplit(run, j, k, id, c, r.seen[c]);
    }
  }

  lemma UnderWayUpto(run: Run, j: nat, k: nat)
    requires k <= |run.steps| && |run.states| == |run.steps| + 1 && UnderWay(Upto(run, k), j, k)
    ensures UnderWay(run, j, k)
  {
    var front := Upto(run, k);
    assert front.steps[j] == run.steps[j];
    forall i | j < i <= k ensures !run.states[i].phase.Idle? {
      assert front.states[i] == run.states[i];
    }
  }

  /** The id to be marked was found with clean results and has a record on exactly those. */
  lemma FoundRecord(run: Run, n: nat, j: nat, id: nat) returns (r: Record)
    requires Legal(run, n) && j < |run.steps| && run.steps[j].FindUnhandled? && id in run.steps[j].ids
    ensures r in run.steps[j].records && r.id == id && WasSeen(r, run.states[j], n)
    ensures Clean(r.seen) && Judged(r.verdict, r.seen)
  {
    hide Judged, AnyFailed;
    assert Next(run.states[j], run.steps[j], run.states[j + 1], n);
    var f :| f in run.steps[j].found && ToMark(f, id, n);
    assert Judgeable(f, n);
    r :| r in run.steps[j].records && RecordFor(r, f, n);
  }

  /** Verdicts are never deleted. */
  lemma {:induction false} VerdictStays(run: Run, n: nat, k: nat, r: Record)
    requires Legal(run, n) && k < |run.states| && r in run.states[k].verdicts
    ensures r in End(run).verdicts
    decreases |run.steps|
  {
    hide PassOver;
    if k < |run.steps| {
      BeforeIsLegal(run, n);
      assert BeforeLast(run).states[k] == run.states[k];
      VerdictStays(BeforeLast(run), n, k, r);
    }
  }

  lemma {:induction false} LastStoredSplit(run: Run, j: nat, k: nat, id: nat, c: nat, result: RunnerResult)
    requires j <= k <= |run.steps| && StoresNothing(run, k, id)
    ensures LastStored(run.steps, j, |run.steps|, id, c, result) == LastStored(run.steps, j, k, id, c, result)
  {
    NothingStored(run.steps, j, k, |run.steps|, id, c, result);
  }

  lemma {:induction false} NothingStored(steps: seq<Step>, j: nat, k: nat, hi: nat, id: nat, c: nat,
                                         result: RunnerResult)
    requires j <= k <= hi <= |steps| && forall i :: k <= i < hi ==> !Stores(steps[i], id, c)
    ensures LastStored(steps, j, hi, id, c, result) == LastStored(steps, j, k, id, c, result)
    decreases hi
  {
    if k < hi { NothingStored(steps, j, k, hi - 1, id, c, result); }
  }

  // ----- repeatable results

  /** Whenever a result is stored a second time it is the same result. That is so without redelivery, and with
      it if runners are deterministic. */
  ghost predicate Repeatable(run: Run) {
    forall i :: 0 <= i < |run.steps| && i < |run.states| ==> Repeats(run.states[i], run.steps[i])
  }

  ghost predicate Repeats(s: State, step: Step) {
    step.StoreResult? && step.id in s.entries && step.c in s.entries[step.id].results ==>
      s.entries[step.id].results[step.c] == step.result
  }

  lemma {:induction false} RepeatsReplaceNothing(run: Run, n: nat, lo: nat, hi: nat, id: nat, c: nat)
    requires Legal(run, n) && Repeatable(run) && lo <= hi <= |run.steps| && HasResult(run.states[lo], id, c)
    ensures var result := run.states[lo].entries[id].results[c]; LastStored(run.steps, lo, hi, id, c, result) == result
    decreases hi
  {
    hide Next;
    if lo < hi {
      RepeatsReplaceNothing(run, n, lo, hi - 1, id, c);
      ResultAfter(run, n, lo, hi - 1, id, c);
      assert Repeats(run.states[hi - 1], run.steps[hi - 1]);
    }
  }

  /** When results are repeatable, an entry that is marked as handled has a verdict on exactly the results it
      holds, none of which is a deployment error or an empty contract. */
  lemma HandledIsCurrent(run: Run, n: nat, id: nat)
    requires Legal(run, n) && Repeatable(run) && id in End(run).entries && End(run).entries[id].handled == Some(true)
    ensures Ready(End(run).entries[id], n) && Clean(DataOf(End(run).entries[id], n))
    ensures exists r :: r in End(run).verdicts && r.id == id && r.seen == DataOf(End(run).entries[id], n) &&
                        Judged(r.verdict, r.seen)
  {
    hide Judged, Next, Clean, Legal, Repeatable, UnderWay;
    var j, k, r := HandledIff(run, n, id);
    forall c | 0 <= c < n ensures LastStored(run.steps, j, k, id, c, r.seen[c]) == r.seen[c] {
      RepeatsReplaceNothing(run, n, j, k, id, c);
    }
    assert NothingReplaced(run, j, k, id, r.seen);
  }

  // ----- lost results

  ghost predicate Stores(step: Step, id: nat, c: nat) {
    step.StoreResult? && step.id == id && step.c == c
  }

  ghost predicate HasResult(s: State, id: nat, c: nat) {
    id in s.entries && c in s.entries[id].results
  }

  ghost predicate StoredInTime(run: Run, id: nat, c: nat) {
    exists i :: 0 <= i < |run.steps| && i < |run.states| && Stores(run.steps[i], id, c) && id in run.states[i].entries
  }

  /** An entry holds a compiler's result if and only if the runner came to store it after the generator had
      created the entry; the generator publishes first. */
  lemma {:induction false} ResultIff(run: Run, n: nat, id: nat, c: nat)
    requires Legal(run, n)
    ensures HasResult(End(run), id, c) <==> StoredInTime(run, id, c)
    decreases |run.steps|
  {
    hide Next, HasResult, Stores, Init;
    if run.steps == [] {
      NoResultYet(run, n, id, c);
    } else {
      BeforeIsLegal(run, n);
      var front, last := BeforeLast(run), |run.steps| - 1;
      ResultIff(front, n, id, c);
      ResultStep(End(front), run.steps[last], End(run), n, id, c);
      if StoredInTime(front, id, c) {
        var i :| 0 <= i < |front.steps| && i < |front.states| && Stores(front.steps[i], id, c) &&
            id in front.states[i].entries;
        assert Stores(run.steps[i], id, c) && id in run.states[i].entries;
      }
      if StoredInTime(run, id, c) && !(Stores(run.steps[last], id, c) && id in run.states[last].entries) {
        var i :| 0 <= i < |run.steps| && i < |run.states| && Stores(run.steps[i], id, c) && id in run.states[i].entries;
        assert Stores(front.steps[i], id, c) && id in front.states[i].entries;
      }
    }
  }

  lemma NoResultYet(run: Run, n: nat, id: nat, c: nat)
    requires Legal(run, n) && run.steps == []
    ensures !HasResult(End(run), id, c)
  {
  }

  lemma ResultStep(s: State, step: Step, s': State, n: nat, id: nat, c: nat)
    requires Next(s, step, s', n)
    ensures HasResult(s', id, c) <==> HasResult(s, id, c) || (Stores(step, id, c) && id in s.entries)
  {
  }

  /** The message was consumed and the result is not in the entry. */
  ghost predicate Lost(s: State, id: nat, c: nat) {
    (id, c) in s.published && (id, c) !in s.outstanding && !HasResult(s, id, c)
  }

  /** A lost result stays lost, and its entry is never marked as handled. */
  lemma {:induction false} LostForGood(run: Run, n: nat, i: nat, id: nat, c: nat)
    requires Legal(run, n) && i < |run.states| && Lost(run.states[i], id, c) && c < n
    ensures Lost(End(run), id, c)
    ensures id in End(run).entries ==> End(run).entries[id].handled != Some(true)
    decreases |run.steps|
  {
    hide Next, Inv, Backed;
    if i < |run.states| - 1 {
      BeforeIsLegal(run, n);
      LostForGood(BeforeLast(run), n, i, id, c);
      LostStep(End(BeforeLast(run)), run.steps[|run.steps| - 1], End(run), n, id, c);
    }
    if id in End(run).entries && End(run).entries[id].handled == Some(true) {
      HandledIsBacked(run, n, id);
    }
  }

  lemma LostStep(s: State, step: Step, s': State, n: nat, id: nat, c: nat)
    requires Next(s, step, s', n) && Lost(s, id, c)
    ensures Lost(s', id, c)
  {
  }

  function Then(run: Run, step: Step, s: State): Run {
    Run(run.states + [s], run.steps + [step])
  }

  lemma ThenLegal(run: Run, step: Step, s: State, n: nat)
    requires Legal(run, n) && Next(End(run), step, s, n)
    ensures Legal(Then(run, step, s), n) && End(Then(run, step, s)) == s
  {
    hide Next, Init;
    var longer := Then(run, step, s);
    forall i | 0 <= i < |longer.steps| ensures Next(longer.states[i], longer.steps[i], longer.states[i + 1], n) {
      if i < |run.steps| {
        assert Next(run.states[i], run.steps[i], run.states[i + 1], n);
      }
    }
  }

  /** One contract, one compiler: the message is out and the entry is not there yet. */
  lemma PublishedOnly(id: nat) returns (run: Run)
    ensures Legal(run, 1) && |run.states| > 0 && run.steps == [Log(id), Publish(id, 0)]
    ensures End(run) == State({id}, {(id, 0)}, {(id, 0)}, {}, map[], [], Idle)
  {
    hide Legal;
    var s0 := State({}, {}, {}, {}, map[], [], Idle);
    run := Run([s0], []);
    assert Legal(run, 1) by { NoSteps(run); }
    var s1 := s0.(logged := {id});
    ThenLegal(run, Log(id), s1, 1);
    run := Then(run, Log(id), s1);
    var s2 := s1.(published := {(id, 0)}, outstanding := {(id, 0)});
    ThenLegal(run, Publish(id, 0), s2, 1);
    run := Then(run, Publish(id, 0), s2);
  }

  lemma NoSteps(run: Run)
    requires |run.states| == 1 && run.steps == [] && Init(run.states[0])
    ensures Legal(run, 1)
  {
  }

  /** A runner that is faster than its generator loses its result. */
  lemma FastRunnerLoses(id: nat, result: RunnerResult) returns (run: Run)
    ensures Legal(run, 1)
    ensures run.steps == [Log(id), Publish(id, 0), StoreResult(id, 0, result), Acknowledge(id, 0), CreateEntry(id)]
    ensures Lost(End(run), id, 0) && id in End(run).entries
  {
    hide Legal;
    run := PublishedOnly(id);
    var s3 := End(run).(ran := {(id, 0)});
    ThenLegal(run, StoreResult(id, 0, result), s3, 1);
    run := Then(run, StoreResult(id, 0, result), s3);
    var s4 := s3.(outstanding := {});
    ThenLegal(run, Acknowledge(id, 0), s4, 1);
    run := Then(run, Acknowledge(id, 0), s4);
    var s5 := s4.(entries := map[id := Entry(map[], None)]);
    ThenLegal(run, CreateEntry(id), s5, 1);
    run := Then(run, CreateEntry(id), s5);
  }

  /** The verifier has read a clean result and inserted its verdict, but not marked the entry yet. */
  lemma VerdictInserted(id: nat, first: RunnerResult) returns (run: Run)
    requires Clean([first])
    ensures Legal(run, 1) && |run.states| > 0
    ensures End(run) == State({id}, {(id, 0)}, {(id, 0)}, {(id, 0)}, map[id := Entry(map[0 := first], Some(false))],
                              [Record(id, [first], RunVerdict([]))], Stored([id]))
  {
    hide Legal, PassOver, Clean;
    run := PublishedOnly(id);
    var s3 := End(run).(entries := map[id := Entry(map[], None)]);
    ThenLegal(run, CreateEntry(id), s3, 1);
    run := Then(run, CreateEntry(id), s3);
    var e, record := Entry(map[0 := first], Some(false)), Record(id, [first], RunVerdict([]));
    var s4 := s3.(entries := map[id := e], ran := {(id, 0)});
    assert Updated(s3.entries, id, 0, first) == s4.entries;
    ThenLegal(run, StoreResult(id, 0, first), s4, 1);
    run := Then(run, StoreResult(id, 0, first), s4);
    var find := FindUnhandled([Found(id, e)], [record], [id]);
    OnlyOne(id, e, first, record);
    var s5 := s4.(phase := Passed([record], [id]));
    ThenLegal(run, find, s5, 1);
    run := Then(run, find, s5);
    var s6 := s5.(phase := Stored([id]), verdicts := [record]);
    ThenLegal(run, InsertVerdicts, s6, 1);
    run := Then(run, InsertVerdicts, s6);
  }

  /** A redelivery between the verifier's reading and its marking can leave an entry marked as handled whose
      results were never judged. Here they are even a failed deployment. */
  lemma StaleMark(id: nat, first: RunnerResult, second: RunnerResult) returns (run: Run)
    requires Clean([first]) && Failed(second)
    ensures Legal(run, 1) && id in End(run).entries
    ensures End(run).entries[id] == Entry(map[0 := second], Some(true))
    ensures forall r :: r in End(run).verdicts ==> r.seen != [second]
  {
    hide Legal, Clean, Failed;
    run := VerdictInserted(id, first);
    var s := End(run);
    var again := s.(entries := map[id := Entry(map[0 := second], Some(false))]);
    assert s.entries[id].results[0 := second] == map[0 := second];
    ThenLegal(run, StoreResult(id, 0, second), again, 1);
    run := Then(run, StoreResult(id, 0, second), again);
    var marked := again.(entries := map[id := Entry(map[0 := second], Some(true))], phase := Idle);
    assert Marked(again.entries, [id]) == marked.entries;
    ThenLegal(run, MarkHandled, marked, 1);
    run := Then(run, MarkHandled, marked);
    assert first != second by { CleanDidNotFail(first); }
  }

  /** A different result that is stored between the reading and the marking does no harm if it is replaced again by
      the one that was read. */
  lemma UndoneStore(id: nat, first: RunnerResult, second: RunnerResult) returns (run: Run)
    requires Clean([first]) && first != second
    ensures Legal(run, 1) && id in End(run).entries && End(run).entries[id] == Entry(map[0 := first], Some(true))
    ensures |run.steps| >= 3 && run.steps[|run.steps| - 3..] ==
                                [StoreResult(id, 0, second), StoreResult(id, 0, first), MarkHandled]
    ensures exists r :: r in End(run).verdicts && r.id == id && r.seen == [first]
  {
    hide Legal, Clean;
    run := VerdictInserted(id, first);
    var s := End(run);
    var other := s.(entries := map[id := Entry(map[0 := second], Some(false))]);
    assert s.entries[id].results[0 := second] == map[0 := second];
    ThenLegal(run, StoreResult(id, 0, second), other, 1);
    run := Then(run, StoreResult(id, 0, second), other);
    assert other.entries[id].results[0 := first] == map[0 := first];
    assert s == other.(entries := map[id := Entry(map[0 := first], Some(false))]);
    ThenLegal(run, StoreResult(id, 0, first), s, 1);
    run := Then(run, StoreResult(id, 0, first), s);
    var marked := s.(entries := map[id := Entry(map[0 := first], Some(true))], phase := Idle);
    assert Marked(s.entries, [id]) == marked.entries;
    ThenLegal(run, MarkHandled, marked, 1);
    run := Then(run, MarkHandled, marked);
  }

  lemma CleanDidNotFail(result: RunnerResult)
    requires Clean([result])
    ensures !Failed(result)
  {
    var data: seq<RunnerResult> := [result];
    assert AnyFailed(data) || !Failed(data[0]);
  }

  /** One compiler alone has nothing to compare. */
  lemma OnlyOne(id: nat, e: Entry, first: RunnerResult, record: Record)
    requires e == Entry(map[0 := first], Some(false)) && Clean([first]) && record == Record(id, [first], RunVerdict([]))
    ensures PassOver([Found(id, e)], 1, [record], [id])
  {
    var f := Found(id, e);
    assert DataOf(e, 1) == [first];
    forall r: Row ensures !RowExpected(r, [first]) {
      ColumnIsShort(RowsFor([first], r.name, r.deployment), r.paramsSet);
    }
    assert ReportOf([], [first]);
    assert RecordFor(record, f, 1);
    assert ToMark(f, id, 1);
  }
}
