/** The goroutine protocol of the 115 multipart upload: a producer, one worker, a collector, a
    waiter on the WaitGroup and the main select loop, over unbuffered channels. Every step below is
    one atomic action; a rendezvous on a channel is one step of both partners. The variable `err` is
    shared by the worker and the main loop, as in the source: every call that assigns it is one step
    and every look at it is another, so the other side can come in between. */
module Multipart115 {
  import opened Common

  /** An `oss.UploadPart`: the zero value, or the receipt for an uploaded chunk; `loaded` (not part of
      the program) says whether the bytes sent had been read from the file. */
  datatype Part = Zero | Uploaded(number: nat, loaded: bool)

  /** The value of `err`: nil, io.EOF, or another error. */
  datatype Err = Clear | Eof | Bad

  /** What ReadAt can do: fill the buffer, fill it and meet the end of the file, or fail. */
  datatype Load = Whole | AtEnd | Broken

  datatype Worker =
    | Ready                                              // receives from chunksCh
    | Trying(chunk: nat, retry: nat)                     // a new attempt, about to look at the ticker
    | RefreshDone(chunk: nat, retry: nat)                // token refresh returned, about to look at err
    | RefreshFailed(chunk: nat, retry: nat)              // sends the token error on errCh
    | Fetching(chunk: nat, retry: nat)                   // about to read the chunk
    | ReadDone(chunk: nat, retry: nat, loaded: bool)     // read returned, about to look at err
    | ReadFlagged(chunk: nat, retry: nat, loaded: bool)  // saw an error, about to ask if it is io.EOF
    | Sending(chunk: nat, retry: nat, loaded: bool)      // about to upload the buffer
    | UploadDone(chunk: nat, retry: nat)                 // upload returned, about to look at err
    | Judging(chunk: nat, spent: bool)                   // out of the loop, about to look at err
    | Reporting(chunk: nat)                              // sends the upload error on errCh
    | Delivering(chunk: nat)                             // sends the part on UploadedPartsCh
    | Panicked                                           // recovered, sends on errCh
    | Dead

  datatype Collector = Idle | Holding(part: Part) | Noting

  datatype Waiter = Waiting | Offering | Gone

  /** `Refreshed`: the token refresh returned, about to look at `err`; `Failing`: about to evaluate
      `return nil, err`; `Completing`: the call of CompleteMultipartUpload. */
  datatype MainLoop = Looping | Refreshed | Failing | Completing | Returned(nilError: bool)

  /** The last four are not part of the program: `own` is what the worker last assigned to `err`;
      `receipt` says that its last upload of the current chunk succeeded with bytes that had been read;
      `lost` holds the chunks it took for uploaded without that; `reported` that the main loop received
      from errCh. */
  datatype State = State(
    handed: nat, worker: Worker, part: Part, err: Err,
    collector: Collector, parts: seq<Part>, wg: int,
    waiter: Waiter, main: MainLoop,
    own: Err, receipt: bool, lost: set<nat>, reported: bool)

  function Start(n: nat): State {
    State(0, Ready, Zero, Clear, Idle, [], n, Waiting, Looping, Clear, false, {}, false)
  }

  datatype Step =
    | Hand | WorkerRefreshes(ok: bool) | TestRefresh | Read(load: Load) | TestRead | TestEof
    | Upload(ok: bool) | TestUpload | Judge | Panic
    | ReceiveError | ReceivePart | Append | Done | WaitOver
    | Quit | MainRefreshes(ok: bool) | TestToken | Return | TimeOut

  const ATTEMPTS: nat := 3

  /** The worker after a failed attempt. */
  function NextTry(chunk: nat, retry: nat): Worker {
    if retry + 1 < ATTEMPTS then Trying(chunk, retry + 1) else Judging(chunk, true)
  }

  function ErrOf(ok: bool): Err {
    if ok then Clear else Bad
  }

  function ErrOfLoad(load: Load): Err {
    match load case Whole => Clear case AtEnd => Eof case Broken => Bad
  }

  function Assign(s: State, e: Err): State {
    s.(err := e, own := e)
  }

  /** The calls of the worker: each assigns `err`. */
  function CallStep(s: State, step: Step): Option<State> {
    match (step, s.worker)
    case (WorkerRefreshes(ok), Trying(c, r)) => Some(Assign(s, ErrOf(ok)).(worker := RefreshDone(c, r)))
    case (Read(load), Trying(c, r)) => Some(Assign(s, ErrOfLoad(load)).(worker := ReadDone(c, r, !load.Broken?)))
    case (Read(load), Fetching(c, r)) => Some(Assign(s, ErrOfLoad(load)).(worker := ReadDone(c, r, !load.Broken?)))
    case (Upload(ok), Sending(c, r, loaded)) =>
      Some(Assign(s, ErrOf(ok)).(part := if ok then Uploaded(c, loaded) else Zero, receipt := ok && loaded,
                                 worker := UploadDone(c, r)))
    case _ => None
  }

  /** A look at `err` with which the worker takes its chunk for uploaded, although it is not. */
  predicate Misled(s: State, step: Step) {
    && s.err.Clear? && !s.receipt
    && ((step.TestUpload? && s.worker.UploadDone?) || (step.Judge? && s.worker.Judging? && s.worker.spent))
  }

  /** The looks of the worker at `err`. */
  function LookStep(s: State, step: Step): Option<State> {
    match (step, s.worker)
    case (TestRefresh, RefreshDone(c, r)) =>
      Some(s.(worker := if s.err.Clear? then Fetching(c, r) else RefreshFailed(c, r)))
    case (TestRead, ReadDone(c, r, loaded)) =>
      Some(s.(worker := if s.err.Clear? then Sending(c, r, loaded) else ReadFlagged(c, r, loaded)))
    case (TestEof, ReadFlagged(c, r, loaded)) =>
      Some(s.(worker := if s.err.Eof? then Sending(c, r, loaded) else NextTry(c, r)))
    case (TestUpload, UploadDone(c, r)) =>
      Some(s.(worker := if s.err.Clear? then Judging(c, false) else NextTry(c, r),
              lost := if Misled(s, step) then s.lost + {c} else s.lost))
    case (Judge, Judging(c, _)) =>
      Some(s.(worker := if s.err.Clear? then Delivering(c) else Reporting(c),
              lost := if Misled(s, step) then s.lost + {c} else s.lost))
    case _ => None
  }

  predicate CanPanic(w: Worker) {
    !w.Ready? && !w.RefreshFailed? && !w.Reporting? && !w.Delivering? && !w.Panicked? && !w.Dead?
  }

  /** The main loop receives from errCh; it drops what it received. */
  function ErrorStep(s: State): Option<State> {
    if !s.main.Looping? then None
    else
      var t := s.(main := Failing, reported := true);
      match s.worker
      case RefreshFailed(c, r) => Some(t.(worker := Fetching(c, r)))
      case Reporting(c) => Some(t.(worker := Delivering(c)))
      case Panicked => Some(t.(worker := Dead))
      case _ => None
  }

  function CollectorStep(s: State, step: Step): Option<State> {
    match (step, s.collector)
    case (ReceivePart, Idle) =>
      if s.worker.Delivering? then Some(s.(collector := Holding(s.part), worker := Ready)) else None
    case (Append, Holding(p)) => Some(s.(collector := Noting, parts := s.parts + [p]))
    case (Done, Noting) => Some(s.(collector := Idle, wg := s.wg - 1))
    case _ => None
  }

  /** The main loop: its refresh of the token assigns to `err`, whatever the worker is doing. */
  function MainStep(s: State, step: Step): Option<State> {
    match (step, s.main)
    case (Quit, Looping) => if s.waiter.Offering? then Some(s.(waiter := Gone, main := Completing)) else None
    case (MainRefreshes(ok), Looping) => Some(s.(err := ErrOf(ok), main := Refreshed))
    case (TestToken, Refreshed) => Some(s.(main := if s.err.Clear? then Looping else Failing))
    case (Return, Failing) => Some(s.(main := Returned(s.err.Clear?)))
    case (TimeOut, Looping) => Some(s.(main := Returned(false)))
    case _ => None
  }

  function Next(n: nat, s: State, step: Step): Option<State> {
    if step.Hand? then
      if s.worker.Ready? && s.handed < n
      then Some(s.(handed := s.handed + 1, worker := Trying(s.handed + 1, 0), part := Zero, receipt := false)) else None
    else if IsCall(step) then CallStep(s, step)
    else if IsLook(step) then LookStep(s, step)
    else if step.Panic? then if CanPanic(s.worker) then Some(s.(worker := Panicked)) else None
    else if step.ReceiveError? then ErrorStep(s)
    else if step.WaitOver? then if s.waiter.Waiting? && s.wg == 0 then Some(s.(waiter := Offering)) else None
    else if step.ReceivePart? || step.Append? || step.Done? then CollectorStep(s, step)
    else MainStep(s, step)
  }

  predicate IsCall(step: Step) {
    step.WorkerRefreshes? || step.Read? || step.Upload?
  }

  predicate IsLook(step: Step) {
    step.TestRefresh? || step.TestRead? || step.TestEof? || step.TestUpload? || step.Judge?
  }

  /** The state after a whole interleaving; None when one of its steps is not enabled. */
  function After(n: nat, run: seq<Step>): Option<State> {
    if run == [] then Some(Start(n))
    else
      var before := After(n, run[..|run| - 1]);
      if before.None? then None else Next(n, before.value, run[|run| - 1])
  }

  // ----- The invariant

  predicate HasChunk(w: Worker) {
    !w.Ready? && !w.Panicked? && !w.Dead?
  }

  /** The main loop has neither given up nor is about to. */
  predicate Alive(m: MainLoop) {
    m.Looping? || m.Refreshed? || m.Completing?
  }

  /** Chunks are handed out, delivered and collected one at a time and in order. */
  ghost predicate Pipeline(n: nat, s: State) {
    && s.handed <= n
    && s.handed == |s.parts| + (if s.collector.Holding? then 1 else 0) + (if s.worker.Ready? then 0 else 1)
    && s.wg == n - |s.parts| + (if s.collector.Noting? then 1 else 0)
    && (HasChunk(s.worker) ==> s.worker.chunk == s.handed)
    && (!s.waiter.Waiting? ==> s.wg == 0)
    && (s.main.Completing? ==> s.waiter.Gone?)
    && (s.reported ==> !Alive(s.main))
    && (s.worker.Dead? ==> !Alive(s.main))
  }

  /** What the worker's variables say about its chunk. */
  ghost predicate Honest(s: State) {
    && (HasChunk(s.worker) ==> (s.receipt <==> s.part == Uploaded(s.worker.chunk, true)))
    && (match s.worker
        case Judging(c, false) => c in s.lost <==> !s.receipt
        case Delivering(c) => c in s.lost <==> !s.receipt
        case Reporting(_) => true
        case Ready => true
        case Panicked => true
        case Dead => true
        case _ => s.worker.chunk !in s.lost)
  }

  ghost predicate Collected(s: State) {
    && (forall i :: 0 <= i < |s.parts| ==> (s.parts[i] == Uploaded(i + 1, true) <==> i + 1 !in s.lost))
    && (s.collector.Holding? ==> (s.collector.part == Uploaded(|s.parts| + 1, true) <==> |s.parts| + 1 !in s.lost))
    && (forall c :: c in s.lost ==> 1 <= c <= s.handed)
  }

  ghost predicate Inv(n: nat, s: State) {
    Pipeline(n, s) && (Alive(s.main) ==> Honest(s) && Collected(s))
  }

  lemma {:induction false} HandKeeps(n: nat, s: State)
    requires Inv(n, s) && Next(n, s, Hand).Some?
    ensures Inv(n, Next(n, s, Hand).value)
  {
  }

  lemma {:induction false} CallKeeps(n: nat, s: State, step: Step)
    requires Inv(n, s) && CallStep(s, step).Some?
    ensures Inv(n, CallStep(s, step).value)
  {
  }

  lemma {:induction false} LookKeeps(n: nat, s: State, step: Step)
    requires Inv(n, s) && LookStep(s, step).Some?
    ensures Inv(n, LookStep(s, step).value)
  {
  }

  lemma {:induction false} ErrorKeeps(n: nat, s: State)
    requires Inv(n, s) && ErrorStep(s).Some?
    ensures Inv(n, ErrorStep(s).value)
  {
  }

  lemma {:induction false} CollectorKeeps(n: nat, s: State, step: Step)
    requires Inv(n, s) && CollectorStep(s, step).Some?
    ensures Inv(n, CollectorStep(s, step).value)
  {
  }

  lemma {:induction false} MainKeeps(n: nat, s: State, step: Step)
    requires Inv(n, s) && MainStep(s, step).Some?
    ensures Inv(n, MainStep(s, step).value)
  {
  }

  lemma {:induction false} NextKeeps(n: nat, s: State, step: Step)
    requires Inv(n, s) && Next(n, s, step).Some?
    ensures Inv(n, Next(n, s, step).value)
  {
    if step.Hand? {
      HandKeeps(n, s);
    } else if IsCall(step) {
      CallKeeps(n, s, step);
    } else if IsLook(step) {
      LookKeeps(n, s, step);
    } else if step.ReceiveError? {
      ErrorKeeps(n, s);
    } else if step.ReceivePart? || step.Append? || step.Done? {
      CollectorKeeps(n, s, step);
    } else if !step.Panic? && !step.WaitOver? {
      MainKeeps(n, s, step);
    }
  }

  lemma {:induction false} RunKeeps(n: nat, run: seq<Step>)
    requires After(n, run).Some?
    ensures Inv(n, After(n, run).value)
  {
    if run != [] {
      RunKeeps(n, run[..|run| - 1]);
      NextKeeps(n, After(n, run[..|run| - 1]).value, run[|run| - 1]);
    }
  }

  // ----- Safety of every interleaving

  /** The receipts of all chunks in chunk order, each for bytes that had been read. */
  function Receipts(n: nat): (ps: seq<Part>)
    ensures |ps| == n && forall i :: 0 <= i < n ==> ps[i] == Uploaded(i + 1, true)
  {
    if n == 0 then [] else Receipts(n - 1) + [Uploaded(n, true)]
  }

  /** In every interleaving CompleteMultipartUpload is called with one entry per chunk, in chunk
      order, each of them the receipt of its chunk unless the worker was misled about that chunk; so
      the list is the full list of receipts exactly when it never was. */
  lemma {:induction false} CompletesWhole(n: nat, run: seq<Step>)
    requires After(n, run).Some? && After(n, run).value.main.Completing?
    ensures
      var s := After(n, run).value;
      && |s.parts| == n && (forall i :: 0 <= i < n ==> (s.parts[i] == Uploaded(i + 1, true) <==> i + 1 !in s.lost))
      && (s.parts == Receipts(n) <==> s.lost == {})
      && !s.reported
  {
    RunKeeps(n, run);
    var s := After(n, run).value;
    if s.lost != {} {
      var c :| c in s.lost;
      assert s.parts[c - 1] != Receipts(n)[c - 1];
    }
  }

  lemma {:induction false} GivenUpStep(n: nat, s: State, step: Step)
    requires Next(n, s, step).Some?
    ensures !Alive(s.main) ==> !Alive(Next(n, s, step).value.main)
    ensures s.main.Returned? ==> Next(n, s, step).value.main == s.main
  {
  }

  /** Once the main loop has given up it stays so, and a returned result stays as it is. */
  lemma {:induction false} GivenUpStays(n: nat, run: seq<Step>, k: nat)
    requires k <= |run| && After(n, run).Some?
    ensures After(n, run[..k]).Some?
    ensures !Alive(After(n, run[..k]).value.main) ==> !Alive(After(n, run).value.main)
    ensures After(n, run[..k]).value.main.Returned? ==> After(n, run).value.main == After(n, run[..k]).value.main
  {
    var m := |run| - 1;
    if k == |run| {
      assert run[..k] == run;
    } else {
      GivenUpStays(n, run[..m], k);
      assert run[..m][..k] == run[..k];
      GivenUpStep(n, After(n, run[..m]).value, run[m]);
    }
  }

  /** Once the main loop has received an error, no continuation completes the upload. */
  lemma {:induction false} ReportedNeverCompletes(n: nat, run: seq<Step>, k: nat)
    requires k <= |run| && After(n, run).Some?
    requires After(n, run[..k]).Some? && After(n, run[..k]).value.reported
    ensures !After(n, run).value.main.Completing?
  {
    RunKeeps(n, run[..k]);
    GivenUpStays(n, run, k);
  }

  // ----- When the list is whole

  /** With step `k` the worker takes its chunk for uploaded, because `err` is nil, although its last
      upload of the chunk failed, or sent bytes that had not been read, or never took place. */
  ghost predicate Spoils(n: nat, run: seq<Step>, k: nat)
    requires k < |run|
  {
    After(n, run[..k]).Some? && Misled(After(n, run[..k]).value, run[k])
  }

  ghost predicate Unspoilt(n: nat, run: seq<Step>) {
    forall k :: 0 <= k < |run| ==> !Spoils(n, run, k)
  }

  lemma {:induction false} LossIff(n: nat, run: seq<Step>)
    requires After(n, run).Some?
    ensures After(n, run).value.lost == {} <==> Unspoilt(n, run)
  {
    if run != [] {
      var m := |run| - 1;
      LossIff(n, run[..m]);
      forall k | 0 <= k < m
        ensures Spoils(n, run[..m], k) <==> Spoils(n, run, k)
      {
        assert run[..m][..k] == run[..k];
      }
      assert Unspoilt(n, run) <==> Unspoilt(n, run[..m]) && !Spoils(n, run, m);
      LossStep(n, After(n, run[..m]).value, run[m]);
    }
  }

  lemma {:induction false} LossStep(n: nat, s: State, step: Step)
    requires Next(n, s, step).Some?
    ensures Next(n, s, step).value.lost == {} <==> s.lost == {} && !Misled(s, step)
  {
  }

  /** A run that reaches CompleteMultipartUpload hands it all receipts exactly when the worker was
      never misled. */
  lemma {:induction false} CompletesWholeIff(n: nat, run: seq<Step>)
    requires After(n, run).Some? && After(n, run).value.main.Completing?
    ensures After(n, run).value.parts == Receipts(n) <==> Unspoilt(n, run)
  {
    CompletesWhole(n, run);
    LossIff(n, run);
  }

  // ----- Who wrote `err` last

  predicate Writes(step: Step) {
    IsCall(step) || step.MainRefreshes?
  }

  function Written(step: Step): Err
    requires Writes(step)
  {
    if step.Read? then ErrOfLoad(step.load) else ErrOf(step.ok)
  }

  /** The value of the last assignment to `err`, of anyone. */
  function LastWrite(run: seq<Step>): Err {
    if run == [] then Clear
    else if Writes(run[|run| - 1]) then Written(run[|run| - 1])
    else LastWrite(run[..|run| - 1])
  }

  /** The value of the last assignment of the worker. */
  function LastOwn(run: seq<Step>): Err {
    if run == [] then Clear
    else if IsCall(run[|run| - 1]) then Written(run[|run| - 1])
    else LastOwn(run[..|run| - 1])
  }

  lemma {:induction false} ErrIsLastWrite(n: nat, run: seq<Step>)
    requires After(n, run).Some?
    ensures After(n, run).value.err == LastWrite(run)
    ensures After(n, run).value.own == LastOwn(run)
  {
    if run != [] {
      ErrIsLastWrite(n, run[..|run| - 1]);
      WriteStep(n, After(n, run[..|run| - 1]).value, run[|run| - 1]);
    }
  }

  lemma {:induction false} WriteStep(n: nat, s: State, step: Step)
    requires Next(n, s, step).Some?
    ensures Next(n, s, step).value.err == if Writes(step) then Written(step) else s.err
    ensures Next(n, s, step).value.own == if IsCall(step) then Written(step) else s.own
  {
  }

  /** Step `i` is a token refresh of the main loop, and nothing has been assigned to `err` since. */
  ghost predicate RefreshedLast(run: seq<Step>, i: nat) {
    i < |run| && run[i].MainRefreshes? && forall j :: i < j < |run| ==> !Writes(run[j])
  }

  /** What the worker sees is not what it wrote exactly when a token refresh with the other outcome
      came in between. */
  lemma {:induction false} DeceivedIff(n: nat, run: seq<Step>)
    requires After(n, run).Some?
    ensures
      var s := After(n, run).value;
      s.err != s.own <==> exists i: nat :: RefreshedLast(run, i) && Written(run[i]) != s.own
  {
    ErrIsLastWrite(n, run);
    forall i: nat | RefreshedLast(run, i) ensures Written(run[i]) == LastWrite(run) {
      LastIs(run, i);
    }
    if !exists i: nat :: RefreshedLast(run, i) {
      OwnIsLast(run);
    }
  }

  lemma {:induction false} LastIs(run: seq<Step>, i: nat)
    requires RefreshedLast(run, i)
    ensures LastWrite(run) == Written(run[i])
  {
    var m := |run| - 1;
    if i < m { LastIs(run[..m], i); }
  }

  lemma {:induction false} OwnIsLast(run: seq<Step>)
    requires forall i: nat :: !RefreshedLast(run, i)
    ensures LastWrite(run) == LastOwn(run)
  {
    if run != [] {
      var m := |run| - 1;
      assert !RefreshedLast(run, m);
      if !Writes(run[m]) {
        forall i: nat ensures !RefreshedLast(run[..m], i) {
          assert !RefreshedLast(run, i);
        }
        OwnIsLast(run[..m]);
      }
    }
  }

  // ----- No loss without a refresh in a window

  /** The worker has a failed call behind it, or a read that met the end of the file, that it has not
      finished looking at. */
  predicate Window(w: Worker) {
    (w.ReadDone? && !w.loaded) || w.ReadFlagged? || w.UploadDone? || (w.Judging? && w.spent)
  }

  /** Step `i` clears `err` in such a moment. */
  ghost predicate Hides(n: nat, run: seq<Step>, i: nat) {
    i < |run| && run[i] == MainRefreshes(true) && After(n, run[..i]).Some? && Window(After(n, run[..i]).value.worker)
  }

  /** The worker is, or is about to be, wrong about its own calls. */
  predicate Suspicious(s: State) {
    match s.worker
    case Sending(_, _, loaded) => !loaded
    case ReadDone(_, _, loaded) => !loaded && s.err.Clear?
    case ReadFlagged(_, _, _) => s.err.Clear?
    case UploadDone(_, _) => !s.receipt && s.err.Clear?
    case Judging(_, spent) => spent && s.err.Clear?
    case _ => false
  }

  /** Only a read that filled the buffer leaves io.EOF behind. */
  predicate EofIsLoaded(s: State) {
    (s.worker.ReadDone? || s.worker.ReadFlagged?) && !s.worker.loaded ==> !s.err.Eof?
  }

  lemma {:induction false} SuspicionStep(n: nat, s: State, step: Step)
    requires Next(n, s, step).Some? && EofIsLoaded(s)
    ensures EofIsLoaded(Next(n, s, step).value)
    ensures Suspicious(Next(n, s, step).value) ==> Suspicious(s) || (step == MainRefreshes(true) && Window(s.worker))
  {
  }

  lemma {:induction false} SuspicionNeedsRefresh(n: nat, run: seq<Step>)
    requires After(n, run).Some?
    ensures EofIsLoaded(After(n, run).value)
    ensures Suspicious(After(n, run).value) ==> exists i: nat :: Hides(n, run, i)
  {
    if run != [] {
      var m := |run| - 1;
      SuspicionNeedsRefresh(n, run[..m]);
      SuspicionStep(n, After(n, run[..m]).value, run[m]);
      if Suspicious(After(n, run).value) {
        if Suspicious(After(n, run[..m]).value) {
          var i: nat :| Hides(n, run[..m], i);
          assert run[..m][..i] == run[..i];
          assert Hides(n, run, i);
        } else {
          assert Hides(n, run, m);
        }
      }
    }
  }

  /** The worker is only misled after a token refresh of the main loop fell into one of the windows:
      between a failed read, upload or last attempt, or a read at the end of the file, and its look. */
  lemma {:induction false} SpoilsNeedsRefresh(n: nat, run: seq<Step>, k: nat)
    requires k < |run| && Spoils(n, run, k)
    ensures exists i: nat :: i < k && Hides(n, run, i)
  {
    SuspicionNeedsRefresh(n, run[..k]);
    var i: nat :| Hides(n, run[..k], i);
    assert run[..k][..i] == run[..i];
    assert Hides(n, run, i);
  }

  // ----- What the main loop returns

  /** `return nil, err` gives the last value anyone assigned, not the error that was received. */
  lemma {:induction false} ReturnsLastWrite(n: nat, run: seq<Step>)
    requires run != [] && run[|run| - 1] == Return && After(n, run).Some?
    ensures After(n, run).value.main == Returned(LastWrite(run).Clear?)
  {
    ErrIsLastWrite(n, run[..|run| - 1]);
  }

  /** Blocked in the send of an error on errCh. */
  predicate Waits(w: Worker) {
    w.Reporting? || w.RefreshFailed?
  }

  /** Step `i` clears `err` while the worker already waits to report. */
  ghost predicate Forgets(n: nat, run: seq<Step>, i: nat) {
    i < |run| && run[i] == MainRefreshes(true) && After(n, run[..i]).Some? && Waits(After(n, run[..i]).value.worker)
  }

  ghost predicate Forgotten(n: nat, run: seq<Step>) {
    exists i: nat :: Forgets(n, run, i)
  }

  lemma {:induction false} WaitsStep(n: nat, s: State, step: Step)
    requires Next(n, s, step).Some? && Alive(Next(n, s, step).value.main)
    ensures Waits(s.worker) ==> Next(n, s, step).value.worker == s.worker
    ensures Waits(Next(n, s, step).value.worker) && !Waits(s.worker) ==>
      !Next(n, s, step).value.err.Clear? && !step.MainRefreshes?
  {
  }

  lemma {:induction false} ForgottenSnoc(n: nat, run: seq<Step>)
    requires run != []
    ensures Forgotten(n, run) <==> Forgotten(n, run[..|run| - 1]) || Forgets(n, run, |run| - 1)
  {
    var m := |run| - 1;
    forall i: nat | i < m ensures Forgets(n, run, i) <==> Forgets(n, run[..m], i) {
      assert run[..m][..i] == run[..i];
    }
    if Forgotten(n, run[..m]) {
      var i: nat :| Forgets(n, run[..m], i);
      assert Forgets(n, run, i);
    }
  }

  /** A worker that has begun to wait waits until the main loop gives up. */
  lemma {:induction false} ForgottenWaits(n: nat, run: seq<Step>)
    requires After(n, run).Some? && Alive(After(n, run).value.main) && Forgotten(n, run)
    ensures Waits(After(n, run).value.worker)
  {
    var m := |run| - 1;
    ForgottenSnoc(n, run);
    WaitsStep(n, After(n, run[..m]).value, run[m]);
    GivenUpStep(n, After(n, run[..m]).value, run[m]);
    if Forgotten(n, run[..m]) { ForgottenWaits(n, run[..m]); }
  }

  /** While the worker waits to report, `err` is nil exactly when a refresh of the main loop succeeded
      in the meantime. */
  lemma {:induction false} WaitingErr(n: nat, run: seq<Step>)
    requires After(n, run).Some? && Alive(After(n, run).value.main) && Waits(After(n, run).value.worker)
    ensures
      var s := After(n, run).value;
      && (s.err.Clear? ==> Forgotten(n, run))
      && (Forgotten(n, run) ==> s.err.Clear? || s.main.Refreshed?)
  {
    if run != [] {
      var m := |run| - 1;
      var s := After(n, run[..m]).value;
      WaitsStep(n, s, run[m]);
      GivenUpStep(n, s, run[m]);
      ForgottenSnoc(n, run);
      WriteStep(n, s, run[m]);
      if Waits(s.worker) {
        WaitingErr(n, run[..m]);
      } else if Forgotten(n, run[..m]) {
        ForgottenWaits(n, run[..m]);
      }
    }
  }

  ghost predicate CallSince(run: seq<Step>, j: nat) {
    exists i: nat :: j < i < |run| && IsCall(run[i])
  }

  lemma {:induction false} StepAt(n: nat, run: seq<Step>, i: nat)
    requires i < |run| && After(n, run).Some?
    ensures After(n, run[..i]).Some? && After(n, run[..i + 1]).Some?
    ensures After(n, run[..i + 1]) == Next(n, After(n, run[..i]).value, run[i])
  {
    GivenUpStays(n, run, i);
    GivenUpStays(n, run, i + 1);
    assert run[..i + 1][..i] == run[..i];
  }

  /** The main loop that has received an error does not refresh the token any more. */
  lemma {:induction false} NoRefreshSince(n: nat, run: seq<Step>, j: nat, i: nat)
    requires j < i < |run| && run[j] == ReceiveError && After(n, run).Some?
    ensures !run[i].MainRefreshes?
  {
    StepAt(n, run, j);
    StepAt(n, run, i);
    GivenUpStays(n, run[..i], j + 1);
    assert run[..i][..j + 1] == run[..j + 1];
  }

  lemma {:induction false} NoWriteSince(run: seq<Step>, j: nat)
    requires j <= |run| && forall i :: j <= i < |run| ==> !Writes(run[i])
    ensures LastWrite(run) == LastWrite(run[..j])
    decreases |run|
  {
    if j < |run| {
      var m := |run| - 1;
      NoWriteSince(run[..m], j);
      assert run[..m][..j] == run[..j];
    } else {
      assert run[..j] == run;
    }
  }

  lemma {:induction false} CallIsLast(run: seq<Step>, j: nat)
    requires CallSince(run, j) && forall i :: j < i < |run| ==> !run[i].MainRefreshes?
    ensures LastWrite(run) == LastOwn(run)
  {
    var c: nat :| j < c < |run| && IsCall(run[c]);
    forall i: nat ensures !RefreshedLast(run, i) {
      assert i < c ==> Writes(run[c]);
    }
    OwnIsLast(run);
  }

  lemma {:induction false} AtReceive(n: nat, run: seq<Step>, j: nat)
    requires j < |run| && run[j] == ReceiveError && After(n, run).Some?
    ensures After(n, run[..j]).Some? && After(n, run[..j]).value.main.Looping?
    ensures Waits(After(n, run[..j]).value.worker) || After(n, run[..j]).value.worker.Panicked?
  {
    StepAt(n, run, j);
  }

  /** A run that receives an error with step `j` and then returns: the error it returns is nil exactly
      when the worker's last call since then succeeded; or, if it has called nothing since, when it had
      panicked with `err` nil, or a token refresh of the main loop succeeded while it waited to report. */
  lemma {:induction false} ReturnsNilIff(n: nat, run: seq<Step>, j: nat)
    requires After(n, run).Some? && j + 1 < |run| && run[j] == ReceiveError && run[|run| - 1] == Return
    ensures After(n, run[..j]).Some?
    ensures After(n, run).value.main.Returned?
    ensures After(n, run).value.main.nilError <==>
      if CallSince(run, j) then LastOwn(run).Clear?
      else if After(n, run[..j]).value.worker.Panicked? then LastWrite(run[..j]).Clear?
      else Forgotten(n, run[..j])
  {
    ReturnsLastWrite(n, run);
    AtReceive(n, run, j);
    forall i | j < i < |run| ensures !run[i].MainRefreshes? {
      NoRefreshSince(n, run, j, i);
    }
    if CallSince(run, j) {
      CallIsLast(run, j);
    } else {
      NoWriteSince(run, j);
      ErrIsLastWrite(n, run[..j]);
      if Waits(After(n, run[..j]).value.worker) {
        WaitingErr(n, run[..j]);
      }
    }
  }

  // ----- Runs that exist

  lemma {:induction false} Then(n: nat, run: seq<Step>, s: State, step: Step, s': State)
    requires After(n, run) == Some(s) && Next(n, s, step) == Some(s')
    ensures After(n, run + [step]) == Some(s')
  {
    assert (run + [step])[..|run|] == run;
  }

  lemma {:induction false} ThenThree(n: nat, run: seq<Step>, s: State, a: Step, s1: State, b: Step, s2: State,
                                     c: Step, s3: State)
    requires After(n, run) == Some(s)
    requires Next(n, s, a) == Some(s1) && Next(n, s1, b) == Some(s2) && Next(n, s2, c) == Some(s3)
    ensures After(n, run + [a, b, c]) == Some(s3)
  {
    Then(n, run, s, a, s1);
    Then(n, run + [a], s1, b, s2);
    Then(n, run + [a] + [b], s2, c, s3);
    assert run + [a] + [b] + [c] == run + [a, b, c];
  }

  /** The state between chunks when the first `k` chunks went through smoothly. */
  function Smooth(n: nat, k: nat): State {
    State(k, Ready, if k == 0 then Zero else Uploaded(k, true), Clear, Idle, Receipts(k), n - k, Waiting, Looping,
          Clear, k > 0, {}, false)
  }

  /** Chunk `k` with its buffer read at the first attempt. */
  lemma {:induction false} SmoothRead(n: nat, k: nat, before: seq<Step>) returns (run: seq<Step>)
    requires 0 < k <= n && After(n, before) == Some(Smooth(n, k - 1))
    ensures After(n, run)
         == Some(Smooth(n, k - 1).(handed := k, worker := Sending(k, 0, true), part := Zero, receipt := false))
  {
    var s := Smooth(n, k - 1);
    var s1 := s.(handed := k, worker := Trying(k, 0), part := Zero, receipt := false);
    var s2 := s1.(worker := ReadDone(k, 0, true));
    ThenThree(n, before, s, Hand, s1, Read(Whole), s2, TestRead, s1.(worker := Sending(k, 0, true)));
    run := before + [Hand, Read(Whole), TestRead];
  }

  lemma {:induction false} SmoothUpload(n: nat, k: nat, before: seq<Step>) returns (run: seq<Step>)
    requires 0 < k <= n && After(n, before) == Some(Smooth(n, k - 1))
    ensures After(n, run)
         == Some(Smooth(n, k - 1).(handed := k, worker := Delivering(k), part := Uploaded(k, true), receipt := true))
  {
    run := SmoothRead(n, k, before);
    var s := Smooth(n, k - 1).(handed := k, worker := Sending(k, 0, true), part := Zero, receipt := false);
    var s1 := s.(worker := UploadDone(k, 0), part := Uploaded(k, true), receipt := true);
    ThenThree(n, run, s, Upload(true), s1, TestUpload, s1.(worker := Judging(k, false)),
              Judge, s1.(worker := Delivering(k)));
    run := run + [Upload(true), TestUpload, Judge];
  }

  /** Part delivered, received, appended and counted. */
  lemma {:induction false} Collects(n: nat, before: seq<Step>, s: State) returns (run: seq<Step>)
    requires After(n, before) == Some(s) && s.worker.Delivering? && s.collector.Idle?
    ensures After(n, run) == Some(s.(worker := Ready, parts := s.parts + [s.part], wg := s.wg - 1))
  {
    var s1 := s.(worker := Ready, collector := Holding(s.part));
    var s2 := s1.(collector := Noting, parts := s.parts + [s.part]);
    ThenThree(n, before, s, ReceivePart, s1, Append, s2, Done, s2.(collector := Idle, wg := s.wg - 1));
    run := before + [ReceivePart, Append, Done];
  }

  lemma {:induction false} SmoothStep(n: nat, k: nat, before: seq<Step>) returns (run: seq<Step>)
    requires 0 < k <= n && After(n, before) == Some(Smooth(n, k - 1))
    ensures After(n, run) == Some(Smooth(n, k))
  {
    run := SmoothUpload(n, k, before);
    var s := Smooth(n, k - 1).(handed := k, worker := Delivering(k), part := Uploaded(k, true), receipt := true);
    run := Collects(n, run, s);
    assert Receipts(k) == Receipts(k - 1) + [Uploaded(k, true)];
  }

  lemma {:induction false} SmoothRun(n: nat, k: nat) returns (run: seq<Step>)
    requires k <= n
    ensures After(n, run) == Some(Smooth(n, k))
  {
    if k == 0 {
      run := [];
    } else {
      var before := SmoothRun(n, k - 1);
      run := SmoothStep(n, k, before);
    }
  }

  lemma {:induction false} QuitSteps(n: nat, s: State)
    requires s.wg == 0 && s.waiter.Waiting? && s.main.Looping?
    ensures Next(n, s, WaitOver) == Some(s.(waiter := Offering))
    ensures Next(n, s.(waiter := Offering), Quit) == Some(s.(waiter := Gone, main := Completing))
  {
  }

  lemma {:induction false} Quits(n: nat, before: seq<Step>, s: State) returns (run: seq<Step>)
    requires After(n, before) == Some(s) && s.wg == 0 && s.waiter.Waiting? && s.main.Looping?
    ensures After(n, run) == Some(s.(waiter := Gone, main := Completing))
  {
    QuitSteps(n, s);
    Then(n, before, s, WaitOver, s.(waiter := Offering));
    Then(n, before + [WaitOver], s.(waiter := Offering), Quit, s.(waiter := Gone, main := Completing));
    run := before + [WaitOver] + [Quit];
  }

  /** For every number of chunks some interleaving completes with all receipts. */
  lemma {:induction false} CanComplete(n: nat) returns (run: seq<Step>)
    ensures After(n, run).Some? && After(n, run).value.main.Completing? && After(n, run).value.parts == Receipts(n)
  {
    run := SmoothRun(n, n);
    run := Quits(n, run, Smooth(n, n));
  }

  /** A single chunk that is delivered as `part` ends up alone in the list. */
  lemma {:induction false} CompletesAs(before: seq<Step>, s: State) returns (run: seq<Step>)
    requires After(1, before) == Some(s) && s.worker.Delivering? && s.collector.Idle? && s.parts == [] && s.wg == 1
    requires s.waiter.Waiting? && s.main.Looping?
    ensures After(1, run).Some? && After(1, run).value.main.Completing? && After(1, run).value.parts == [s.part]
  {
    run := Collects(1, before, s);
    run := Quits(1, run, After(1, run).value);
  }

  /** With `err` nil, the worker takes the chunk for uploaded. */
  lemma {:induction false} PassesFor(before: seq<Step>, s: State) returns (run: seq<Step>)
    requires After(1, before) == Some(s) && s.worker == UploadDone(1, 0) && s.err.Clear? && s.main.Refreshed?
        && !s.receipt
    ensures After(1, run) == Some(s.(worker := Delivering(1), lost := s.lost + {1}, main := Looping))
  {
    var s1 := s.(worker := Judging(1, false), lost := s.lost + {1});
    var s2 := s1.(worker := Delivering(1));
    ThenThree(1, before, s, TestUpload, s1, Judge, s2, TestToken, s2.(main := Looping));
    run := before + [TestUpload, Judge, TestToken];
  }

  /** The first attempt, with the outcome of its read. */
  function FirstRead(load: Load): State {
    Start(1).(handed := 1, worker := ReadDone(1, 0, !load.Broken?), err := ErrOfLoad(load), own := ErrOfLoad(load))
  }

  lemma {:induction false} Reads(load: Load)
    ensures After(1, [Hand, Read(load)]) == Some(FirstRead(load))
  {
    var s1 := Start(1).(handed := 1, worker := Trying(1, 0));
    assert After(1, []) == Some(Start(1));
    Then(1, [], Start(1), Hand, s1);
    assert [] + [Hand] == [Hand];
    Then(1, [Hand], s1, Read(load), FirstRead(load));
    assert [Hand] + [Read(load)] == [Hand, Read(load)];
  }

  /** `err` being shared, a chunk whose only upload failed can be completed as a zero part: the main
      loop refreshes the token between the failure and the worker's look at it. */
  lemma {:induction false} CanCompleteWithLoss() returns (run: seq<Step>)
    ensures After(1, run).Some? && After(1, run).value.main.Completing? && After(1, run).value.parts == [Zero]
  {
    Reads(Whole);
    var s1 := FirstRead(Whole).(worker := Sending(1, 0, true));
    var s2 := s1.(worker := UploadDone(1, 0), err := Bad, own := Bad);
    var s3 := s2.(err := Clear, main := Refreshed);
    ThenThree(1, [Hand, Read(Whole)], FirstRead(Whole), TestRead, s1, Upload(false), s2, MainRefreshes(true), s3);
    run := PassesFor([Hand, Read(Whole)] + [TestRead, Upload(false), MainRefreshes(true)], s3);
    run := CompletesAs(run, After(1, run).value);
  }

  /** Likewise a chunk that could not be read: its buffer is sent as it is. */
  lemma {:induction false} CanCompleteUnread() returns (run: seq<Step>)
    ensures After(1, run).Some? && After(1, run).value.main.Completing?
    ensures After(1, run).value.parts == [Uploaded(1, false)]
  {
    Reads(Broken);
    var s1 := FirstRead(Broken).(err := Clear, main := Refreshed);
    var s2 := s1.(worker := Sending(1, 0, false));
    var s3 := s2.(worker := UploadDone(1, 0), own := Clear, part := Uploaded(1, false));
    ThenThree(1, [Hand, Read(Broken)], FirstRead(Broken), MainRefreshes(true), s1, TestRead, s2, Upload(true), s3);
    run := PassesFor([Hand, Read(Broken)] + [MainRefreshes(true), TestRead, Upload(true)], s3);
    run := CompletesAs(run, After(1, run).value);
  }

  /** A panic of the worker is reported and returned as no error at all, without any refresh. */
  lemma {:induction false} CanReturnNil() returns (run: seq<Step>)
    ensures After(1, run).Some? && After(1, run).value.reported && After(1, run).value.main == Returned(true)
    ensures forall i :: 0 <= i < |run| ==> !run[i].MainRefreshes?
  {
    Reads(Whole);
    var s1 := FirstRead(Whole).(worker := Panicked);
    var s2 := s1.(worker := Dead, main := Failing, reported := true);
    ThenThree(1, [Hand, Read(Whole)], FirstRead(Whole), Panic, s1, ReceiveError, s2, Return,
        s2.(main := Returned(true)));
    run := [Hand, Read(Whole)] + [Panic, ReceiveError, Return];
  }
}
