/** The 189 cloud PC driver's `fastUpload` across cancelled and resumed calls: upload sessions on the
    server, the process-wide progress cache, and any number of concurrent calls for one file, each
    with its own errgroup. Every step is one atomic action. */
module ResumeUpload {
  import opened Common
  import opened Slicing

  // ----- Slices of the file

  datatype Range = Range(offset: nat, length: nat)

  /** The byte range sent for part number `n`. */
  function PartRange(size: nat, slice: nat, n: nat): Range
    requires slice > 0 && n >= 1
  {
    Range((n - 1) * slice, if n == SliceCount(size, slice) then LastSize(size, slice) else slice)
  }

  /** What an `io.SectionReader` over the cached file delivers. */
  function Section<T>(data: seq<T>, r: Range): seq<T> {
    if r.offset >= |data| then []
    else if r.offset + r.length <= |data| then data[r.offset..r.offset + r.length]
    else data[r.offset..]
  }

  /** The bytes sent for part `n` are block `n - 1` of the file. */
  lemma {:induction false} PartIsBlock<T>(data: seq<T>, slice: nat, n: nat)
    requires slice > 0 && 1 <= n <= SliceCount(|data|, slice)
    ensures n <= |Blocks(data, slice)|
    ensures Section(data, PartRange(|data|, slice, n)) == Blocks(data, slice)[n - 1]
  {
    BlockCount(data, slice);
    var k := (n - 1) * slice;
    BlockAt(data, slice, n - 1, k);
    if n == SliceCount(|data|, slice) && |data| > 0 {
      LastFits(|data|, slice);
      assert data[k..|data|] == data[k..];
    }
  }

  // ----- The system

  /** One upload id on the server: the parts it has, whether it had the file data from the start
      (`fileDataExists`), and whether the upload was committed. */
  datatype Session = Session(sent: map<nat, Range>, hasData: bool, committed: bool)

  datatype Cause = Canceled | Failed

  datatype Phase = Launching | Waiting | Passed | Ended

  /** A call of `fastUpload` past the hashing: its upload id, its part list (None where the entry was
      cleared), the next list index to launch, the running tasks by list index, and the cause with
      which its context was cancelled. */
  datatype Call = Call(uid: nat, list: seq<Option<nat>>, next: nat, flying: set<nat>, cause: Option<Cause>,
                       phase: Phase)

  /** An entry of the progress cache. */
  datatype Saved = Saved(uid: nat, parts: seq<nat>)

  datatype World = World(sessions: map<nat, Session>, cache: Option<Saved>, calls: map<nat, Call>)

  const NOTHING := World(map[], None, map[])

  /** Part numbers 1..k, the fresh list. */
  function FreshList(k: nat): (l: seq<Option<nat>>)
    ensures |l| == k && forall i :: 0 <= i < k ==> l[i] == Some(i + 1)
  {
    if k == 0 then [] else FreshList(k - 1) + [Some(k)]
  }

  function Relist(parts: seq<nat>): (l: seq<Option<nat>>)
    ensures |l| == |parts| && forall i :: 0 <= i < |parts| ==> l[i] == Some(parts[i])
  {
    if parts == [] then [] else Relist(parts[..|parts| - 1]) + [Some(parts[|parts| - 1])]
  }

  /** `utils.SliceFilter` with the entries that were not cleared. */
  function Remaining(l: seq<Option<nat>>): seq<nat> {
    if l == [] then []
    else
      var n := |l| - 1;
      Remaining(l[..n]) + if l[n].Some? then [l[n].value] else []
  }

  /** What a call does by itself. */
  datatype Act =
    | Launch           // threadG.Go starts a task for the next entry
    | Skip             // threadG.Go finds the context done and starts none
    | Break            // the loop finds the context cancelled
    | AllLaunched      // the loop is over
    | Stored(i: nat)   // the server stores the part of a running task
    | Cleared(i: nat)  // a task sees the success of its upload and clears its entry
    | Failing(i: nat)  // a task gives up with an error
    | Cancel           // the caller's context is cancelled

  datatype Step =
    | Begin(id: nat, uid: nat, hasData: bool) | Resume(id: nat) | Expire
    | Do(id: nat, act: Act) | Wait(id: nat) | Commit(id: nat)

  /** The call after one of its own actions; None where the action is not enabled. */
  function Acted(c: Call, a: Act, stored: bool): Option<Call> {
    match a
    case Launch =>
      if c.phase.Launching? && c.next < |c.list|
      then Some(c.(flying := c.flying + {c.next}, next := c.next + 1)) else None
    case Skip =>
      if c.phase.Launching? && c.next < |c.list| && c.cause.Some? then Some(c.(next := c.next + 1)) else None
    case Break => if c.phase.Launching? && c.cause.Some? then Some(c.(phase := Waiting)) else None
    case AllLaunched => if c.phase.Launching? && c.next == |c.list| then Some(c.(phase := Waiting)) else None
    case Stored(i) => if i in c.flying then Some(c) else None
    case Cleared(i) =>
      if i in c.flying && i < |c.list| && stored
      then Some(c.(list := c.list[i := None], flying := c.flying - {i})) else None
    case Failing(i) =>
      if i in c.flying
      then Some(c.(flying := c.flying - {i}, cause := if c.cause.None? then Some(Failed) else c.cause)) else None
    case Cancel => Some(c.(cause := if c.cause.None? then Some(Canceled) else c.cause))
  }

  /** The part number a running task works on; the server answers for the part it is asked about. */
  predicate Working(c: Call, i: nat) {
    i < |c.list| && c.list[i].Some? && c.list[i].value >= 1
  }

  /** The session after an action of a call: `y.put` sends the range of the part number. */
  function Served(size: nat, slice: nat, c: Call, s: Session, a: Act): Session
    requires slice > 0
  {
    if a.Stored? && Working(c, a.i)
    then s.(sent := s.sent[c.list[a.i].value := PartRange(size, slice, c.list[a.i].value)]) else s
  }

  predicate HasStored(c: Call, s: Session, a: Act) {
    a.Cleared? && Working(c, a.i) && c.list[a.i].value in s.sent
  }

  function Next(size: nat, slice: nat, w: World, step: Step): Option<World>
    requires slice > 0
  {
    match step
    case Begin(id, uid, hasData) =>
      if id in w.calls || uid in w.sessions || w.cache.Some? then None
      else
        var c := Call(uid, FreshList(SliceCount(size, slice)), 0, {}, None, if hasData then Passed else Launching);
        Some(w.(sessions := w.sessions[uid := Session(map[], hasData, false)], calls := w.calls[id := c]))
    case Resume(id) =>
      if id in w.calls || w.cache.None? then None
      else
        var c := Call(w.cache.value.uid, Relist(w.cache.value.parts), 0, {}, None, Launching);
        Some(w.(cache := None, calls := w.calls[id := c]))
    case Expire => Some(w.(cache := None))
    case Do(id, a) =>
      if id !in w.calls || w.calls[id].uid !in w.sessions then None
      else
        var c := w.calls[id];
        var s := w.sessions[c.uid];
        var c' := Acted(c, a, HasStored(c, s, a));
        if c'.None? then None
        else Some(w.(sessions := w.sessions[c.uid := Served(size, slice, c, s, a)], calls := w.calls[id := c'.value]))
    case Wait(id) =>
      if id !in w.calls || !w.calls[id].phase.Waiting? || w.calls[id].flying != {} then None
      else
        var c := w.calls[id];
        if c.cause.None? then Some(w.(calls := w.calls[id := c.(phase := Passed)]))
        else
          var cache := if c.cause.value.Canceled? then Some(Saved(c.uid, Remaining(c.list))) else w.cache;
          Some(w.(cache := cache, calls := w.calls[id := c.(phase := Ended)]))
    case Commit(id) =>
      if id !in w.calls || !w.calls[id].phase.Passed? || w.calls[id].uid !in w.sessions then None
      else
        var c := w.calls[id];
        Some(w.(sessions := w.sessions[c.uid := w.sessions[c.uid].(committed := true)],
                calls := w.calls[id := c.(phase := Ended)]))
  }

  /** The world after a whole history; None when one of its steps is not enabled. */
  function After(size: nat, slice: nat, run: seq<Step>): Option<World>
    requires slice > 0
  {
    if run == [] then Some(NOTHING)
    else
      var before := After(size, slice, run[..|run| - 1]);
      if before.None? then None else Next(size, slice, before.value, run[|run| - 1])
  }

  // ----- The invariant

  ghost predicate AllSent(size: nat, slice: nat, s: Session)
    requires slice > 0
  {
    forall n :: 1 <= n <= SliceCount(size, slice) ==> n in s.sent
  }

  ghost predicate SessionOk(size: nat, slice: nat, s: Session)
    requires slice > 0
  {
    && (forall n :: n in s.sent ==> n >= 1 && s.sent[n] == PartRange(size, slice, n))
    && (s.committed ==> s.hasData || AllSent(size, slice, s))
  }

  /** Every part is on the server or still on the list. */
  ghost predicate Covered(size: nat, slice: nat, l: seq<Option<nat>>, s: Session)
    requires slice > 0
  {
    forall n :: 1 <= n <= SliceCount(size, slice) ==> n in s.sent || Some(n) in l
  }

  /** Every running or unstarted task has its entry; while the context is alive, every finished one
      has cleared it. */
  ghost predicate Bookkeeping(c: Call) {
    && c.next <= |c.list|
    && (forall i :: i in c.flying ==> i < c.next && c.list[i].Some?)
    && (forall i :: 0 <= i < |c.list| && c.list[i].Some? ==> c.list[i].value >= 1)
    && (c.cause.None? ==> forall i :: 0 <= i < c.next && i !in c.flying ==> c.list[i].None?)
    && (c.cause.None? && c.phase.Waiting? ==> c.next == |c.list|)
    && (forall i :: c.next <= i < |c.list| ==> c.list[i].Some?)
  }

  ghost predicate CallOk(size: nat, slice: nat, c: Call, s: Session)
    requires slice > 0
  {
    && Bookkeeping(c)
    && Covered(size, slice, c.list, s)
    && (c.phase.Passed? ==> s.hasData || AllSent(size, slice, s))
  }

  ghost predicate Inv(size: nat, slice: nat, w: World)
    requires slice > 0
  {
    && (forall u :: u in w.sessions ==> SessionOk(size, slice, w.sessions[u]))
    && (forall id :: id in w.calls ==>
          w.calls[id].uid in w.sessions && CallOk(size, slice, w.calls[id], w.sessions[w.calls[id].uid]))
    && (w.cache.Some? ==>
          && w.cache.value.uid in w.sessions
          && (forall i :: 0 <= i < |w.cache.value.parts| ==> w.cache.value.parts[i] >= 1)
          && Covered(size, slice, Relist(w.cache.value.parts), w.sessions[w.cache.value.uid]))
  }

  lemma {:induction false} ActedOk(size: nat, slice: nat, c: Call, s: Session, a: Act)
    requires slice > 0 && CallOk(size, slice, c, s) && SessionOk(size, slice, s)
    requires Acted(c, a, HasStored(c, s, a)).Some?
    ensures CallOk(size, slice, Acted(c, a, HasStored(c, s, a)).value, Served(size, slice, c, s, a))
    ensures SessionOk(size, slice, Served(size, slice, c, s, a))
    ensures Grows(s, Served(size, slice, c, s, a))
  {
    if a.Cleared? {
      var c' := Acted(c, a, HasStored(c, s, a)).value;
      forall n | 1 <= n <= SliceCount(size, slice)
        ensures n in s.sent || Some(n) in c'.list
      {
        if n !in s.sent {
          var j :| 0 <= j < |c.list| && c.list[j] == Some(n);
          assert c'.list[j] == Some(n);
        }
      }
    }
  }

  /** A session only gains parts. */
  ghost predicate Grows(s: Session, s': Session) {
    s.hasData == s'.hasData && (s.committed ==> s'.committed) && forall n :: n in s.sent ==> n in s'.sent
  }

  lemma {:induction false} StaysOk(size: nat, slice: nat, c: Call, s: Session, s': Session)
    requires slice > 0 && CallOk(size, slice, c, s) && Grows(s, s')
    ensures CallOk(size, slice, c, s')
  {
  }

  lemma {:induction false} RemainingMember(l: seq<Option<nat>>, n: nat)
    ensures n in Remaining(l) <==> Some(n) in l
  {
    if l != [] {
      var m := |l| - 1;
      RemainingMember(l[..m], n);
      assert l == l[..m] + [l[m]];
    }
  }

  /** Filtering the cleared entries out of the list loses no part. */
  lemma {:induction false} SavedCovers(size: nat, slice: nat, l: seq<Option<nat>>, s: Session)
    requires slice > 0 && Covered(size, slice, l, s)
    requires forall i :: 0 <= i < |l| && l[i].Some? ==> l[i].value >= 1
    ensures Covered(size, slice, Relist(Remaining(l)), s)
    ensures forall i :: 0 <= i < |Remaining(l)| ==> Remaining(l)[i] >= 1
  {
    forall n | 1 <= n <= SliceCount(size, slice) && n !in s.sent
      ensures Some(n) in Relist(Remaining(l))
    {
      RemainingMember(l, n);
      var i :| 0 <= i < |Remaining(l)| && Remaining(l)[i] == n;
      assert Relist(Remaining(l))[i] == Some(n);
    }
    forall i | 0 <= i < |Remaining(l)|
      ensures Remaining(l)[i] >= 1
    {
      RemainingMember(l, Remaining(l)[i]);
    }
  }

  /** Replacing one session by a grown one keeps everything else. */
  lemma {:induction false} SessionReplaced(size: nat, slice: nat, w: World, u: nat, s': Session)
    requires slice > 0 && Inv(size, slice, w) && u in w.sessions
    requires SessionOk(size, slice, s') && Grows(w.sessions[u], s')
    ensures Inv(size, slice, w.(sessions := w.sessions[u := s']))
  {
    forall id | id in w.calls
      ensures CallOk(size, slice, w.calls[id], w.sessions[u := s'][w.calls[id].uid])
    {
      if w.calls[id].uid == u {
        StaysOk(size, slice, w.calls[id], w.sessions[u], s');
      }
    }
  }

  lemma {:induction false} CallReplaced(size: nat, slice: nat, w: World, id: nat, c: Call)
    requires slice > 0 && Inv(size, slice, w) && c.uid in w.sessions && CallOk(size, slice, c, w.sessions[c.uid])
    ensures Inv(size, slice, w.(calls := w.calls[id := c]))
  {
  }

  lemma {:induction false} DoKeeps(size: nat, slice: nat, w: World, id: nat, a: Act)
    requires slice > 0 && Inv(size, slice, w) && Next(size, slice, w, Do(id, a)).Some?
    ensures Inv(size, slice, Next(size, slice, w, Do(id, a)).value)
  {
    var c := w.calls[id];
    var s := w.sessions[c.uid];
    var s' := Served(size, slice, c, s, a);
    ActedOk(size, slice, c, s, a);
    SessionReplaced(size, slice, w, c.uid, s');
    CallReplaced(size, slice, w.(sessions := w.sessions[c.uid := s']), id, Acted(c, a, HasStored(c, s, a)).value);
  }

  lemma {:induction false} BeginKeeps(size: nat, slice: nat, w: World, id: nat, uid: nat, hasData: bool)
    requires slice > 0 && Inv(size, slice, w) && Next(size, slice, w, Begin(id, uid, hasData)).Some?
    ensures Inv(size, slice, Next(size, slice, w, Begin(id, uid, hasData)).value)
  {
    var l := FreshList(SliceCount(size, slice));
    forall n | 1 <= n <= SliceCount(size, slice)
      ensures Some(n) in l
    {
      assert l[n - 1] == Some(n);
    }
    var w' := w.(sessions := w.sessions[uid := Session(map[], hasData, false)]);
    assert Inv(size, slice, w');
    CallReplaced(size, slice, w', id, Call(uid, l, 0, {}, None, if hasData then Passed else Launching));
  }

  lemma {:induction false} ResumeKeeps(size: nat, slice: nat, w: World, id: nat)
    requires slice > 0 && Inv(size, slice, w) && Next(size, slice, w, Resume(id)).Some?
    ensures Inv(size, slice, Next(size, slice, w, Resume(id)).value)
  {
    CallReplaced(size, slice, w.(cache := None), id,
                 Call(w.cache.value.uid, Relist(w.cache.value.parts), 0, {}, None, Launching));
  }

  lemma {:induction false} WaitKeeps(size: nat, slice: nat, w: World, id: nat)
    requires slice > 0 && Inv(size, slice, w) && Next(size, slice, w, Wait(id)).Some?
    ensures Inv(size, slice, Next(size, slice, w, Wait(id)).value)
  {
    var c := w.calls[id];
    if c.cause.None? {
      assert forall n :: Some(n) !in c.list;
      CallReplaced(size, slice, w, id, c.(phase := Passed));
    } else {
      SavedCovers(size, slice, c.list, w.sessions[c.uid]);
      var w' := w.(cache := if c.cause.value.Canceled? then Some(Saved(c.uid, Remaining(c.list))) else w.cache);
      assert Inv(size, slice, w');
      CallReplaced(size, slice, w', id, c.(phase := Ended));
    }
  }

  lemma {:induction false} CommitKeeps(size: nat, slice: nat, w: World, id: nat)
    requires slice > 0 && Inv(size, slice, w) && Next(size, slice, w, Commit(id)).Some?
    ensures Inv(size, slice, Next(size, slice, w, Commit(id)).value)
  {
    var c := w.calls[id];
    var s' := w.sessions[c.uid].(committed := true);
    SessionReplaced(size, slice, w, c.uid, s');
    CallReplaced(size, slice, w.(sessions := w.sessions[c.uid := s']), id, c.(phase := Ended));
  }

  lemma {:induction false} HistoryKeeps(size: nat, slice: nat, run: seq<Step>)
    requires slice > 0 && After(size, slice, run).Some?
    ensures Inv(size, slice, After(size, slice, run).value)
  {
    if run != [] {
      var m := |run| - 1;
      HistoryKeeps(size, slice, run[..m]);
      var w := After(size, slice, run[..m]).value;
      match run[m]
      case Begin(id, uid, hasData) => BeginKeeps(size, slice, w, id, uid, hasData);
      case Resume(id) => ResumeKeeps(size, slice, w, id);
      case Expire =>
      case Do(id, a) => DoKeeps(size, slice, w, id, a);
      case Wait(id) => WaitKeeps(size, slice, w, id);
      case Commit(id) => CommitKeeps(size, slice, w, id);
    }
  }

  // ----- What a commit means

  /** The contents the server puts together from parts 1..k of a session. */
  function Received<T>(data: seq<T>, sent: map<nat, Range>, k: nat): seq<T>
    requires forall n :: 1 <= n <= k ==> n in sent
  {
    if k == 0 then [] else Received(data, sent, k - 1) + Section(data, sent[k])
  }

  lemma {:induction false} ReceivedBlocks<T>(data: seq<T>, slice: nat, sent: map<nat, Range>, k: nat)
    requires slice > 0 && k <= SliceCount(|data|, slice)
    requires forall n :: 1 <= n <= k ==> n in sent && sent[n] == PartRange(|data|, slice, n)
    ensures k <= |Blocks(data, slice)| && Received(data, sent, k) == Flatten(Blocks(data, slice)[..k])
  {
    BlockCount(data, slice);
    if k > 0 {
      ReceivedBlocks(data, slice, sent, k - 1);
      PartIsBlock(data, slice, k);
      FlattenSnoc(Blocks(data, slice), k - 1);
    }
  }

  /** Over every history of calls, cancellations, failures, resumptions and expiries: a committed
      upload is one whose data the server already had, or one that received every part, and then
      the parts put together are the file. */
  lemma {:induction false} CommittedIsWhole<T>(data: seq<T>, slice: nat, run: seq<Step>, uid: nat)
    requires slice > 0 && After(|data|, slice, run).Some?
    requires uid in After(|data|, slice, run).value.sessions
    requires After(|data|, slice, run).value.sessions[uid].committed
    ensures
      var s := After(|data|, slice, run).value.sessions[uid];
      s.hasData || (AllSent(|data|, slice, s) && Received(data, s.sent, SliceCount(|data|, slice)) == data)
  {
    HistoryKeeps(|data|, slice, run);
    var s := After(|data|, slice, run).value.sessions[uid];
    if !s.hasData {
      var c := SliceCount(|data|, slice);
      ReceivedBlocks(data, slice, s.sent, c);
      BlockCount(data, slice);
      assert Blocks(data, slice)[..c] == Blocks(data, slice);
      FlattenBlocks(data, slice);
    }
  }

  /** Over every history: each part sent carries the range of its own number, and every part is on
      the server or on the list of a call or of the saved progress for its upload id. */
  lemma {:induction false} HistoryCovers(size: nat, slice: nat, run: seq<Step>)
    requires slice > 0 && After(size, slice, run).Some?
    ensures
      var w := After(size, slice, run).value;
      && (forall u, n :: u in w.sessions && n in w.sessions[u].sent ==>
            n >= 1 && w.sessions[u].sent[n] == PartRange(size, slice, n))
      && (forall id :: id in w.calls ==>
            w.calls[id].uid in w.sessions && Covered(size, slice, w.calls[id].list, w.sessions[w.calls[id].uid]))
      && (w.cache.Some? ==>
            && w.cache.value.uid in w.sessions
            && Covered(size, slice, Relist(w.cache.value.parts), w.sessions[w.cache.value.uid]))
  {
    HistoryKeeps(size, slice, run);
  }

  // ----- A history with an interruption

  lemma {:induction false} Extend(size: nat, slice: nat, run: seq<Step>, step: Step)
    requires slice > 0 && After(size, slice, run).Some?
    ensures After(size, slice, run + [step]) == Next(size, slice, After(size, slice, run).value, step)
  {
    assert (run + [step])[..|run|] == run;
  }

  const ONE_SENT := Session(map[1 := Range(0, 1)], false, false)
  const BOTH_SENT := Session(map[1 := Range(0, 1), 2 := Range(1, 1)], false, false)
  const FIRST_CALL := Call(7, [Some(1), Some(2)], 1, {0}, None, Launching)
  const CUT_SHORT := Call(7, [None, Some(2)], 1, {}, Some(Canceled), Ended)
  const SECOND_CALL := Call(7, [None], 1, {}, None, Launching)

  /** A file of two slices: the first call has sent part 1. */
  lemma {:induction false} SendsFirst() returns (run: seq<Step>)
    ensures After(2, 1, run) == Some(World(map[7 := ONE_SENT], None, map[0 := FIRST_CALL]))
  {
    assert FreshList(2) == [Some(1), Some(2)];
    Extend(2, 1, [], Begin(0, 7, false));
    run := [Begin(0, 7, false)];
    assert [] + run == run;
    Extend(2, 1, run, Do(0, Launch));
    run := run + [Do(0, Launch)];
    Extend(2, 1, run, Do(0, Stored(0)));
    run := run + [Do(0, Stored(0))];
    var w := After(2, 1, run).value;
    assert SliceCount(2, 1) == 2 && w.calls[0].flying == {0} && w.calls[0] == FIRST_CALL;
    assert w.sessions == map[7 := ONE_SENT] && w.calls == map[0 := FIRST_CALL];
  }

  /** It is cancelled ... */
  lemma {:induction false} IsCancelled() returns (run: seq<Step>)
    ensures After(2, 1, run)
         == Some(World(map[7 := ONE_SENT], None, map[0 := CUT_SHORT.(phase := Launching)]))
  {
    run := SendsFirst();
    Extend(2, 1, run, Do(0, Cleared(0)));
    run := run + [Do(0, Cleared(0))];
    Extend(2, 1, run, Do(0, Cancel));
    run := run + [Do(0, Cancel)];
    var w := After(2, 1, run).value;
    assert w.calls[0].list == [None, Some(2)] && w.calls[0].flying == {};
    assert w.sessions == map[7 := ONE_SENT] && w.calls == map[0 := CUT_SHORT.(phase := Launching)];
  }

  /** ... and leaves part 2 in the progress cache. */
  lemma {:induction false} SavesRest() returns (run: seq<Step>)
    ensures After(2, 1, run) == Some(World(map[7 := ONE_SENT], Some(Saved(7, [2])), map[0 := CUT_SHORT]))
  {
    run := IsCancelled();
    Extend(2, 1, run, Do(0, Break));
    run := run + [Do(0, Break)];
    Extend(2, 1, run, Wait(0));
    run := run + [Wait(0)];
    assert Remaining([None, Some(2)]) == [2];
    var w := After(2, 1, run).value;
    assert w.sessions == map[7 := ONE_SENT] && w.calls == map[0 := CUT_SHORT];
  }

  /** The next call takes the saved list up ... */
  lemma {:induction false} TakesUp() returns (run: seq<Step>)
    ensures After(2, 1, run)
         == Some(World(map[7 := ONE_SENT], None,
                       map[0 := CUT_SHORT, 1 := SECOND_CALL.(list := [Some(2)], flying := {0})]))
  {
    run := SavesRest();
    assert Relist([2]) == [Some(2)];
    Extend(2, 1, run, Resume(1));
    run := run + [Resume(1)];
    Extend(2, 1, run, Do(1, Launch));
    run := run + [Do(1, Launch)];
    var w := After(2, 1, run).value;
    assert w.calls[1].flying == {0};
    assert w.sessions == map[7 := ONE_SENT];
    assert w.calls == map[0 := CUT_SHORT, 1 := SECOND_CALL.(list := [Some(2)], flying := {0})];
  }

  /** ... and sends part 2 with the range of part 2. */
  lemma {:induction false} SendsRest() returns (run: seq<Step>)
    ensures After(2, 1, run) == Some(World(map[7 := BOTH_SENT], None, map[0 := CUT_SHORT, 1 := SECOND_CALL]))
  {
    run := TakesUp();
    Extend(2, 1, run, Do(1, Stored(0)));
    run := run + [Do(1, Stored(0))];
    Extend(2, 1, run, Do(1, Cleared(0)));
    run := run + [Do(1, Cleared(0))];
    var w := After(2, 1, run).value;
    assert w.calls[1].list == [None] && w.calls[1].flying == {};
    assert w.sessions[7].sent == BOTH_SENT.sent;
    assert w.sessions == map[7 := BOTH_SENT] && w.calls == map[0 := CUT_SHORT, 1 := SECOND_CALL];
  }

  /** So an interrupted upload can be resumed and committed. */
  lemma {:induction false} CanResume() returns (run: seq<Step>)
    ensures After(2, 1, run).Some? && 7 in After(2, 1, run).value.sessions
    ensures After(2, 1, run).value.sessions[7] == BOTH_SENT.(committed := true)
  {
    run := SendsRest();
    Extend(2, 1, run, Do(1, AllLaunched));
    run := run + [Do(1, AllLaunched)];
    Extend(2, 1, run, Wait(1));
    run := run + [Wait(1)];
    Extend(2, 1, run, Commit(1));
    run := run + [Commit(1)];
  }
}
