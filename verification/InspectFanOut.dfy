/** The bounded inspect fan-out as interleaved steps: one worker per container, a
    semaphore of N tokens, and a deadline that may strike at any moment. */
module InspectFanOut {
  import opened Collect

  /** What inspecting one container came to. */
  datatype Result = Skipped | Failed | Filled(data: Container)

  datatype Worker =
    | Waiting                    // in the select on token or deadline
    | Holding                    // has a token, inspect in flight
    | Releasing(result: Result)  // slot written, token not yet returned
    | Finished(result: Result)

  datatype State = State(held: nat, expired: bool, workers: seq<Worker>, slots: seq<Container>)

  datatype Action =
    | Acquire(i: nat)
    | GiveUp(i: nat)
    | Inspect(i: nat, result: Result)
    | Release(i: nat)
    | Expire

  predicate Start(s: State, init: seq<Container>) {
    && s.held == 0 && !s.expired && s.slots == init
    && |s.workers| == |init| && forall i :: 0 <= i < |init| ==> s.workers[i] == Waiting
  }

  /** An inspect that failed leaves the slot as listed. */
  function Fill(slot: Container, r: Result): Container {
    if r.Filled? then r.data else slot
  }

  predicate Enabled(s: State, limit: nat, a: Action) {
    match a
    case Acquire(i) => i < |s.workers| && s.workers[i] == Waiting && s.held < limit
    case GiveUp(i) => i < |s.workers| && s.workers[i] == Waiting && s.expired
    case Inspect(i, r) => i < |s.workers| && s.workers[i] == Holding && r != Skipped && i < |s.slots|
    case Release(i) => i < |s.workers| && s.workers[i].Releasing? && s.held > 0
    case Expire => !s.expired
  }

  function Do(s: State, limit: nat, a: Action): State
    requires Enabled(s, limit, a)
  {
    match a
    case Acquire(i) => s.(held := s.held + 1, workers := s.workers[i := Holding])
    case GiveUp(i) => s.(workers := s.workers[i := Finished(Skipped)])
    case Inspect(i, r) => s.(workers := s.workers[i := Releasing(r)], slots := s.slots[i := Fill(s.slots[i], r)])
    case Release(i) => s.(held := s.held - 1, workers := s.workers[i := Finished(s.workers[i].result)])
    case Expire => s.(expired := true)
  }

  predicate Inside(w: Worker) { w.Holding? || w.Releasing? }

  function CountInside(ws: seq<Worker>): nat {
    if ws == [] then 0
    else CountInside(ws[..|ws| - 1]) + if Inside(ws[|ws| - 1]) then 1 else 0
  }

  /** Steps a worker still has before it. */
  function Remaining(w: Worker): nat {
    match w
    case Waiting => 3
    case Holding => 2
    case Releasing(_) => 1
    case Finished(_) => 0
  }

  function Work(ws: seq<Worker>): nat {
    if ws == [] then 0 else Work(ws[..|ws| - 1]) + Remaining(ws[|ws| - 1])
  }

  lemma {:induction false} CountsAfterUpdate(ws: seq<Worker>, i: nat, w: Worker)
    requires i < |ws|
    ensures CountInside(ws[i := w])
            == CountInside(ws) - (if Inside(ws[i]) then 1 else 0) + (if Inside(w) then 1 else 0)
    ensures Work(ws[i := w]) == Work(ws) - Remaining(ws[i]) + Remaining(w)
  {
    var n := |ws| - 1;
    if i < n {
      CountsAfterUpdate(ws[..n], i, w);
      assert ws[i := w][..n] == ws[..n][i := w];
    } else {
      assert ws[i := w][..n] == ws[..n];
    }
  }

  lemma {:induction false} NoneInside(ws: seq<Worker>)
    ensures CountInside(ws) == 0 <==> forall i :: 0 <= i < |ws| ==> !Inside(ws[i])
    ensures Work(ws) == 0 <==> forall i :: 0 <= i < |ws| ==> ws[i].Finished?
  {
    if ws != [] {
      NoneInside(ws[..|ws| - 1]);
    }
  }

  function SlotOf(listed: Container, w: Worker): Container {
    match w
    case Releasing(r) => Fill(listed, r)
    case Finished(r) => Fill(listed, r)
    case _ => listed
  }

  /** Tokens held are workers inside, within the limit; and every slot holds what its
      own worker made of the listed container, and nothing else. */
  predicate Inv(s: State, init: seq<Container>, limit: nat) {
    && |s.workers| == |s.slots| == |init|
    && s.held == CountInside(s.workers) <= limit
    && forall i :: 0 <= i < |init| ==> s.slots[i] == SlotOf(init[i], s.workers[i])
  }

  lemma {:induction false} StartIsInv(s: State, init: seq<Container>, limit: nat)
    requires Start(s, init)
    ensures Inv(s, init, limit)
  {
    NoneInside(s.workers);
  }

  /** Every step keeps the invariant, and every step but the deadline brings the end
      nearer. */
  lemma {:induction false} StepKeepsInv(s: State, init: seq<Container>, limit: nat, a: Action)
    requires Inv(s, init, limit) && Enabled(s, limit, a)
    ensures Inv(Do(s, limit, a), init, limit)
    ensures a != Expire ==> Work(Do(s, limit, a).workers) < Work(s.workers)
  {
    match a {
      case Acquire(i) => CountsAfterUpdate(s.workers, i, Holding);
      case GiveUp(i) => CountsAfterUpdate(s.workers, i, Finished(Skipped));
      case Inspect(i, r) => CountsAfterUpdate(s.workers, i, Releasing(r));
      case Release(i) => CountsAfterUpdate(s.workers, i, Finished(s.workers[i].result));
      case Expire =>
    }
  }

  /** No deadlock: while any worker is unfinished, some worker can move, deadline or no
      deadline. */
  lemma {:induction false} NoDeadlock(s: State, init: seq<Container>, limit: nat)
    requires Inv(s, init, limit) && limit >= 1
    requires exists i :: 0 <= i < |s.workers| && !s.workers[i].Finished?
    ensures exists a :: a != Expire && Enabled(s, limit, a)
  {
    NoneInside(s.workers);
    if s.held == 0 {
      var i :| 0 <= i < |s.workers| && !s.workers[i].Finished?;
      assert !Inside(s.workers[i]);
      assert Enabled(s, limit, Acquire(i));
    } else {
      var i :| 0 <= i < |s.workers| && Inside(s.workers[i]);
      if s.workers[i].Holding? {
        assert Enabled(s, limit, Inspect(i, Failed));
      } else {
        assert Enabled(s, limit, Release(i));
      }
    }
  }

  predicate Runs(s: State, limit: nat, schedule: seq<Action>)
    decreases |schedule|
  {
    schedule == [] || (Enabled(s, limit, schedule[0]) && Runs(Do(s, limit, schedule[0]), limit, schedule[1..]))
  }

  function End(s: State, limit: nat, schedule: seq<Action>): State
    requires Runs(s, limit, schedule)
    decreases |schedule|
  {
    if schedule == [] then s else End(Do(s, limit, schedule[0]), limit, schedule[1..])
  }

  function WorkerSteps(schedule: seq<Action>): nat {
    if schedule == [] then 0 else (if schedule[0] == Expire then 0 else 1) + WorkerSteps(schedule[1..])
  }

  /** The invariant holds after every schedule, and no schedule takes more worker steps
      than the work it removed. */
  lemma {:induction false} ScheduleKeepsInv(s: State, init: seq<Container>, limit: nat, schedule: seq<Action>)
    requires Inv(s, init, limit) && Runs(s, limit, schedule)
    ensures var t := End(s, limit, schedule);
            Inv(t, init, limit) && WorkerSteps(schedule) + Work(t.workers) <= Work(s.workers)
    decreases |schedule|
  {
    if schedule != [] {
      StepKeepsInv(s, init, limit, schedule[0]);
      ScheduleKeepsInv(Do(s, limit, schedule[0]), init, limit, schedule[1..]);
    }
  }

  /** How often a schedule writes slot k. */
  function Writes(schedule: seq<Action>, k: nat): nat {
    if schedule == [] then 0
    else (if schedule[0].Inspect? && schedule[0].i == k then 1 else 0) + Writes(schedule[1..], k)
  }

  /** In every interleaving a slot is written at most once, and never again once its
      worker has left Holding. */
  lemma {:induction false} SlotWrittenAtMostOnce(s: State, limit: nat, schedule: seq<Action>, k: nat)
    requires Runs(s, limit, schedule) && k < |s.workers|
    ensures Writes(schedule, k) <= if Remaining(s.workers[k]) >= 2 then 1 else 0
    decreases |schedule|
  {
    if schedule != [] {
      SlotWrittenAtMostOnce(Do(s, limit, schedule[0]), limit, schedule[1..], k);
    }
  }

  predicate GaveUp(w: Worker) { (w.Releasing? || w.Finished?) && w.result == Skipped }

  predicate NoneGaveUp(s: State) {
    !s.expired && forall i :: 0 <= i < |s.workers| ==> !GaveUp(s.workers[i])
  }

  /** Until the deadline strikes no container is skipped: every finished worker inspected
      its own, well or not. */
  lemma {:induction false} NoDeadlineNoSkip(s: State, limit: nat, schedule: seq<Action>)
    requires Runs(s, limit, schedule) && NoneGaveUp(s) && Expire !in schedule
    ensures NoneGaveUp(End(s, limit, schedule))
    decreases |schedule|
  {
    if schedule != [] {
      assert schedule[0] in schedule;
      NoDeadlineNoSkip(Do(s, limit, schedule[0]), limit, schedule[1..]);
    }
  }

  lemma {:induction false} AllWaiting(ws: seq<Worker>)
    requires forall i :: 0 <= i < |ws| ==> ws[i] == Waiting
    ensures Work(ws) == 3 * |ws|
  {
    if ws != [] {
      AllWaiting(ws[..|ws| - 1]);
    }
  }

  predicate AllFinished(s: State) { forall i :: 0 <= i < |s.workers| ==> s.workers[i].Finished? }

  /** Every interleaving from the start ends within three steps per container, with all
      tokens returned; and two interleavings that came to the same results per container
      leave the same containers, whatever the order of their steps. */
  lemma {:induction false} ScheduleIrrelevant(
      s: State, init: seq<Container>, limit: nat, a: seq<Action>, b: seq<Action>)
    requires Start(s, init) && Runs(s, limit, a) && Runs(s, limit, b)
    requires AllFinished(End(s, limit, a)) && AllFinished(End(s, limit, b))
    requires End(s, limit, a).workers == End(s, limit, b).workers
    ensures End(s, limit, a).slots == End(s, limit, b).slots
    ensures End(s, limit, a).held == 0 && WorkerSteps(a) <= 3 * |init|
    ensures var t := End(s, limit, a);
            && |t.workers| == |t.slots| == |init|
            && forall i :: 0 <= i < |init| ==>
                 && t.workers[i].Finished?
                 && t.slots[i] == match t.workers[i].result
                      case Filled(data) => data
                      case Failed => init[i]
                      case Skipped => init[i]
  {
    StartIsInv(s, init, limit);
    AllWaiting(s.workers);
    ScheduleKeepsInv(s, init, limit, a);
    ScheduleKeepsInv(s, init, limit, b);
    NoneInside(End(s, limit, a).workers);
  }
}
