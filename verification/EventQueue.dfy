/** Callbacks run in response to a signalled fence (tfdml/core/dml_event_queue.cc). */
module EventQueue {
  import opened Fences

  /** A callback, named by its position in the order of Enqueue calls, and the value it waits for. */
  datatype Entry = Entry(fence: Word, id: nat)

  datatype State = State(
    pending: seq<Entry>,     // the multimap in iteration order
    awaited: Word,           // current_awaited_fence_value
    processing: seq<Entry>,  // taken out, still to be invoked; non-empty while the mutex is held for it
    exited: bool,            // the thread has left its loop
    ran: seq<Entry>,         // callbacks invoked, in order
    enqueued: seq<Entry>,    // history: every Enqueue, in order
    completed: Word)         // the fence

  function Init(): State {
    State([], 0, [], false, [], [], 0)
  }

  datatype Event =
    | Enqueue(fence: Word)
    | Collect              // one iteration of the thread up to moving the signalled events out
    | Invoke               // the next collected callback
    | Advance(value: Word) // the fence completes a value; UINT64_MAX is device removal
    | Exit                 // the destructor's exit request is seen

  /** emplace into a multimap: behind every entry with the same key. */
  function Insert(pending: seq<Entry>, e: Entry): seq<Entry> {
    if pending == [] then [e]
    else if e.fence < pending[0].fence then [e] + pending
    else [pending[0]] + Insert(pending[1..], e)
  }

  /** How many entries come before lower_bound(value). */
  function LowerBound(pending: seq<Entry>, value: nat): (n: nat)
    ensures n <= |pending|
    ensures forall i :: 0 <= i < n ==> pending[i].fence < value
    ensures n < |pending| ==> value <= pending[n].fence
  {
    if pending == [] || value <= pending[0].fence then 0 else 1 + LowerBound(pending[1..], value)
  }

  /** 64-bit increment. */
  function Increment(x: Word): Word {
    if x == UINT64_MAX then 0 else x + 1
  }

  /** GetCompletedValue() + 1 on 64 bits, with the wrap to 0 at device removal replaced by UINT64_MAX. */
  function NextFenceValue(completed: Word): Word {
    var next := Increment(completed);
    if next == 0 then UINT64_MAX else next
  }

  predicate Enabled(s: State, e: Event) {
    match e
    case Enqueue(_) => s.processing == []
    case Collect => !s.exited && s.processing == [] && s.pending != []
    case Invoke => s.processing != []
    case Advance(v) => s.completed <= v
    case Exit => s.processing == []
  }

  function Step(s: State, e: Event): State
    requires Enabled(s, e)
  {
    match e
    case Enqueue(fence) =>
      var entry := Entry(fence, |s.enqueued|);
      if s.awaited <= fence
      then s.(pending := Insert(s.pending, entry), enqueued := s.enqueued + [entry])
      else s.(processing := [entry], enqueued := s.enqueued + [entry])
    case Collect =>
      var next := NextFenceValue(s.completed);
      var n := LowerBound(s.pending, next);
      s.(awaited := next, processing := s.pending[..n], pending := s.pending[n..],
         exited := s.completed == UINT64_MAX)
    case Invoke => s.(ran := s.ran + [s.processing[0]], processing := s.processing[1..])
    case Advance(v) => s.(completed := v)
    case Exit => s.(exited := true)
  }

  // ---------- The invariant ----------

  /** Everything that ever was or will be invoked, in the order in which it is. */
  function Timeline(s: State): seq<Entry> {
    s.ran + s.processing + s.pending
  }

  /** e may not come behind d: it was enqueued earlier for a value no larger. */
  predicate Overtaken(d: Entry, e: Entry) {
    e.id < d.id && e.fence <= d.fence
  }

  predicate Ordered(t: seq<Entry>) {
    forall p, q :: 0 <= p < q < |t| ==> !Overtaken(t[p], t[q])
  }

  predicate Sorted(t: seq<Entry>) {
    forall i, j :: 0 <= i < j < |t| ==> t[i].fence <= t[j].fence
  }

  predicate AtLeast(t: seq<Entry>, value: nat) {
    forall i :: 0 <= i < |t| ==> value <= t[i].fence
  }

  predicate AtMost(t: seq<Entry>, value: nat) {
    forall i :: 0 <= i < |t| ==> t[i].fence <= value
  }

  predicate Numbered(t: seq<Entry>) {
    forall i :: 0 <= i < |t| ==> t[i].id == i
  }

  ghost predicate Inv(s: State) {
    && Numbered(s.enqueued)
    && multiset(Timeline(s)) == multiset(s.enqueued)
    && Ordered(Timeline(s))
    && Sorted(s.pending) && AtLeast(s.pending, s.awaited)
    && AtMost(s.ran, s.completed) && AtMost(s.processing, s.completed)
    && s.awaited <= s.completed + 1
  }

  lemma InitInv()
    ensures Inv(Init())
  {
  }

  /** The insertion point: entries up to the key in front, larger ones behind. */
  lemma {:induction false} InsertSplits(pending: seq<Entry>, e: Entry) returns (k: nat)
    requires Sorted(pending)
    ensures k <= |pending| && Insert(pending, e) == pending[..k] + [e] + pending[k..]
    ensures forall i :: 0 <= i < k ==> pending[i].fence <= e.fence
    ensures forall i :: k <= i < |pending| ==> e.fence < pending[i].fence
  {
    if pending == [] || e.fence < pending[0].fence {
      k := 0;
    } else {
      var tail := pending[1..];
      var k' := InsertSplits(tail, e);
      k := k' + 1;
      assert pending[..k] == [pending[0]] + tail[..k'];
      assert pending[k..] == tail[k'..];
    }
  }

  lemma InsertKeepsSorted(pending: seq<Entry>, e: Entry, low: nat)
    requires Sorted(pending) && AtLeast(pending, low) && low <= e.fence
    ensures Sorted(Insert(pending, e)) && AtLeast(Insert(pending, e), low)
  {
    var k := InsertSplits(pending, e);
    var r := Insert(pending, e);
    forall i | 0 <= i < |r| ensures r[i] == if i < k then pending[i] else if i == k then e else pending[i - 1] {
    }
  }

  /** A newly numbered entry fits the order wherever only larger values follow. */
  lemma OrderedInsert(front: seq<Entry>, back: seq<Entry>, e: Entry)
    requires Ordered(front + back)
    requires forall d <- front :: d.id < e.id
    requires forall d <- back :: e.fence < d.fence
    ensures Ordered(front + [e] + back)
  {
    var t, t' := front + back, front + [e] + back;
    forall p, q | 0 <= p < q < |t'| ensures !Overtaken(t'[p], t'[q]) {
      if p == |front| {
        assert t'[q] == back[q - |front| - 1];
      } else if q == |front| {
        assert t'[p] == front[p];
      } else {
        var p', q' := if p < |front| then p else p - 1, if q < |front| then q else q - 1;
        assert t'[p] == t[p'] && t'[q] == t[q'];
      }
    }
  }

  lemma NewNumberIsLargest(s: State, d: Entry)
    requires Inv(s) && d in Timeline(s)
    ensures d.id < |s.enqueued|
  {
    assert d in multiset(Timeline(s));
    assert d in s.enqueued;
  }

  /** Enqueue adds one entry to the timeline, with only larger values behind it. */
  lemma EnqueueSplits(s: State, fence: Word) returns (front: seq<Entry>, back: seq<Entry>)
    requires Inv(s) && s.processing == []
    ensures Timeline(s) == front + back
    ensures Timeline(Step(s, Enqueue(fence))) == front + [Entry(fence, |s.enqueued|)] + back
    ensures forall d <- back :: fence < d.fence
  {
    var k := 0;
    if s.awaited <= fence {
      k := InsertSplits(s.pending, Entry(fence, |s.enqueued|));
    }
    front, back := s.ran + s.pending[..k], s.pending[k..];
  }

  lemma EnqueueTimeline(s: State, fence: Word)
    requires Inv(s) && s.processing == []
    ensures var s' := Step(s, Enqueue(fence));
            Ordered(Timeline(s')) && multiset(Timeline(s')) == multiset(s'.enqueued)
  {
    var e := Entry(fence, |s.enqueued|);
    var front, back := EnqueueSplits(s, fence);
    forall d <- front ensures d.id < e.id {
      assert d in Timeline(s);
      NewNumberIsLargest(s, d);
    }
    OrderedInsert(front, back, e);
    assert multiset(front + [e] + back) == multiset(front + back) + multiset{e};
  }

  lemma EnqueueInv(s: State, fence: Word)
    requires Inv(s) && s.processing == []
    ensures Inv(Step(s, Enqueue(fence)))
  {
    EnqueueTimeline(s, fence);
    if s.awaited <= fence {
      InsertKeepsSorted(s.pending, Entry(fence, |s.enqueued|), s.awaited);
    }
  }

  /** Collecting only moves the front of the pending list: nothing in the timeline changes place. */
  lemma CollectTimeline(s: State)
    requires Enabled(s, Collect)
    ensures Timeline(Step(s, Collect)) == Timeline(s)
    ensures Step(s, Collect).processing + Step(s, Collect).pending == s.pending
  {
  }

  lemma CollectSplits(pending: seq<Entry>, next: Word)
    requires Sorted(pending)
    ensures var n := LowerBound(pending, next);
            Sorted(pending[n..]) && AtLeast(pending[n..], next) && AtMost(pending[..n], if next == 0 then 0 else next - 1)
  {
  }

  lemma CollectInv(s: State)
    requires Inv(s) && Enabled(s, Collect)
    ensures Inv(Step(s, Collect))
  {
    CollectTimeline(s);
    CollectSplits(s.pending, NextFenceValue(s.completed));
  }

  lemma InvokeInv(s: State)
    requires Inv(s) && Enabled(s, Invoke)
    ensures Inv(Step(s, Invoke)) && Timeline(Step(s, Invoke)) == Timeline(s)
  {
    var s' := Step(s, Invoke);
    assert s.processing == [s.processing[0]] + s.processing[1..];
    assert Timeline(s') == Timeline(s);
  }

  lemma StepInv(s: State, e: Event)
    requires Inv(s) && Enabled(s, e)
    ensures Inv(Step(s, e))
  {
    match e
    case Enqueue(fence) => EnqueueInv(s, fence);
    case Collect => CollectInv(s);
    case Invoke => InvokeInv(s);
    case Advance(_) =>
    case Exit =>
  }

  // ---------- Whole runs ----------

  ghost predicate Run(events: seq<Event>, s: State, s': State)
    decreases |events|
  {
    if events == [] then s == s'
    else Enabled(s, events[0]) && Run(events[1..], Step(s, events[0]), s')
  }

  lemma {:induction false} RunKeepsInv(events: seq<Event>, s: State, s': State)
    requires Inv(s) && Run(events, s, s')
    ensures Inv(s')
    decreases |events|
  {
    if events != [] {
      StepInv(s, events[0]);
      RunKeepsInv(events[1..], Step(s, events[0]), s');
    }
  }

  /** No callback runs before its value completes, and none runs twice or is still waiting to. */
  lemma RunsOnceAfterSignal(events: seq<Event>, s: State, p: nat, q: nat)
    requires Run(events, Init(), s) && p < |s.ran| && q < |Timeline(s)| && p != q
    ensures s.ran[p].fence <= s.completed
    ensures s.ran[p] != Timeline(s)[q]
  {
    InitInv();
    RunKeepsInv(events, Init(), s);
    assert s.ran[p] == Timeline(s)[p];
    TimelineDistinct(s, p, q);
  }

  /** Callbacks are neither lost nor duplicated: the timeline holds each of them once. */
  lemma TimelineDistinct(s: State, p: nat, q: nat)
    requires Inv(s) && p < |Timeline(s)| && q < |Timeline(s)| && p != q
    ensures Timeline(s)[p] != Timeline(s)[q]
  {
    var lo, hi := if p < q then p else q, if p < q then q else p;
    if Timeline(s)[lo] == Timeline(s)[hi] {
      TwiceCounted(Timeline(s), lo, hi);
      DistinctOnce(s.enqueued, Timeline(s)[lo]);
    }
  }

  lemma TwiceCounted(t: seq<Entry>, p: nat, q: nat)
    requires p < q < |t| && t[p] == t[q]
    ensures multiset(t)[t[p]] >= 2
  {
    assert t == t[..q] + [t[q]] + t[q + 1..];
    assert t[p] == t[..q][p];
  }

  lemma {:induction false} DistinctOnce(s: seq<Entry>, e: Entry)
    requires forall i, j :: 0 <= i < j < |s| ==> s[i] != s[j]
    ensures multiset(s)[e] <= 1
  {
    if s != [] {
      var last := |s| - 1;
      assert s == s[..last] + [s[last]];
      DistinctOnce(s[..last], e);
      if e == s[last] { assert e !in s[..last]; }
    }
  }

  /** If an earlier call waited for no larger a value, its callback has run before the later one's. */
  lemma RunsInOrder(events: seq<Event>, s: State, i: nat, j: nat, q: nat) returns (p: nat)
    requires Run(events, Init(), s)
    requires i < j < |s.enqueued| && s.enqueued[i].fence <= s.enqueued[j].fence
    requires q < |s.ran| && s.ran[q] == s.enqueued[j]
    ensures p < q && s.ran[p] == s.enqueued[i]
  {
    InitInv();
    RunKeepsInv(events, Init(), s);
    var t, e := Timeline(s), s.enqueued[i];
    assert e in multiset(s.enqueued);
    assert e in multiset(t);
    p :| p < |t| && t[p] == e;
    assert t[q] == s.enqueued[j];
    EarlierStandsFirst(t, p, q);
  }

  lemma EarlierStandsFirst(t: seq<Entry>, p: nat, q: nat)
    requires Ordered(t) && p < |t| && q < |t|
    requires Overtaken(t[q], t[p])
    ensures p < q
  {
  }

  /**
   * The two sanity checks of Enqueue. On 64 bits the first one, that the awaited value is not past the next one,
   * fails exactly after the thread has awaited a value and the device is then removed; the second, that an
   * immediate callback overtakes no pending one, never fails.
   */
  lemma EnqueueAssertsHold(events: seq<Event>, s: State, fence: Word)
    requires Run(events, Init(), s)
    ensures s.awaited <= Increment(s.completed) <==> s.completed < UINT64_MAX || s.awaited == 0
    ensures fence < s.awaited ==> LowerBound(s.pending, fence) == 0 && fence <= s.completed
  {
    InitInv();
    RunKeepsInv(events, Init(), s);
  }

  // ---------- Whole batches ----------

  /** Invoking everything that was taken out, with the mutex still held. */
  function InvokeAll(s: State): State {
    s.(ran := s.ran + s.processing, processing := [])
  }

  lemma {:induction false} InvokeAllIsSteps(s: State)
    ensures Run(seq(|s.processing|, _ => Invoke), s, InvokeAll(s))
    decreases |s.processing|
  {
    var events := seq(|s.processing|, _ => Invoke);
    if s.processing != [] {
      var s1 := Step(s, Invoke);
      InvokeAllIsSteps(s1);
      assert events[1..] == seq(|s1.processing|, _ => Invoke);
      assert InvokeAll(s1) == InvokeAll(s) by { assert s.processing == [s.processing[0]] + s.processing[1..]; }
    } else {
      assert InvokeAll(s) == s by { assert s.ran + s.processing == s.ran; }
    }
  }

  /** Invoking the rest of a batch keeps the invariant. */
  lemma InvokeAllInv(s: State)
    requires Inv(s)
    ensures Inv(InvokeAll(s))
  {
    InvokeAllIsSteps(s);
    RunKeepsInv(seq(|s.processing|, _ => Invoke), s, InvokeAll(s));
  }

  /** An iteration takes out exactly the pending callbacks whose value has completed, short of UINT64_MAX. */
  lemma CollectTakesSignalled(s: State)
    requires Inv(s) && Enabled(s, Collect)
    ensures var s' := Step(s, Collect);
            && s'.processing + s'.pending == s.pending
            && (forall e <- s'.processing :: e.fence <= s.completed && e.fence < UINT64_MAX)
            && (forall e <- s'.pending :: s.completed < e.fence || e.fence == UINT64_MAX)
  {
    CollectTimeline(s);
  }

  lemma StepExits(s: State, e: Event)
    requires Enabled(s, e)
    ensures Step(s, e).exited <==> s.exited || e.Exit? || (e.Collect? && s.completed == UINT64_MAX)
    ensures s.completed <= Step(s, e).completed
  {
  }

  lemma {:induction false} RunExits(events: seq<Event>, s: State, s': State)
    requires Run(events, s, s')
    ensures s.exited || Exit in events ==> s'.exited
    ensures s'.exited && !s.exited && Exit !in events ==> s'.completed == UINT64_MAX
    ensures s.completed <= s'.completed
    decreases |events|
  {
    hide Step, Enabled;
    if events != [] {
      StepExits(s, events[0]);
      RunExits(events[1..], Step(s, events[0]), s');
      assert events == [events[0]] + events[1..];
    }
  }

  /** The thread leaves its loop for an exit request, and otherwise only on device removal. */
  lemma ExitsOnlyFor(events: seq<Event>, s: State)
    requires Run(events, Init(), s)
    ensures Exit in events ==> s.exited
    ensures s.exited && Exit !in events ==> s.completed == UINT64_MAX
  {
    RunExits(events, Init(), s);
  }

  /** What has been enqueued and is not pending has run, exactly once, when nobody holds the mutex. */
  lemma RanUnlessPending(s: State, e: Entry)
    requires Inv(s) && s.processing == [] && e in s.enqueued && e !in s.pending
    ensures e in s.ran && multiset(s.ran)[e] == 1
  {
    DistinctOnce(s.enqueued, e);
    assert e in multiset(s.enqueued);
    assert Timeline(s) == s.ran + s.pending;
    assert multiset(Timeline(s))[e] == multiset(s.ran)[e] + multiset(s.pending)[e];
  }

  /**
   * In every run, when an iteration is done, every callback ever enqueued whose value had completed when it looked
   * has run, exactly once; only at UINT64_MAX, the value of removal, is this not so.
   */
  lemma IterationRunsSignalled(events: seq<Event>, s: State, e: Entry)
    requires Run(events, Init(), s) && Enabled(s, Collect)
    requires e in s.enqueued && e.fence <= s.completed && e.fence < UINT64_MAX
    ensures var s' := InvokeAll(Step(s, Collect));
            e in s'.ran && multiset(s'.ran)[e] == 1
  {
    hide Inv, LowerBound, Run;
    InitInv();
    RunKeepsInv(events, Init(), s);
    CollectTakesSignalled(s);
    StepInv(s, Collect);
    InvokeAllInv(Step(s, Collect));
    RanUnlessPending(InvokeAll(Step(s, Collect)), e);
  }

  // ---------- Device removal ----------

  /** The thread's last iteration takes out every pending callback except those waiting for UINT64_MAX. */
  lemma RemovalFlushes(s: State)
    requires Inv(s) && Enabled(s, Collect) && s.completed == UINT64_MAX
    ensures var s' := Step(s, Collect);
            && s'.exited && s'.awaited == UINT64_MAX
            && s'.processing + s'.pending == s.pending
            && (forall e <- s'.processing :: e.fence < UINT64_MAX)
            && (forall e <- s'.pending :: e.fence == UINT64_MAX)
  {
    CollectTimeline(s);
    CollectSplits(s.pending, UINT64_MAX);
  }

  /** From then on a callback is invoked at once exactly when its value is below UINT64_MAX. */
  lemma {:induction false} AfterRemoval(events: seq<Event>, s: State, s': State)
    requires Inv(s) && s.exited && s.awaited == UINT64_MAX && Run(events, s, s')
    ensures Inv(s') && s'.exited && s'.awaited == UINT64_MAX
    ensures forall e <- s'.pending :: e.fence == UINT64_MAX
    ensures forall fence: Word :: Enabled(s', Enqueue(fence)) ==>
              (Step(s', Enqueue(fence)).processing == [Entry(fence, |s'.enqueued|)] <==> fence < UINT64_MAX)
    decreases |events|
  {
    if events != [] {
      StepInv(s, events[0]);
      AfterRemoval(events[1..], Step(s, events[0]), s');
    }
  }

  /** Once UINT64_MAX is awaited and nobody holds the mutex, every callback below it has run, exactly once. */
  lemma RanExactlyOnce(s: State, e: Entry)
    requires Inv(s) && s.awaited == UINT64_MAX && s.processing == []
    requires e in s.enqueued && e.fence < UINT64_MAX
    ensures e in s.ran && multiset(s.ran)[e] == 1
  {
    RanUnlessPending(s, e);
  }

  /**
   * No callback below UINT64_MAX is stranded: in every run, once the thread has exited with UINT64_MAX awaited and
   * nobody holds the mutex, each such callback that was ever enqueued has run, exactly once.
   */
  lemma NoneStranded(events: seq<Event>, s: State, e: Entry)
    requires Run(events, Init(), s) && s.exited && s.awaited == UINT64_MAX && s.processing == []
    requires e in s.enqueued && e.fence < UINT64_MAX
    ensures e in s.ran && multiset(s.ran)[e] == 1
  {
    InitInv();
    RunKeepsInv(events, Init(), s);
    RanExactlyOnce(s, e);
  }

  /** That is how removal leaves it: the last iteration runs everything below UINT64_MAX, then the thread exits. */
  lemma RemovalRunsAll(events: seq<Event>, s: State, e: Entry)
    requires Run(events, Init(), s) && Enabled(s, Collect) && s.completed == UINT64_MAX
    requires e in s.enqueued && e.fence < UINT64_MAX
    ensures var s' := InvokeAll(Step(s, Collect));
            && s'.exited && s'.awaited == UINT64_MAX
            && e in s'.ran && multiset(s'.ran)[e] == 1
  {
    hide Inv, LowerBound, Run;
    InitInv();
    RunKeepsInv(events, Init(), s);
    StepInv(s, Collect);
    InvokeAllInv(Step(s, Collect));
    RanExactlyOnce(InvokeAll(Step(s, Collect)), e);
  }

  // ---------- The queue object ----------

  /** One turn of the thread's loop: read the fence, take out what it has passed, invoke that. */
  lemma IterationInv(s: State, completed: Word)
    requires Inv(s) && !s.exited && s.pending != [] && s.processing == [] && s.completed <= completed
    ensures Inv(InvokeAll(Step(Step(s, Advance(completed)), Collect)))
  {
    StepInv(s, Advance(completed));
    StepInv(Step(s, Advance(completed)), Collect);
    InvokeAllInv(Step(Step(s, Advance(completed)), Collect));
  }

  /** What it leaves pending has not completed, and what it takes out has been invoked. */
  lemma IterationLeaves(s: State, completed: Word)
    requires Inv(s) && !s.exited && s.pending != [] && s.processing == [] && s.completed <= completed
    ensures var s' := InvokeAll(Step(Step(s, Advance(completed)), Collect));
            && (forall e <- s'.pending :: completed < e.fence || e.fence == UINT64_MAX)
            && (forall e <- s.pending :: e in s'.pending || e in s'.ran)
  {
    var t := Step(s, Advance(completed));
    StepInv(s, Advance(completed));
    CollectTakesSignalled(t);
    var t' := Step(t, Collect);
    forall e <- s.pending ensures e in InvokeAll(t').pending || e in InvokeAll(t').ran {
      assert e in t'.processing + t'.pending;
    }
  }

  class Queue {
    const fence: Fence
    var eventsByFenceValue: seq<Entry>
    var currentAwaitedFenceValue: Word
    var exitRequested: bool
    var invoked: seq<Entry>           // the callbacks called, in order
    ghost var threadExited: bool
    ghost var enqueued: seq<Entry>

    ghost function Model(): State
      reads this, fence
    {
      State(eventsByFenceValue, currentAwaitedFenceValue, [], threadExited, invoked, enqueued, fence.completed)
    }

    /** The queue's invariant. Whoever else advances the fence keeps it: that is the step Advance. */
    ghost predicate Valid()
      reads this, fence
    {
      Inv(Model())
    }

    constructor (fence: Fence)
      requires fence.completed == 0
      ensures Valid() && this.fence == fence && Model() == Init()
    {
      this.fence := fence;
      eventsByFenceValue, currentAwaitedFenceValue, exitRequested, invoked := [], 0, false, [];
      threadExited, enqueued := false, [];
      new;
      InitInv();
    }

    method Enqueue(value: Word, callback: Entry)
      requires Valid() && callback == Entry(value, |enqueued|)
      modifies this
      ensures Valid() && Model() == InvokeAll(Step(old(Model()), Event.Enqueue(value)))
    {
      hide Inv, Insert;
      StepInv(Model(), Event.Enqueue(value));
      InvokeAllInv(Step(Model(), Event.Enqueue(value)));
      if currentAwaitedFenceValue <= value {
        eventsByFenceValue := Insert(eventsByFenceValue, callback);
      } else {
        invoked := invoked + [callback];
      }
      enqueued := enqueued + [callback];
    }

    /** One turn of the thread's loop, from taking the mutex to releasing it. */
    method ThreadIteration() returns (leave: bool, wait: bool)
      requires Valid() && !threadExited
      modifies this, fence
      ensures Valid() && old(fence.completed) <= fence.completed && leave == threadExited
      ensures old(exitRequested) ==> leave && Model() == Step(old(Model()), Exit)
      ensures !old(exitRequested) && old(eventsByFenceValue) != [] ==>
                && Model() == InvokeAll(Step(Step(old(Model()), Advance(fence.completed)), Collect))
                && leave == (fence.completed == UINT64_MAX) && (!leave ==> wait == (eventsByFenceValue != []))
      ensures !old(exitRequested) && old(eventsByFenceValue) == [] ==> Model() == old(Model()) && !leave && !wait
      ensures !old(exitRequested) ==>
                && (forall e <- eventsByFenceValue :: fence.completed < e.fence || e.fence == UINT64_MAX)
                && (forall e <- old(eventsByFenceValue) :: e in eventsByFenceValue || e in invoked)
    {
      hide Inv, Insert, LowerBound;
      leave, wait := false, false;
      if exitRequested {
        StepInv(Model(), Exit);
        threadExited := true;
        return true, false;
      }
      if eventsByFenceValue == [] {
        return;
      }
      ghost var before := Model();
      var completed := fence.GetCompletedValue();
      IterationInv(before, completed);
      IterationLeaves(before, completed);
      var next := Increment(completed);
      var deviceRemoved := next == 0;
      if deviceRemoved {
        next := UINT64_MAX;
      }
      currentAwaitedFenceValue := next;
      var eventsToProcess := MoveOut(next);
      InvokeEach(eventsToProcess);
      threadExited := deviceRemoved;
      leave, wait := deviceRemoved, !deviceRemoved && eventsByFenceValue != [];
    }

    /** Moves every event below the value from the multimap into a vector. */
    method MoveOut(next: Word) returns (eventsToProcess: seq<Entry>)
      modifies `eventsByFenceValue
      ensures var n := LowerBound(old(eventsByFenceValue), next);
              eventsToProcess == old(eventsByFenceValue)[..n] && eventsByFenceValue == old(eventsByFenceValue)[n..]
    {
      var end := LowerBound(eventsByFenceValue, next);
      eventsToProcess := [];
      for i := 0 to end
        invariant eventsByFenceValue == old(eventsByFenceValue) && eventsToProcess == eventsByFenceValue[..i]
      {
        eventsToProcess := eventsToProcess + [eventsByFenceValue[i]];
      }
      eventsByFenceValue := eventsByFenceValue[end..];
    }

    method InvokeEach(events: seq<Entry>)
      modifies `invoked
      ensures invoked == old(invoked) + events
    {
      for i := 0 to |events|
        invariant invoked == old(invoked) + events[..i]
      {
        invoked := invoked + [events[i]];
      }
      assert events[..|events|] == events;
    }
  }
}
