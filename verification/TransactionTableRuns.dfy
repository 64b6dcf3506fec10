/**
 The wallet, the notification queues and the cached rows as one step system.

 The wallet changes at any time and announces each change of presence or visibility together with the change;
 the view processes queued calls later, in order, against a wallet that may have moved on.
 */
module TransactionTableRuns {
  import opened Sequences
  import opened TransactionRecords
  import opened TransactionTable
  import opened NotificationQueue

  /** `notified` and `delivered` are the history: what the wallet announced and what the view has received. */
  datatype State = State(wallet: Wallet, batching: bool, held: seq<Notification>, events: seq<GuiEvent>,
                         cache: seq<Record>, suppress: bool,
                         notified: seq<Notification>, posted: seq<Notice>, delivered: seq<Notice>)

  datatype Step =
    | Add(h: Hash, shown: bool)
    | Touch(h: Hash, shown: bool)
    | Remove(h: Hash)
    | Progress(percent: int)
    | Process

  predicate Enabled(s: State, step: Step) {
    match step
    case Add(h, _) => h !in s.wallet
    case Touch(h, _) => h in s.wallet
    case Remove(h) => h in s.wallet
    case Progress(_) => true
    case Process => s.events != []
  }

  function QueuesOf(s: State): Queues { Queues(s.batching, s.held, s.events) }

  function WithQueues(s: State, q: Queues): State { s.(batching := q.batching, held := q.held, events := q.events) }

  function Notify(s: State, h: Hash, status: ChangeType): State {
    var n := Notification(h, status, Shown(s.wallet, h));
    WithQueues(s, Announce(QueuesOf(s), n))
    .(notified := s.notified + [n], posted := if s.batching then s.posted else s.posted + [Notice(n, false)])
  }

  function ShowProgress(s: State, percent: int): State {
    WithQueues(s, Advance(QueuesOf(s), percent))
    .(posted := if percent == 100 then s.posted + Intended(s.held) else s.posted)
  }

  function ProcessOne(rows: Rows, s: State): State
    requires s.events != []
  {
    var rest := s.(events := s.events[1..]);
    match s.events[0]
    case SetProcessingQueued(value) => rest.(suppress := value)
    case UpdateTransaction(n) =>
      rest.(cache := Update(rows, n.hash in s.wallet, s.cache, n).0, delivered := s.delivered + [Notice(n, s.suppress)])
  }

  function Next(rows: Rows, s: State, step: Step): State
    requires Enabled(s, step)
  {
    match step
    case Add(h, shown) => Notify(s.(wallet := s.wallet[h := shown]), h, New)
    case Touch(h, shown) => Notify(s.(wallet := s.wallet[h := shown]), h, Updated)
    case Remove(h) => Notify(s.(wallet := s.wallet - {h}), h, Deleted)
    case Progress(percent) => ShowProgress(s, percent)
    case Process => ProcessOne(rows, s)
  }

  ghost predicate ValidRun(rows: Rows, s: State, steps: seq<Step>)
    decreases steps
  {
    steps == [] || (Enabled(s, steps[0]) && ValidRun(rows, Next(rows, s, steps[0]), steps[1..]))
  }

  ghost function Run(rows: Rows, s: State, steps: seq<Step>): State
    requires ValidRun(rows, s, steps)
    decreases steps
  {
    if steps == [] then s else Run(rows, Next(rows, s, steps[0]), steps[1..])
  }

  /** The view has just been built from the wallet, whose map was iterated in `order`. */
  function Start(rows: Rows, wallet: Wallet, order: seq<Hash>): State {
    State(wallet, false, [], [], Refresh(rows, wallet, order), false, [], [], [])
  }

  predicate Quiescent(s: State) { s.events == [] && s.held == [] }

  // ---------------------------------------------------------------- batching

  function Plain(notices: seq<Notice>): seq<Notification> {
    seq(|notices|, i requires 0 <= i < |notices| => notices[i].n)
  }

  /** Nothing is lost, duplicated or reordered between the wallet and the view, and suppression is as intended. */
  ghost predicate BatchInv(s: State) {
    && (!s.batching ==> s.held == [])
    && !FlagAfter(s.suppress, s.events)
    && s.posted == s.delivered + Delivered(s.suppress, s.events)
    && s.notified == Plain(s.posted) + s.held
  }

  lemma {:induction false} NotifyKeepsBatch(s: State, h: Hash, status: ChangeType)
    requires BatchInv(s)
    ensures BatchInv(Notify(s, h, status))
  {
    var n := Notification(h, status, Shown(s.wallet, h));
    if s.batching {
      assert Plain(s.posted) + s.held + [n] == Plain(s.posted) + (s.held + [n]);
    } else {
      DeliveredConcat(s.suppress, s.events, [UpdateTransaction(n)]);
      DeliveredOne(false, n);
      assert Plain(s.posted + [Notice(n, false)]) == Plain(s.posted) + [n];
    }
  }

  lemma {:induction false} StepKeepsBatch(rows: Rows, s: State, step: Step)
    requires BatchInv(s) && Enabled(s, step)
    ensures BatchInv(Next(rows, s, step))
  {
    match step {
      case Add(h, shown) => NotifyKeepsBatch(s.(wallet := s.wallet[h := shown]), h, New);
      case Touch(h, shown) => NotifyKeepsBatch(s.(wallet := s.wallet[h := shown]), h, Updated);
      case Remove(h) => NotifyKeepsBatch(s.(wallet := s.wallet - {h}), h, Deleted);
      case Progress(percent) =>
        if percent == 100 {
          DeliveredConcat(s.suppress, s.events, Flush(s.held));
          FlushDelivers(s.held);
          assert s.delivered + Delivered(s.suppress, s.events) + Intended(s.held)
              == s.delivered + (Delivered(s.suppress, s.events) + Intended(s.held));
          assert Plain(s.posted + Intended(s.held)) == Plain(s.posted) + s.held;
        }
      case Process =>
        if s.events[0].UpdateTransaction? {
          var one := [Notice(s.events[0].n, s.suppress)];
          assert s.delivered + (one + Delivered(s.suppress, s.events[1..])) ==
                 s.delivered + one + Delivered(s.suppress, s.events[1..]);
        }
    }
  }

  /** In every reachable state: what the view received, then what it will receive, then what is held back, is
      what the wallet announced; nothing is held back outside batching; and when nothing is queued balloons are on. */
  lemma {:induction false} NothingIsLostOrReordered(rows: Rows, s: State, steps: seq<Step>)
    requires BatchInv(s) && ValidRun(rows, s, steps)
    ensures BatchInv(Run(rows, s, steps))
    decreases steps
  {
    if steps != [] {
      StepKeepsBatch(rows, s, steps[0]);
      NothingIsLostOrReordered(rows, Next(rows, s, steps[0]), steps[1..]);
    }
  }

  // ---------------------------------------------------------------- when notifications are held back

  /** The last progress step of 0 or 100 was one of 0. */
  predicate HoldsBack(steps: seq<Step>) {
    if steps == [] then false
    else
      var last := steps[|steps| - 1];
      if last == Progress(0) then true
      else if last == Progress(100) then false
      else HoldsBack(steps[..|steps| - 1])
  }

  /** What a step announces. */
  function AnnouncedBy(step: Step): seq<Notification> {
    match step
    case Add(h, shown) => [Notification(h, New, shown)]
    case Touch(h, shown) => [Notification(h, Updated, shown)]
    case Remove(h) => [Notification(h, Deleted, false)]
    case Progress(_) => []
    case Process => []
  }

  /** Everything announced since notifications are held back. */
  function HeldBack(steps: seq<Step>): seq<Notification> {
    if steps == [] || !HoldsBack(steps) then []
    else HeldBack(steps[..|steps| - 1]) + AnnouncedBy(steps[|steps| - 1])
  }

  lemma {:induction false} RunSnoc(rows: Rows, s: State, steps: seq<Step>, step: Step)
    requires ValidRun(rows, s, steps + [step])
    ensures ValidRun(rows, s, steps) && Enabled(Run(rows, s, steps), step)
    ensures Run(rows, s, steps + [step]) == Next(rows, Run(rows, s, steps), step)
    decreases steps
  {
    if steps == [] {
      assert steps + [step] == [step] && [step][1..] == [];
    } else {
      assert (steps + [step])[1..] == steps[1..] + [step];
      RunSnoc(rows, Next(rows, s, steps[0]), steps[1..], step);
    }
  }

  lemma {:induction false} HeldBackSnoc(steps: seq<Step>, step: Step)
    ensures HoldsBack(steps + [step]) ==
            if step == Progress(0) then true else if step == Progress(100) then false else HoldsBack(steps)
    ensures HeldBack(steps + [step]) == if HoldsBack(steps + [step]) then HeldBack(steps) + AnnouncedBy(step) else []
  {
    assert (steps + [step])[..|steps|] == steps;
  }

  lemma {:induction false} StepHoldsBack(rows: Rows, s: State, step: Step)
    requires Enabled(s, step) && (!s.batching ==> s.held == [])
    ensures var s' := Next(rows, s, step);
            && s'.batching ==
               (if step == Progress(0) then true else if step == Progress(100) then false else s.batching)
            && s'.held == (if s'.batching then s.held + AnnouncedBy(step) else [])
  {
    JoinEmpty(s.held);
  }

  /** Over every run, from its steps alone: notifications are held back exactly when the last progress of 0 or 100 was
      one of 0, and those held back are exactly what was announced since then. */
  lemma {:induction false} HeldBackSinceProgressStarted(rows: Rows, s: State, steps: seq<Step>)
    requires ValidRun(rows, s, steps) && !s.batching && s.held == []
    ensures Run(rows, s, steps).batching == HoldsBack(steps)
    ensures Run(rows, s, steps).held == HeldBack(steps)
  {
    if steps != [] {
      var init, last := steps[..|steps| - 1], steps[|steps| - 1];
      assert steps == init + [last];
      RunSnoc(rows, s, init, last);
      HeldBackSinceProgressStarted(rows, s, init);
      StepHoldsBack(rows, Run(rows, s, init), last);
      HeldBackSnoc(init, last);
    }
  }

  /** While notifications are held back no change of the wallet is posted to the view; otherwise each is posted at once;
      and the end of the progress posts all that was held back. */
  lemma {:induction false} WhatAStepPosts(rows: Rows, s: State, steps: seq<Step>, step: Step)
    requires ValidRun(rows, s, steps + [step]) && !s.batching && s.held == [] && !step.Process?
    ensures ValidRun(rows, s, steps)
    ensures var before, after := Run(rows, s, steps).events, Run(rows, s, steps + [step]).events;
            && (HoldsBack(steps) && !step.Progress? ==> after == before)
            && (!HoldsBack(steps) && !step.Progress? ==> after == before + [UpdateTransaction(AnnouncedBy(step)[0])])
            && (step == Progress(100) ==> after == before + Flush(HeldBack(steps)))
            && (step.Progress? && step.percent != 100 ==> after == before)
  {
    RunSnoc(rows, s, steps, step);
    HeldBackSinceProgressStarted(rows, s, steps);
  }

  // ---------------------------------------------------------------- cache

  function Announced(events: seq<GuiEvent>): seq<Notification> {
    if events == [] then []
    else (if events[0].UpdateTransaction? then [events[0].n] else []) + Announced(events[1..])
  }

  function Pending(s: State): seq<Notification> { Announced(s.events) + s.held }

  /** Whether transaction `h` will have rows after all of `ns`, if the wallet held it throughout. */
  function Eventually(h: Hash, inModel: bool, ns: seq<Notification>): bool
    decreases ns
  {
    if ns == [] then inModel
    else Eventually(h, if ns[0].hash == h then InModelAfter(inModel, ns[0], true) else inModel, ns[1..])
  }

  /** The block of `h` is whole or empty, and the pending notifications will settle it to what the wallet shows. */
  ghost predicate Settles(rows: Rows, s: State, h: Hash) {
    && (Block(s.cache, h) == [] || Block(s.cache, h) == rows(h))
    && (rows(h) != [] ==> Eventually(h, Block(s.cache, h) != [], Pending(s)) == Shown(s.wallet, h))
  }

  ghost predicate CacheInv(rows: Rows, s: State) {
    && WellKeyed(rows) && Sorted(s.cache) && (!s.batching ==> s.held == [])
    && forall h :: Settles(rows, s, h)
  }

  lemma {:induction false} AnnouncedConcat(a: seq<GuiEvent>, b: seq<GuiEvent>)
    ensures Announced(a + b) == Announced(a) + Announced(b)
  {
    if a == [] {
      assert a + b == b;
      assert Announced(a) + Announced(b) == Announced(b);
    } else {
      var tail := a[1..];
      var head := if a[0].UpdateTransaction? then [a[0].n] else [];
      assert (a + b)[1..] == tail + b && (a + b)[0] == a[0];
      AnnouncedConcat(tail, b);
      assert Announced(a + b) == head + Announced(tail + b);
      JoinAssociates(head, Announced(tail), Announced(b));
    }
  }

  lemma {:induction false} AnnouncedHead(n: Notification, last: bool)
    ensures Announced(FlushHead(n, last)) == [n]
  {
    var update := [UpdateTransaction(n)];
    assert update[1..] == [] && Announced(update) == [n] + [];
    assert ([SetProcessingQueued(false)] + update)[1..] == update;
  }

  lemma {:induction false} AnnouncedFlushFrom(held: seq<Notification>, i: nat)
    requires i <= |held|
    ensures Announced(FlushFrom(held, i)) == held[i..]
    decreases |held| - i
  {
    if i < |held| {
      AnnouncedFlushFrom(held, i + 1);
      var head := FlushHead(held[i], |held| - i <= MAX_BALLOONS);
      assert FlushFrom(held, i) == head + FlushFrom(held, i + 1);
      AnnouncedConcat(head, FlushFrom(held, i + 1));
      AnnouncedHead(held[i], |held| - i <= MAX_BALLOONS);
      assert held[i..] == [held[i]] + held[i + 1..];
    }
  }

  lemma {:induction false} AnnouncedFlush(held: seq<Notification>)
    ensures Announced(Flush(held)) == held
  {
    AnnouncedFlushFrom(held, 0);
    if |held| > MAX_BALLOONS {
      assert Flush(held)[1..] == FlushFrom(held, 0);
    } else {
      assert Flush(held) == FlushFrom(held, 0);
    }
  }

  lemma {:induction false} EventuallySnoc(h: Hash, inModel: bool, ns: seq<Notification>, n: Notification)
    ensures Eventually(h, inModel, ns + [n]) ==
            if n.hash == h then InModelAfter(Eventually(h, inModel, ns), n, true) else Eventually(h, inModel, ns)
    decreases ns
  {
    if ns == [] {
      assert ns + [n] == [n];
    } else {
      assert (ns + [n])[1..] == ns[1..] + [n];
      EventuallySnoc(h, if ns[0].hash == h then InModelAfter(inModel, ns[0], true) else inModel, ns[1..], n);
    }
  }

  /** A transaction not yet shown cannot be ahead of one already shown. */
  lemma {:induction false} EventuallyMonotone(h: Hash, ns: seq<Notification>)
    ensures Eventually(h, false, ns) ==> Eventually(h, true, ns)
  {
    if ns != [] { EventuallyMonotone(h, ns[1..]); }
  }

  lemma {:induction false} PendingAfterNotify(s: State, h: Hash, status: ChangeType)
    requires !s.batching ==> s.held == []
    ensures Pending(Notify(s, h, status)) == Pending(s) + [Notification(h, status, Shown(s.wallet, h))]
  {
    var n := Notification(h, status, Shown(s.wallet, h));
    if s.batching {
      assert Announced(s.events) + (s.held + [n]) == Announced(s.events) + s.held + [n];
    } else {
      AnnouncedConcat(s.events, [UpdateTransaction(n)]);
      assert [UpdateTransaction(n)][1..] == [];
    }
  }

  /** A wallet change of `h` keeps the invariant when its own announcement settles `h`. */
  lemma {:induction false} WalletChangeKeepsCache(rows: Rows, s: State, wallet: Wallet, h: Hash, status: ChangeType)
    requires CacheInv(rows, s)
    requires forall g :: g != h ==> Shown(wallet, g) == Shown(s.wallet, g)
    requires rows(h) != [] ==>
               InModelAfter(Eventually(h, Block(s.cache, h) != [], Pending(s)),
                            Notification(h, status, Shown(wallet, h)), true)
               == Shown(wallet, h)
    ensures CacheInv(rows, Notify(s.(wallet := wallet), h, status))
  {
    var s1 := s.(wallet := wallet);
    var s2 := Notify(s1, h, status);
    PendingAfterNotify(s1, h, status);
    assert Pending(s1) == Pending(s);
    forall g ensures Settles(rows, s2, g) {
      assert Settles(rows, s, g);
      EventuallySnoc(g, Block(s.cache, g) != [], Pending(s), Notification(h, status, Shown(wallet, h)));
    }
  }

  lemma {:induction false} PendingBeforeProcess(rows: Rows, s: State)
    requires s.events != [] && s.events[0].UpdateTransaction?
    ensures Pending(s) != [] && Pending(s)[0] == s.events[0].n && Pending(s)[1..] == Pending(ProcessOne(rows, s))
  {
    assert Pending(s) == [s.events[0].n] + (Announced(s.events[1..]) + s.held);
  }

  lemma {:induction false} ProcessKeepsCache(rows: Rows, s: State)
    requires CacheInv(rows, s) && s.events != [] && s.events[0].UpdateTransaction?
    ensures CacheInv(rows, ProcessOne(rows, s))
  {
    var n := s.events[0].n;
    var s' := ProcessOne(rows, s);
    assert Settles(rows, s, n.hash);
    UpdateReplacesOneBlock(rows, n.hash in s.wallet, s.cache, n);
    PendingBeforeProcess(rows, s);
    forall g ensures Settles(rows, s', g) {
      assert Settles(rows, s, g);
      if g == n.hash {
        EventuallyMonotone(g, Pending(s'));
      }
    }
  }

  /** A state with the same list, wallet and pending notifications keeps the invariant. */
  lemma {:induction false} SamePendingKeepsCache(rows: Rows, s: State, s': State)
    requires CacheInv(rows, s)
    requires s'.cache == s.cache && s'.wallet == s.wallet && Pending(s') == Pending(s)
             && (!s'.batching ==> s'.held == [])
    ensures CacheInv(rows, s')
  {
    forall g ensures Settles(rows, s', g) { assert Settles(rows, s, g); }
  }

  lemma {:induction false} ProgressKeepsPending(s: State, percent: int)
    ensures Pending(ShowProgress(s, percent)) == Pending(s)
  {
    AnnouncedConcat(s.events, Flush(s.held));
    AnnouncedFlush(s.held);
    assert Announced(s.events) + s.held + [] == Announced(s.events) + s.held;
  }

  lemma {:induction false} StepKeepsCache(rows: Rows, s: State, step: Step)
    requires CacheInv(rows, s) && Enabled(s, step)
    ensures CacheInv(rows, Next(rows, s, step))
  {
    match step {
      case Add(h, shown) =>
        assert Settles(rows, s, h);
        WalletChangeKeepsCache(rows, s, s.wallet[h := shown], h, New);
      case Touch(h, shown) =>
        WalletChangeKeepsCache(rows, s, s.wallet[h := shown], h, Updated);
      case Remove(h) =>
        WalletChangeKeepsCache(rows, s, s.wallet - {h}, h, Deleted);
      case Progress(percent) =>
        ProgressKeepsPending(s, percent);
        SamePendingKeepsCache(rows, s, ShowProgress(s, percent));
      case Process =>
        if s.events[0].UpdateTransaction? {
          ProcessKeepsCache(rows, s);
        } else {
          SamePendingKeepsCache(rows, s, ProcessOne(rows, s));
        }
    }
  }

  lemma {:induction false} RunKeepsCache(rows: Rows, s: State, steps: seq<Step>)
    requires CacheInv(rows, s) && ValidRun(rows, s, steps)
    ensures CacheInv(rows, Run(rows, s, steps))
    decreases steps
  {
    if steps != [] {
      StepKeepsCache(rows, s, steps[0]);
      RunKeepsCache(rows, Next(rows, s, steps[0]), steps[1..]);
    }
  }

  lemma {:induction false} StartSettles(rows: Rows, wallet: Wallet, order: seq<Hash>)
    requires WellKeyed(rows) && Enumerates(order, wallet) && Sorted(Refresh(rows, wallet, order))
    ensures CacheInv(rows, Start(rows, wallet, order))
  {
    var s := Start(rows, wallet, order);
    RefreshAgrees(rows, wallet, order);
    assert Pending(s) == [];
    forall h ensures Settles(rows, s, h) {
      assert Block(s.cache, h) == Wanted(rows, wallet, h);
    }
  }

  lemma {:induction false} SettledAgrees(rows: Rows, s: State)
    requires CacheInv(rows, s) && Quiescent(s)
    ensures Agrees(rows, s.wallet, s.cache)
  {
    assert Pending(s) == [];
    forall h ensures Block(s.cache, h) == Wanted(rows, s.wallet, h) { assert Settles(rows, s, h); }
  }

  /** In every reachable state the list is sorted and each transaction's rows form one contiguous block, delimited by
      the two searches, that is either empty or its whole decomposition in order. */
  lemma {:induction false} RowsAreWholeBlocks(rows: Rows, wallet: Wallet, order: seq<Hash>, steps: seq<Step>, h: Hash)
    requires WellKeyed(rows) && Enumerates(order, wallet) && AscendingRows(rows, wallet, order)
    requires ValidRun(rows, Start(rows, wallet, order), steps)
    ensures var c := Run(rows, Start(rows, wallet, order), steps).cache;
            var lo, up := LowerBound(c, h, 0, |c|), UpperBound(c, h, 0, |c|);
            && Sorted(c) && lo <= up && c[lo..up] == Block(c, h)
            && (Block(c, h) == [] || Block(c, h) == rows(h))
  {
    RefreshSortedIffAscending(rows, wallet, order);
    StartSettles(rows, wallet, order);
    RunKeepsCache(rows, Start(rows, wallet, order), steps);
    var s := Run(rows, Start(rows, wallet, order), steps);
    assert Settles(rows, s, h);
    BoundsDelimitTheBlock(s.cache, h);
  }

  lemma {:induction false} BlockRowsDiffer(rows: Rows, c: seq<Record>, i: nat, j: nat, lo: nat, up: nat)
    requires WellKeyed(rows) && Sorted(c) && i < j < |c|
    requires lo == LowerBound(c, c[i].hash, 0, |c|) && up == UpperBound(c, c[i].hash, 0, |c|)
    requires lo < up && c[lo..up] == rows(c[i].hash)
    ensures c[i].hash != c[j].hash || c[i].idx != c[j].idx
  {
    var h := c[i].hash;
    var block := rows(h);
    SortedBounds(c, h);
    if c[j].hash == h {
      assert c[i] == c[lo..up][i - lo] == block[i - lo];
      assert c[j] == c[lo..up][j - lo] == block[j - lo];
    }
  }

  /** No two rows of a reachable list share (hash, idx). */
  lemma {:induction false} RowsAreUnique(rows: Rows, wallet: Wallet, order: seq<Hash>, steps: seq<Step>, i: nat, j: nat)
    requires WellKeyed(rows) && Enumerates(order, wallet) && AscendingRows(rows, wallet, order)
    requires ValidRun(rows, Start(rows, wallet, order), steps)
    requires i < j < |Run(rows, Start(rows, wallet, order), steps).cache|
    ensures var c := Run(rows, Start(rows, wallet, order), steps).cache; c[i].hash != c[j].hash || c[i].idx != c[j].idx
  {
    var c := Run(rows, Start(rows, wallet, order), steps).cache;
    RowsAreWholeBlocks(rows, wallet, order, steps, c[i].hash);
    SortedBounds(c, c[i].hash);
    BlockRowsDiffer(rows, c, i, j, LowerBound(c, c[i].hash, 0, |c|), UpperBound(c, c[i].hash, 0, |c|));
  }

  /** Quiescent consistency: however wallet changes, batching and delayed updates interleave, once nothing is
      pending the list is what a rebuild from the current wallet in hash order would produce. */
  lemma {:induction false} QuiescentConsistency(rows: Rows, wallet: Wallet, order: seq<Hash>, steps: seq<Step>,
                                                now: seq<Hash>)
    requires WellKeyed(rows) && Enumerates(order, wallet) && AscendingRows(rows, wallet, order)
    requires ValidRun(rows, Start(rows, wallet, order), steps)
    requires Quiescent(Run(rows, Start(rows, wallet, order), steps))
    requires Enumerates(now, Run(rows, Start(rows, wallet, order), steps).wallet)
    requires AscendingRows(rows, Run(rows, Start(rows, wallet, order), steps).wallet, now)
    ensures Run(rows, Start(rows, wallet, order), steps).cache
            == Refresh(rows, Run(rows, Start(rows, wallet, order), steps).wallet, now)
  {
    var s := Run(rows, Start(rows, wallet, order), steps);
    RefreshSortedIffAscending(rows, wallet, order);
    StartSettles(rows, wallet, order);
    RunKeepsCache(rows, Start(rows, wallet, order), steps);
    SettledAgrees(rows, s);
    RefreshAgrees(rows, s.wallet, now);
    RefreshSortedIffAscending(rows, s.wallet, now);
    SortedListIsItsBlocks(s.cache, Refresh(rows, s.wallet, now));
  }

  // ---------------------------------------------------------------- iteration order

  /** After every run from this start, once nothing is pending, the list displays what it should. */
  ghost predicate AlwaysConsistent(rows: Rows, wallet: Wallet, order: seq<Hash>) {
    forall steps: seq<Step> {:trigger ValidRun(rows, Start(rows, wallet, order), steps)} ::
      ValidRun(rows, Start(rows, wallet, order), steps) && Quiescent(Run(rows, Start(rows, wallet, order), steps))
      ==> var s := Run(rows, Start(rows, wallet, order), steps); Agrees(rows, s.wallet, s.cache)
  }

  lemma {:induction false} AnnounceAgain(rows: Rows, s: State, h: Hash)
    requires Quiescent(s) && !s.batching && Shown(s.wallet, h)
    ensures ValidRun(rows, s, [Touch(h, true), Process])
    ensures var s' := Run(rows, s, [Touch(h, true), Process]);
            && s'.wallet == s.wallet && Quiescent(s')
            && s'.cache == Update(rows, true, s.cache, Notification(h, Updated, true)).0
  {
    var steps := [Touch(h, true), Process];
    assert s.wallet[h := true] == s.wallet;
    var s1 := Next(rows, s, steps[0]);
    assert s1.events == [UpdateTransaction(Notification(h, Updated, true))];
    var s2 := Next(rows, s1, Process);
    assert steps[1..] == [Process] && [Process][1..] == [];
    assert ValidRun(rows, s2, []);
    assert ValidRun(rows, s1, [Process]);
    assert Run(rows, s1, [Process]) == Run(rows, s2, []) == s2;
  }

  /** A transaction one of whose rows its search misses gets all its rows a second time when it is announced as still
      shown. */
  lemma {:induction false} MissedRowsAreDoubled(rows: Rows, c: seq<Record>, i: nat, first: nat, last: nat)
    requires WellKeyed(rows) && i < |c| && OnlyAt(c, c[i].hash, first, last) && Block(c, c[i].hash) == rows(c[i].hash)
    requires !(LowerBound(c, c[i].hash, 0, |c|) <= i < UpperBound(c, c[i].hash, 0, |c|))
    ensures Block(Update(rows, true, c, Notification(c[i].hash, Updated, true)).0, c[i].hash) ==
            rows(c[i].hash) + rows(c[i].hash)
    ensures rows(c[i].hash) != []
  {
    var h := c[i].hash;
    var lo := LowerBound(c, h, 0, |c|);
    AllOrNothing(c, h, 0, |c|, first, last);
    BlockEmpty(c, h);
    OneSideIsEmpty(c, h, lo, first, last);
    InsertDoubles(c, h, lo, rows(h));
  }

  lemma {:induction false} AscendingStartStaysConsistent(rows: Rows, wallet: Wallet, order: seq<Hash>)
    requires WellKeyed(rows) && Enumerates(order, wallet) && AscendingRows(rows, wallet, order)
    ensures AlwaysConsistent(rows, wallet, order)
  {
    var s := Start(rows, wallet, order);
    RefreshSortedIffAscending(rows, wallet, order);
    StartSettles(rows, wallet, order);
    forall steps: seq<Step> | ValidRun(rows, s, steps) && Quiescent(Run(rows, s, steps))
      ensures Agrees(rows, Run(rows, s, steps).wallet, Run(rows, s, steps).cache)
    {
      RunKeepsCache(rows, s, steps);
      SettledAgrees(rows, Run(rows, s, steps));
    }
  }

  /** From any other start there is a shown transaction that its search misses: announcing it once more, unchanged,
      displays all its rows twice. */
  lemma {:induction false} OtherStartGoesWrong(rows: Rows, wallet: Wallet, order: seq<Hash>) returns (h: Hash)
    requires WellKeyed(rows) && Enumerates(order, wallet) && !AscendingRows(rows, wallet, order)
    ensures ValidRun(rows, Start(rows, wallet, order), [Touch(h, true), Process])
    ensures var s := Run(rows, Start(rows, wallet, order), [Touch(h, true), Process]);
            Quiescent(s) && s.wallet == wallet && Shown(wallet, h) && rows(h) != []
            && Block(s.cache, h) == rows(h) + rows(h)
  {
    var s := Start(rows, wallet, order);
    var c := s.cache;
    var i := SomeRowIsMissed(rows, wallet, order);
    h := c[i].hash;
    RefreshHashes(rows, wallet, order);
    AnnounceAgain(rows, s, h);
    var first, last := RefreshIsContiguous(rows, wallet, order, h);
    RefreshAgrees(rows, wallet, order);
    MissedRowsAreDoubled(rows, c, i, first, last);
  }

  lemma {:induction false} SomeRowIsMissed(rows: Rows, wallet: Wallet, order: seq<Hash>) returns (i: nat)
    requires WellKeyed(rows) && !AscendingRows(rows, wallet, order)
    ensures var c := Refresh(rows, wallet, order);
            i < |c| && !(LowerBound(c, c[i].hash, 0, |c|) <= i < UpperBound(c, c[i].hash, 0, |c|))
  {
    var c := Refresh(rows, wallet, order);
    RefreshSortedIffAscending(rows, wallet, order);
    SearchesWorkIffSorted(c);
    i :| 0 <= i < |c| && !(LowerBound(c, c[i].hash, 0, |c|) <= i < UpperBound(c, c[i].hash, 0, |c|));
  }

  /** The view stays consistent over all runs exactly when the wallet's map is iterated by ascending hash at the
      first rebuild (as far as transactions with rows are concerned); otherwise some rows come to be displayed twice. */
  lemma {:induction false} ConsistentIffIteratedInHashOrder(rows: Rows, wallet: Wallet, order: seq<Hash>)
    requires WellKeyed(rows) && Enumerates(order, wallet)
    ensures AlwaysConsistent(rows, wallet, order) <==> AscendingRows(rows, wallet, order)
  {
    if AscendingRows(rows, wallet, order) {
      AscendingStartStaysConsistent(rows, wallet, order);
    } else {
      var h := OtherStartGoesWrong(rows, wallet, order);
      var s := Run(rows, Start(rows, wallet, order), [Touch(h, true), Process]);
      assert Wanted(rows, s.wallet, h) == rows(h) && |Block(s.cache, h)| == 2 * |rows(h)|;
      assert !Agrees(rows, s.wallet, s.cache);
    }
  }
}
