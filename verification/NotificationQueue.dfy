/**
 How wallet notifications travel to the transaction view (NotifyTransactionChanged and ShowProgress in
 hub-qt/transactiontablemodel.cpp): posted at once as queued calls, or held back while a progress
 dialog is shown and posted together afterwards, all but the last ten without balloons.
 */
module NotificationQueue {
  import opened Sequences
  import opened TransactionRecords
  import opened TransactionTable

  const MAX_BALLOONS := 10

  /** A queued call into the view's thread. */
  datatype GuiEvent = UpdateTransaction(n: Notification) | SetProcessingQueued(value: bool)

  /** A notification together with whether its balloon is suppressed. */
  datatype Notice = Notice(n: Notification, suppressed: bool)

  /** What a flush posts for one notification; the last ten turn suppression off first. */
  function FlushHead(n: Notification, last: bool): seq<GuiEvent> {
    if last then [SetProcessingQueued(false), UpdateTransaction(n)] else [UpdateTransaction(n)]
  }

  /** What a flush posts for the held notifications from `i` on. */
  function FlushFrom(held: seq<Notification>, i: nat): seq<GuiEvent>
    requires i <= |held|
    decreases |held| - i
  {
    if i == |held| then [] else FlushHead(held[i], |held| - i <= MAX_BALLOONS) + FlushFrom(held, i + 1)
  }

  function Flush(held: seq<Notification>): seq<GuiEvent> {
    (if |held| > MAX_BALLOONS then [SetProcessingQueued(true)] else []) + FlushFrom(held, 0)
  }

  /** What a flush is meant to deliver: every notification, in order, the last ten with balloons. */
  function Intended(held: seq<Notification>): seq<Notice> {
    seq(|held|, i requires 0 <= i < |held| => Notice(held[i], |held| - i > MAX_BALLOONS))
  }

  /** The notifications the view receives from `events`, when suppression is `flag` at the start. */
  function Delivered(flag: bool, events: seq<GuiEvent>): seq<Notice>
    decreases events
  {
    if events == [] then []
    else match events[0]
      case UpdateTransaction(n) => [Notice(n, flag)] + Delivered(flag, events[1..])
      case SetProcessingQueued(value) => Delivered(value, events[1..])
  }

  function FlagAfter(flag: bool, events: seq<GuiEvent>): bool
    decreases events
  {
    if events == [] then flag
    else match events[0]
      case UpdateTransaction(n) => FlagAfter(flag, events[1..])
      case SetProcessingQueued(value) => FlagAfter(value, events[1..])
  }

  lemma {:induction false} DeliveredConcat(flag: bool, a: seq<GuiEvent>, b: seq<GuiEvent>)
    ensures Delivered(flag, a + b) == Delivered(flag, a) + Delivered(FlagAfter(flag, a), b)
    ensures FlagAfter(flag, a + b) == FlagAfter(FlagAfter(flag, a), b)
    decreases a
  {
    if a == [] {
      assert a + b == b;
      assert Delivered(flag, a) + Delivered(flag, b) == Delivered(flag, b);
    } else {
      var tail := a[1..];
      assert (a + b)[1..] == tail + b && (a + b)[0] == a[0];
      match a[0] {
        case UpdateTransaction(n) =>
          DeliveredConcat(flag, tail, b);
          JoinAssociates([Notice(n, flag)], Delivered(flag, tail), Delivered(FlagAfter(flag, tail), b));
        case SetProcessingQueued(value) => DeliveredConcat(value, tail, b);
      }
    }
  }

  lemma {:induction false} DeliveredOne(flag: bool, n: Notification)
    ensures Delivered(flag, [UpdateTransaction(n)]) == [Notice(n, flag)]
    ensures FlagAfter(flag, [UpdateTransaction(n)]) == flag
  {
    assert [UpdateTransaction(n)][1..] == [];
  }

  lemma {:induction false} DeliveredFlag(flag: bool, value: bool)
    ensures Delivered(flag, [SetProcessingQueued(value)]) == []
    ensures FlagAfter(flag, [SetProcessingQueued(value)]) == value
  {
    assert [SetProcessingQueued(value)][1..] == [];
  }

  lemma {:induction false} DeliveredHead(flag: bool, n: Notification, last: bool)
    ensures Delivered(flag, FlushHead(n, last)) == [Notice(n, flag && !last)]
    ensures FlagAfter(flag, FlushHead(n, last)) == (flag && !last)
  {
    if last {
      assert FlushHead(n, last)[1..] == [UpdateTransaction(n)];
      DeliveredOne(false, n);
    } else {
      DeliveredOne(flag, n);
    }
  }

  lemma {:induction false} IntendedTail(held: seq<Notification>, i: nat)
    requires i < |held|
    ensures Intended(held)[i..] == [Notice(held[i], |held| - i > MAX_BALLOONS)] + Intended(held)[i + 1..]
  {
  }

  lemma {:induction false} FlushFromDelivers(held: seq<Notification>, i: nat, flag: bool)
    requires i <= |held| && (|held| - i > MAX_BALLOONS ==> flag)
    ensures Delivered(flag, FlushFrom(held, i)) == Intended(held)[i..]
    ensures FlagAfter(flag, FlushFrom(held, i)) == (flag && i == |held|)
    decreases |held| - i
  {
    if i < |held| {
      var last := |held| - i <= MAX_BALLOONS;
      DeliveredConcat(flag, FlushHead(held[i], last), FlushFrom(held, i + 1));
      DeliveredHead(flag, held[i], last);
      FlushFromDelivers(held, i + 1, flag && !last);
      IntendedTail(held, i);
    }
  }

  /** A flush delivers every held notification once, in order, the last min(n, 10) with balloons, and leaves
      suppression off. */
  lemma {:induction false} FlushDelivers(held: seq<Notification>)
    ensures Delivered(false, Flush(held)) == Intended(held)
    ensures FlagAfter(false, Flush(held)) == false
  {
    if |held| > MAX_BALLOONS {
      assert Flush(held) == [SetProcessingQueued(true)] + FlushFrom(held, 0);
      DeliveredConcat(false, [SetProcessingQueued(true)], FlushFrom(held, 0));
      DeliveredFlag(false, true);
      FlushFromDelivers(held, 0, true);
    } else {
      assert Flush(held) == FlushFrom(held, 0);
      FlushFromDelivers(held, 0, false);
    }
    assert Intended(held)[0..] == Intended(held);
  }

  function Suppressed(notices: seq<Notice>): nat {
    if notices == [] then 0 else (if notices[0].suppressed then 1 else 0) + Suppressed(notices[1..])
  }

  lemma {:induction false} SuppressedFrom(held: seq<Notification>, i: nat)
    requires i <= |held|
    ensures Suppressed(Intended(held)[i..]) == if |held| - i > MAX_BALLOONS then |held| - i - MAX_BALLOONS else 0
    decreases |held| - i
  {
    if i < |held| {
      SuppressedFrom(held, i + 1);
      assert Intended(held)[i..][1..] == Intended(held)[i + 1..];
    }
  }

  /** Of n flushed notifications exactly the last min(n, 10) reach the view with balloons enabled. */
  lemma {:induction false} FlushBalloons(held: seq<Notification>)
    ensures |held| - Suppressed(Delivered(false, Flush(held))) == if |held| < 10 then |held| else 10
    ensures forall i :: 0 <= i < |held| ==>
              |Delivered(false, Flush(held))| == |held|
              && Delivered(false, Flush(held))[i] == Notice(held[i], i < |held| - 10)
  {
    FlushDelivers(held);
    SuppressedFrom(held, 0);
    assert Intended(held)[0..] == Intended(held);
  }

  /** Whether notifications are held back, those held back, and the calls posted to the view. */
  datatype Queues = Queues(batching: bool, held: seq<Notification>, events: seq<GuiEvent>)

  /** One notification of the wallet. */
  function Announce(q: Queues, n: Notification): Queues {
    if q.batching then q.(held := q.held + [n]) else q.(events := q.events + [UpdateTransaction(n)])
  }

  /** A progress dialog starts at 0 and ends at 100, when what was held back is posted. */
  function Advance(q: Queues, percent: int): Queues {
    if percent == 100 then Queues(false, [], q.events + Flush(q.held))
    else if percent == 0 then q.(batching := true)
    else q
  }

  /** The static queue and the view's event queue. */
  class Notifier {
    var batching: bool
    var held: seq<Notification>
    var posted: seq<GuiEvent>

    constructor ()
      ensures !batching && held == [] && posted == []
    {
      batching, held, posted := false, [], [];
    }

    ghost function State(): Queues
      reads this
    {
      Queues(batching, held, posted)
    }

    method NotifyTransactionChanged(wallet: Wallet, hash: Hash, status: ChangeType)
      modifies this`held, this`posted
      ensures State() == Announce(old(State()), Notification(hash, status, Shown(wallet, hash)))
    {
      var inWallet := hash in wallet;
      var show := inWallet && wallet[hash];
      var n := Notification(hash, status, show);
      if batching {
        held := held + [n];
        return;
      }
      posted := posted + [UpdateTransaction(n)];
    }

    method PostOne(n: Notification, last: bool)
      modifies this`posted
      ensures posted == old(posted) + FlushHead(n, last)
    {
      if last {
        posted := posted + [SetProcessingQueued(false)];
      }
      posted := posted + [UpdateTransaction(n)];
    }

    method PostHeld()
      modifies this`posted
      ensures posted == old(posted) + FlushFrom(held, 0)
    {
      for i := 0 to |held|
        invariant posted + FlushFrom(held, i) == old(posted) + FlushFrom(held, 0)
      {
        JoinAssociates(posted, FlushHead(held[i], |held| - i <= MAX_BALLOONS), FlushFrom(held, i + 1));
        PostOne(held[i], |held| - i <= MAX_BALLOONS);
      }
      assert posted + FlushFrom(held, |held|) == posted;
    }

    method ShowProgress(nProgress: int)
      modifies this
      ensures State() == Advance(old(State()), nProgress)
    {
      if nProgress == 0 {
        batching := true;
      }
      if nProgress == 100 {
        batching := false;
        if |held| > MAX_BALLOONS {
          JoinAssociates(posted, [SetProcessingQueued(true)], FlushFrom(held, 0));
          posted := posted + [SetProcessingQueued(true)];
        } else {
          assert Flush(held) == FlushFrom(held, 0);
        }
        PostHeld();
        held := [];
      }
    }
  }
}
