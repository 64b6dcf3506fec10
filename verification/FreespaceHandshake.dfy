/**
 The handshake between the data-directory dialog and its free-space checker thread (hub-qt/intro.cpp).

 The dialog writes the path to check under a mutex and posts at most one request; the checker reads the
 path under the mutex, looks at the file system and posts its reply.  Every statement of the two critical
 sections is a step of its own; the file system may answer anything.
 */
module FreespaceHandshake {
  import opened Options

  type Path = string

  datatype Status = ST_OK | ST_ERROR

  datatype Reply = Reply(path: Path, status: Status)

  /** Where the dialog's thread is in on_dataDirectory_textChanged and checkPath. */
  datatype Dialog =
    | Idle
    | Entering(path: Path)   // OK is disabled, the mutex not yet taken
    | Locked(path: Path)
    | Written(path: Path)    // pathToCheck has been written
    | Signalling             // signalled has been set, the request not yet posted
    | Leaving                // about to release the mutex

  /** Where the checker's thread is in check and getPathToCheck. */
  datatype Checker =
    | Waiting
    | Called                 // the request has been taken from the queue
    | Inside                 // holds the mutex
    | Read(path: Path)
    | Cleared(path: Path)    // signalled has been reset
    | Checking(path: Path)   // the mutex is released

  datatype Owner = Free | ByDialog | ByChecker

  /** `text` is what the user entered last; `applied` is the reply setStatus was last called with. */
  datatype State = State(dialog: Dialog, checker: Checker, mutex: Owner, pathToCheck: Path, signalled: bool,
                         requests: nat, replies: seq<Reply>, okEnabled: bool, text: Option<Path>,
                         applied: Option<Reply>)

  datatype Step =
    | Enter(path: Path) | Lock | Write | Test | Post | Unlock | Apply
    | Take | CheckerLock | ReadPath | Clear | CheckerUnlock | Answer(status: Status)

  const INITIAL := State(Idle, Waiting, Free, "", false, 0, [], true, None, None)

  predicate Enabled(s: State, step: Step) {
    match step
    case Enter(_) => s.dialog.Idle?
    case Lock => s.dialog.Entering? && s.mutex.Free?
    case Write => s.dialog.Locked?
    case Test => s.dialog.Written?
    case Post => s.dialog.Signalling?
    case Unlock => s.dialog.Leaving?
    case Apply => s.dialog.Idle? && s.replies != []
    case Take => s.checker.Waiting? && s.requests > 0
    case CheckerLock => s.checker.Called? && s.mutex.Free?
    case ReadPath => s.checker.Inside?
    case Clear => s.checker.Read?
    case CheckerUnlock => s.checker.Cleared?
    case Answer(_) => s.checker.Checking?
  }

  function Next(s: State, step: Step): State
    requires Enabled(s, step)
  {
    match step
    case Enter(p) => s.(dialog := Entering(p), text := Some(p), okEnabled := false)
    case Lock => s.(dialog := Locked(s.dialog.path), mutex := ByDialog)
    case Write => s.(dialog := Written(s.dialog.path), pathToCheck := s.dialog.path)
    case Test => if s.signalled then s.(dialog := Leaving) else s.(dialog := Signalling, signalled := true)
    case Post => s.(dialog := Leaving, requests := s.requests + 1)
    case Unlock => s.(dialog := Idle, mutex := Free)
    case Apply => s.(okEnabled := s.replies[0].status.ST_OK?, applied := Some(s.replies[0]), replies := s.replies[1..])
    case Take => s.(checker := Called, requests := s.requests - 1)
    case CheckerLock => s.(checker := Inside, mutex := ByChecker)
    case ReadPath => s.(checker := Read(s.pathToCheck))
    case Clear => s.(checker := Cleared(s.checker.path), signalled := false)
    case CheckerUnlock => s.(checker := Checking(s.checker.path), mutex := Free)
    case Answer(status) => s.(checker := Waiting, replies := s.replies + [Reply(s.checker.path, status)])
  }

  ghost predicate ValidRun(s: State, steps: seq<Step>)
    decreases steps
  {
    steps == [] || (Enabled(s, steps[0]) && ValidRun(Next(s, steps[0]), steps[1..]))
  }

  ghost function Run(s: State, steps: seq<Step>): State
    requires ValidRun(s, steps)
    decreases steps
  {
    if steps == [] then s else Run(Next(s, steps[0]), steps[1..])
  }

  // ---------------------------------------------------------------- invariant

  /** Requests posted but not yet read by the checker. */
  function Unread(s: State): nat {
    s.requests + if s.checker.Called? || s.checker.Inside? || s.checker.Read? then 1 else 0
  }

  /** The most recent path the checker has read, wherever its result is now. */
  function Newest(s: State): Option<Path> {
    if s.checker.Cleared? || s.checker.Checking? then Some(s.checker.path)
    else if s.replies != [] then Some(s.replies[|s.replies| - 1].path)
    else if s.applied.Some? then Some(s.applied.value.path)
    else None
  }

  /** Something is queued, running or in transit. */
  predicate Pending(s: State) { !s.dialog.Idle? || !s.checker.Waiting? || s.requests > 0 || s.replies != [] }

  ghost predicate Inv(s: State) {
    // the mutex protects the two critical sections
    && (s.mutex.ByDialog? <==> s.dialog.Locked? || s.dialog.Written? || s.dialog.Signalling? || s.dialog.Leaving?)
    && (s.mutex.ByChecker? <==> s.checker.Inside? || s.checker.Read? || s.checker.Cleared?)
    // at most one unread request, exactly when signalled
    && Unread(s) + (if s.dialog.Signalling? then 1 else 0) == (if s.signalled then 1 else 0)
    && (s.dialog.Leaving? ==> s.signalled)
    // what was entered last is what will be, or has been, checked
    && (s.text.None? <==> s.dialog.Idle? && !Pending(s) && s.applied.None?)
    && (s.dialog.Entering? || s.dialog.Locked? || s.dialog.Written? ==> s.text == Some(s.dialog.path))
    && (s.text.Some? && !s.dialog.Entering? && !s.dialog.Locked? ==> s.text == Some(s.pathToCheck))
    && (s.checker.Read? || s.checker.Cleared? ==> s.checker.path == s.pathToCheck)
    && (s.text.Some? && !s.dialog.Entering? && !s.dialog.Locked? && !s.dialog.Written? && !s.signalled ==>
        Newest(s) == s.text)
    // the button shows the last status, unless a path has been entered since
    && (s.text.Some? && !Pending(s) ==> s.applied.Some? && s.okEnabled == s.applied.value.status.ST_OK?)
    && (s.text.Some? && s.okEnabled ==> s.applied.Some? && s.applied.value.status.ST_OK?)
  }

  lemma {:induction false} DialogKeepsInv(s: State, step: Step)
    requires Inv(s) && Enabled(s, step)
    requires step.Enter? || step.Lock? || step.Write? || step.Test? || step.Post? || step.Unlock? || step.Apply?
    ensures Inv(Next(s, step))
  {
  }

  lemma {:induction false} CheckerKeepsInv(s: State, step: Step)
    requires Inv(s) && Enabled(s, step)
    requires step.Take? || step.CheckerLock? || step.ReadPath? || step.Clear? || step.CheckerUnlock? || step.Answer?
    ensures Inv(Next(s, step))
  {
  }

  lemma {:induction false} StepKeepsInv(s: State, step: Step)
    requires Inv(s) && Enabled(s, step)
    ensures Inv(Next(s, step))
  {
    if step.Enter? || step.Lock? || step.Write? || step.Test? || step.Post? || step.Unlock? || step.Apply? {
      DialogKeepsInv(s, step);
    } else {
      CheckerKeepsInv(s, step);
    }
  }

  lemma {:induction false} RunKeepsInv(s: State, steps: seq<Step>)
    requires Inv(s) && ValidRun(s, steps)
    ensures Inv(Run(s, steps))
    decreases steps
  {
    if steps != [] {
      StepKeepsInv(s, steps[0]);
      RunKeepsInv(Next(s, steps[0]), steps[1..]);
    }
  }

  /** Over all interleavings at most one request is unread, the queue never holds more than one, and outside the
      dialog's critical section there is one exactly when `signalled` is set. */
  lemma {:induction false} AtMostOneRequest(steps: seq<Step>)
    requires ValidRun(INITIAL, steps)
    ensures var s := Run(INITIAL, steps);
            && s.requests <= Unread(s) <= 1
            && (!s.mutex.ByDialog? ==> (s.signalled <==> Unread(s) == 1))
  {
    RunKeepsInv(INITIAL, steps);
  }

  /** The two critical sections exclude each other. */
  lemma {:induction false} MutualExclusion(steps: seq<Step>)
    requires ValidRun(INITIAL, steps)
    ensures var s := Run(INITIAL, steps);
            !((s.dialog.Locked? || s.dialog.Written? || s.dialog.Signalling? || s.dialog.Leaving?)
              && (s.checker.Inside? || s.checker.Read? || s.checker.Cleared?))
  {
    RunKeepsInv(INITIAL, steps);
  }

  /** When nothing is queued, running or in transit, the status on display is for the path entered last, and the OK
      button reflects it. */
  lemma {:induction false} QuiescentStatusIsForLatestPath(steps: seq<Step>)
    requires ValidRun(INITIAL, steps) && !Pending(Run(INITIAL, steps)) && Run(INITIAL, steps).text.Some?
    ensures var s := Run(INITIAL, steps);
            && s.applied.Some? && Some(s.applied.value.path) == s.text
            && s.okEnabled == s.applied.value.status.ST_OK?
  {
    RunKeepsInv(INITIAL, steps);
  }

  /** A result for the path entered last is still to come: the path is on its way to `pathToCheck`, an unread request
      will find it there, the checker is at work on it, or its reply is the last one in transit. */
  predicate CheckToCome(s: State) {
    && s.text.Some?
    && (|| s.dialog.Entering? || s.dialog.Locked? || s.dialog.Written? || s.dialog.Signalling?
        || (Unread(s) > 0 && Some(s.pathToCheck) == s.text)
        || ((s.checker.Cleared? || s.checker.Checking?) && Some(s.checker.path) == s.text)
        || (s.replies != [] && Some(s.replies[|s.replies| - 1].path) == s.text))
  }

  /** In every state an enabled OK button stems from an OK status; it is for the path entered last, or a result for
      that path is still to come. */
  lemma {:induction false} EnabledOkIsCurrentOrTransient(steps: seq<Step>)
    requires ValidRun(INITIAL, steps) && Run(INITIAL, steps).text.Some? && Run(INITIAL, steps).okEnabled
    ensures var s := Run(INITIAL, steps);
            && s.applied.Some? && s.applied.value.status.ST_OK?
            && (Some(s.applied.value.path) == s.text || CheckToCome(s))
  {
    RunKeepsInv(INITIAL, steps);
  }

  // ---------------------------------------------------------------- progress

  function DialogSteps(d: Dialog): nat {
    match d
    case Idle => 0
    case Entering(_) => 12
    case Locked(_) => 11
    case Written(_) => 10
    case Signalling => 9
    case Leaving => 1
  }

  function CheckerSteps(c: Checker): nat {
    match c
    case Waiting => 0
    case Called => 6
    case Inside => 5
    case Read(_) => 4
    case Cleared(_) => 3
    case Checking(_) => 2
  }

  /** An upper bound on the steps that are left if nothing is entered any more. */
  function StepsLeft(s: State): nat { DialogSteps(s.dialog) + CheckerSteps(s.checker) + 7 * s.requests + |s.replies| }

  lemma {:induction false} StepUsesUp(s: State, step: Step)
    requires Enabled(s, step) && !step.Enter?
    ensures StepsLeft(Next(s, step)) < StepsLeft(s)
  {
  }

  predicate NoEntry(steps: seq<Step>) { forall k :: 0 <= k < |steps| ==> !steps[k].Enter? }

  /** A run in which nothing is entered is bounded. */
  lemma {:induction false} QuietRunsAreBounded(s: State, steps: seq<Step>)
    requires ValidRun(s, steps) && NoEntry(steps)
    ensures |steps| + StepsLeft(Run(s, steps)) <= StepsLeft(s)
    decreases steps
  {
    if steps != [] {
      StepUsesUp(s, steps[0]);
      assert forall k :: 0 <= k < |steps[1..]| ==> steps[1..][k] == steps[k + 1];
      QuietRunsAreBounded(Next(s, steps[0]), steps[1..]);
    }
  }

  /** The next step of the checker, if it has one. */
  function CheckerStep(s: State): Step {
    match s.checker
    case Waiting => Take
    case Called => CheckerLock
    case Inside => ReadPath
    case Read(_) => Clear
    case Cleared(_) => CheckerUnlock
    case Checking(_) => Answer(ST_OK)
  }

  /** The next step of the dialog, if it has one. */
  function DialogStep(s: State): Step {
    match s.dialog
    case Idle => Apply
    case Entering(_) => Lock
    case Locked(_) => Write
    case Written(_) => Test
    case Signalling => Post
    case Leaving => Unlock
  }

  /** As long as something is pending, one of the threads can go on without anything being entered. */
  lemma {:induction false} PendingCanGoOn(s: State)
    requires Inv(s) && Pending(s)
    ensures Enabled(s, DialogStep(s)) || Enabled(s, CheckerStep(s))
  {
  }

  lemma {:induction false} Prepend(s: State, step: Step, rest: seq<Step>)
    requires Enabled(s, step) && !step.Enter? && ValidRun(Next(s, step), rest) && NoEntry(rest)
    ensures ValidRun(s, [step] + rest) && NoEntry([step] + rest) && Run(s, [step] + rest) == Run(Next(s, step), rest)
  {
    assert ([step] + rest)[1..] == rest;
  }

  /** From every reachable state, if nothing is entered, all runs are bounded, and there is one after which nothing
      is pending. */
  lemma {:induction false} QuietSystemSettles(s: State) returns (steps: seq<Step>)
    requires Inv(s)
    ensures ValidRun(s, steps) && NoEntry(steps) && !Pending(Run(s, steps))
    decreases StepsLeft(s)
  {
    if !Pending(s) {
      steps := [];
    } else {
      PendingCanGoOn(s);
      var step := if Enabled(s, DialogStep(s)) then DialogStep(s) else CheckerStep(s);
      StepUsesUp(s, step);
      StepKeepsInv(s, step);
      var rest := QuietSystemSettles(Next(s, step));
      Prepend(s, step, rest);
      steps := [step] + rest;
    }
  }

  /** The most recently entered path is always checked: from every reachable state there is a run without further
      entries after which nothing is pending and the status shown is for that path. */
  lemma {:induction false} LatestPathIsChecked(steps: seq<Step>) returns (rest: seq<Step>)
    requires ValidRun(INITIAL, steps) && Run(INITIAL, steps).text.Some?
    ensures var s := Run(INITIAL, steps);
            && ValidRun(s, rest) && NoEntry(rest) && |rest| <= StepsLeft(s)
            && !Pending(Run(s, rest)) && Run(s, rest).applied.Some? && Some(Run(s, rest).applied.value.path) == s.text
  {
    RunKeepsInv(INITIAL, steps);
    var s := Run(INITIAL, steps);
    rest := QuietSystemSettles(s);
    QuietRunsAreBounded(s, rest);
    RunKeepsInv(s, rest);
    QuietRunKeepsText(s, rest);
  }

  lemma {:induction false} QuietRunKeepsText(s: State, steps: seq<Step>)
    requires ValidRun(s, steps) && NoEntry(steps)
    ensures Run(s, steps).text == s.text
    decreases steps
  {
    if steps != [] {
      assert forall k :: 0 <= k < |steps[1..]| ==> steps[1..][k] == steps[k + 1];
      QuietRunKeepsText(Next(s, steps[0]), steps[1..]);
    }
  }

  // ---------------------------------------------------------------- stale replies

  /** The OK button is enabled by the result for a path other than the one entered last. */
  predicate StaleOk(s: State) { s.text.Some? && s.okEnabled && s.applied.Some? && Some(s.applied.value.path) != s.text }

  // ---------------------------------------------------------------- exactly when a stale result can enable OK

  /** An OK for another path is on its way to the dialog. */
  ghost predicate StaleReply(s: State) {
    exists j :: 0 <= j < |s.replies| && s.replies[j].status.ST_OK? && Some(s.replies[j].path) != s.text
  }

  /** The checker holds another path. */
  predicate StaleCheck(s: State) {
    (s.checker.Read? || s.checker.Cleared? || s.checker.Checking?) && Some(s.checker.path) != s.text
  }

  /** The dialog has not taken the mutex, and an unread request can still find another path. */
  predicate StaleRequest(s: State) {
    s.dialog.Entering? && (s.requests > 0 || s.checker.Called? || s.checker.Inside?) && Some(s.pathToCheck) != s.text
  }

  /** A result for another path can still arrive. */
  ghost predicate StaleResultOnItsWay(s: State) { s.text.Some? && (StaleReply(s) || StaleCheck(s) || StaleRequest(s)) }

  ghost predicate Endangered(s: State) { StaleOk(s) || StaleResultOnItsWay(s) }

  lemma {:induction false} FewerReplies(s: State, s': State)
    requires s'.text == s.text && !StaleReply(s)
    requires forall j :: 0 <= j < |s'.replies| ==>
                         s'.replies[j] in s.replies || !s'.replies[j].status.ST_OK?
                         || Some(s'.replies[j].path) == s.text
    ensures !StaleReply(s')
  {
  }

  lemma {:induction false} StepKeepsSafe(s: State, step: Step)
    requires Inv(s) && !Endangered(s) && Enabled(s, step) && !step.Enter?
    ensures !Endangered(Next(s, step))
  {
    if s.text.Some? {
      FewerReplies(s, Next(s, step));
    }
  }

  lemma {:induction false} QuietRunKeepsSafe(s: State, steps: seq<Step>)
    requires Inv(s) && !Endangered(s) && ValidRun(s, steps) && NoEntry(steps)
    ensures !StaleOk(Run(s, steps))
    decreases steps
  {
    if steps != [] {
      StepKeepsSafe(s, steps[0]);
      StepKeepsInv(s, steps[0]);
      assert forall k :: 0 <= k < |steps[1..]| ==> steps[1..][k] == steps[k + 1];
      QuietRunKeepsSafe(Next(s, steps[0]), steps[1..]);
    }
  }

  /** With a stale reply in transit the dialog comes to apply it. */
  lemma {:induction false} TowardsReply(s: State) returns (step: Step)
    requires Inv(s) && s.text.Some? && StaleReply(s)
    ensures Enabled(s, step) && !step.Enter? && Endangered(Next(s, step))
  {
    step := if Enabled(s, DialogStep(s)) then DialogStep(s) else CheckerStep(s);
    var j :| 0 <= j < |s.replies| && s.replies[j].status.ST_OK? && Some(s.replies[j].path) != s.text;
    var s' := Next(s, step);
    if step.Apply? {
      if j > 0 { assert s'.replies[j - 1] == s.replies[j]; }
    } else {
      assert s'.replies[j] == s.replies[j];
    }
  }

  lemma {:induction false} TowardsStale(s: State) returns (step: Step)
    requires Inv(s) && StaleResultOnItsWay(s)
    ensures Enabled(s, step) && !step.Enter? && Endangered(Next(s, step))
  {
    if StaleReply(s) {
      step := TowardsReply(s);
    } else {
      step := CheckerStep(s);
      var s' := Next(s, step);
      if step.Answer? && StaleCheck(s) { assert s'.replies[|s.replies|] == Reply(s.checker.path, ST_OK); }
    }
  }

  lemma {:induction false} EndangeredGoesStale(s: State) returns (steps: seq<Step>)
    requires Inv(s) && Endangered(s)
    ensures ValidRun(s, steps) && NoEntry(steps) && StaleOk(Run(s, steps))
    decreases StepsLeft(s)
  {
    if StaleOk(s) {
      steps := [];
    } else {
      var step := TowardsStale(s);
      StepUsesUp(s, step);
      StepKeepsInv(s, step);
      var rest := EndangeredGoesStale(Next(s, step));
      Prepend(s, step, rest);
      steps := [step] + rest;
    }
  }

  /** In every reachable state: without entering anything more, a run to a state in which OK is enabled by the result
      for another path exists exactly when that is so already or a result for another path can still arrive. */
  lemma {:induction false} StaleOkIff(entered: seq<Step>)
    requires ValidRun(INITIAL, entered)
    ensures var s := Run(INITIAL, entered);
            (exists steps :: ValidRun(s, steps) && NoEntry(steps) && StaleOk(Run(s, steps))) <==>
            StaleOk(s) || StaleResultOnItsWay(s)
  {
    RunKeepsInv(INITIAL, entered);
    HarmlessIff(Run(INITIAL, entered));
  }

  /** Without entering anything more, OK is not going to be enabled by the result for another path. */
  ghost predicate Harmless(s: State) {
    !exists steps :: ValidRun(s, steps) && NoEntry(steps) && StaleOk(Run(s, steps))
  }

  /** All states of the run are harmless. */
  ghost predicate HarmlessThroughout(s: State, steps: seq<Step>)
    requires ValidRun(s, steps)
    decreases steps
  {
    Harmless(s) && (steps == [] || HarmlessThroughout(Next(s, steps[0]), steps[1..]))
  }

  /** Whenever a path is entered, no result for another path can still arrive. */
  ghost predicate Careful(s: State, steps: seq<Step>)
    requires ValidRun(s, steps)
    decreases steps
  {
    steps == []
    || ((steps[0].Enter? ==> !StaleResultOnItsWay(Next(s, steps[0]))) && Careful(Next(s, steps[0]), steps[1..]))
  }

  lemma {:induction false} HarmlessIff(s: State)
    requires Inv(s)
    ensures Harmless(s) <==> !Endangered(s)
  {
    if Endangered(s) {
      var steps := EndangeredGoesStale(s);
    } else if steps :| ValidRun(s, steps) && NoEntry(steps) && StaleOk(Run(s, steps)) {
      QuietRunKeepsSafe(s, steps);
    }
  }

  lemma {:induction false} HarmlessIffCarefulFrom(s: State, steps: seq<Step>)
    requires Inv(s) && !Endangered(s) && ValidRun(s, steps)
    ensures HarmlessThroughout(s, steps) <==> Careful(s, steps)
    decreases steps
  {
    HarmlessIff(s);
    if steps != [] {
      var s' := Next(s, steps[0]);
      StepKeepsInv(s, steps[0]);
      HarmlessIff(s');
      if !steps[0].Enter? { StepKeepsSafe(s, steps[0]); }
      if !Endangered(s') { HarmlessIffCarefulFrom(s', steps[1..]); }
    }
  }

  /** Over every run from the start, no state of it can lead to an OK for another path without a further entry
      exactly when each path was entered while no result for another path could still arrive. */
  lemma {:induction false} HarmlessIffCareful(steps: seq<Step>)
    requires ValidRun(INITIAL, steps)
    ensures HarmlessThroughout(INITIAL, steps) <==> Careful(INITIAL, steps)
  {
    HarmlessIffCarefulFrom(INITIAL, steps);
  }

  /** Paths are entered only when nothing is pending. */
  ghost predicate Patient(s: State, steps: seq<Step>)
    requires ValidRun(s, steps)
    decreases steps
  {
    steps == [] || ((steps[0].Enter? ==> !Pending(s)) && Patient(Next(s, steps[0]), steps[1..]))
  }

  lemma {:induction false} PatientIsCareful(s: State, steps: seq<Step>)
    requires ValidRun(s, steps) && Patient(s, steps)
    ensures Careful(s, steps)
    decreases steps
  {
    if steps != [] { PatientIsCareful(Next(s, steps[0]), steps[1..]); }
  }

  lemma {:induction false} HarmlessAtTheEnd(s: State, steps: seq<Step>)
    requires ValidRun(s, steps) && HarmlessThroughout(s, steps)
    ensures Harmless(Run(s, steps))
    decreases steps
  {
    if steps != [] { HarmlessAtTheEnd(Next(s, steps[0]), steps[1..]); }
  }

  /** If the user waits for each result before entering the next path, OK is never enabled by a stale result. */
  lemma {:induction false} PatientUserSeesNoStaleOk(steps: seq<Step>)
    requires ValidRun(INITIAL, steps) && Patient(INITIAL, steps)
    ensures !StaleOk(Run(INITIAL, steps))
  {
    PatientIsCareful(INITIAL, steps);
    HarmlessIffCareful(steps);
    HarmlessAtTheEnd(INITIAL, steps);
    var s := Run(INITIAL, steps);
    var none: seq<Step> := [];
    assert ValidRun(s, none) && NoEntry(none) && Run(s, none) == s;
  }

  lemma {:induction false} RunJoins(s: State, a: seq<Step>, b: seq<Step>)
    requires ValidRun(s, a) && ValidRun(Run(s, a), b)
    ensures ValidRun(s, a + b) && Run(s, a + b) == Run(Run(s, a), b)
    decreases a
  {
    if a == [] {
      assert a + b == b;
    } else {
      assert (a + b)[1..] == a[1..] + b;
      RunJoins(Next(s, a[0]), a[1..], b);
    }
  }

  const FIRST_ENTRIES := [Enter("a"), Lock, Write, Test, Post, Unlock, Enter("b")]

  lemma {:induction false} SecondEntryEndangers()
    ensures ValidRun(INITIAL, FIRST_ENTRIES) && StaleResultOnItsWay(Run(INITIAL, FIRST_ENTRIES))
  {
    var s1 := Next(INITIAL, Enter("a"));
    var s2 := Next(s1, Lock);
    var s3 := Next(s2, Write);
    var s4 := Next(s3, Test);
    var s5 := Next(s4, Post);
    var s6 := Next(s5, Unlock);
    ListedStatesAreARun(FIRST_ENTRIES, [INITIAL, s1, s2, s3, s4, s5, s6, Next(s6, Enter("b"))]);
  }

  /** A run from the start: two paths are entered in a row, and the result for the first enables OK. */
  lemma {:induction false} ImpatientUserCanSeeStaleOk() returns (steps: seq<Step>)
    ensures ValidRun(INITIAL, steps) && FIRST_ENTRIES <= steps && StaleOk(Run(INITIAL, steps))
  {
    SecondEntryEndangers();
    RunKeepsInv(INITIAL, FIRST_ENTRIES);
    var rest := EndangeredGoesStale(Run(INITIAL, FIRST_ENTRIES));
    RunJoins(INITIAL, FIRST_ENTRIES, rest);
    steps := FIRST_ENTRIES + rest;
  }

  /** Steps that lead from each listed state to the next form a run. */
  lemma {:induction false} ListedStatesAreARun(steps: seq<Step>, states: seq<State>)
    requires |states| == |steps| + 1
    requires forall i :: 0 <= i < |steps| ==> Enabled(states[i], steps[i]) && Next(states[i], steps[i]) == states[i + 1]
    ensures ValidRun(states[0], steps) && Run(states[0], steps) == states[|states| - 1]
    decreases steps
  {
    if steps != [] {
      var rest, later := steps[1..], states[1..];
      forall i | 0 <= i < |rest| ensures Enabled(later[i], rest[i]) && Next(later[i], rest[i]) == later[i + 1] {
        assert rest[i] == steps[i + 1] && later[i] == states[i + 1];
      }
      ListedStatesAreARun(rest, later);
      assert Enabled(states[0], steps[0]) && Next(states[0], steps[0]) == later[0];
    }
  }

  /** The dialog's critical section, taken without interruption, has the effect of CheckPath. */
  lemma {:induction false} DialogSectionIsCheckPath(s: State)
    requires Inv(s) && s.dialog.Entering? && s.mutex.Free?
    ensures var steps := if s.signalled then [Lock, Write, Test, Unlock] else [Lock, Write, Test, Post, Unlock];
            && ValidRun(s, steps)
            && Run(s, steps) == s.(dialog := Idle, pathToCheck := s.dialog.path, signalled := true,
                                   requests := s.requests + if s.signalled then 0 else 1)
  {
    var s1 := Next(s, Lock);
    var s2 := Next(s1, Write);
    var s3 := Next(s2, Test);
    if s.signalled {
      ListedStatesAreARun([Lock, Write, Test, Unlock], [s, s1, s2, s3, Next(s3, Unlock)]);
    } else {
      var s4 := Next(s3, Post);
      ListedStatesAreARun([Lock, Write, Test, Post, Unlock], [s, s1, s2, s3, s4, Next(s4, Unlock)]);
    }
  }

  /** The checker's critical section, taken without interruption, has the effect of GetPathToCheck. */
  lemma {:induction false} CheckerSectionIsGetPathToCheck(s: State)
    requires Inv(s) && s.checker.Called? && s.mutex.Free?
    ensures var steps := [CheckerLock, ReadPath, Clear, CheckerUnlock];
            ValidRun(s, steps) && Run(s, steps) == s.(checker := Checking(s.pathToCheck), signalled := false)
  {
    var s1 := Next(s, CheckerLock);
    var s2 := Next(s1, ReadPath);
    var s3 := Next(s2, Clear);
    ListedStatesAreARun([CheckerLock, ReadPath, Clear, CheckerUnlock], [s, s1, s2, s3, Next(s3, CheckerUnlock)]);
  }

  // ---------------------------------------------------------------- the code

  /** The fields of the dialog that the two threads share, its queues and its OK button. */
  class Intro {
    var pathToCheck: Path
    var signalled: bool
    var requests: nat
    var okEnabled: bool

    constructor ()
      ensures pathToCheck == "" && !signalled && requests == 0 && okEnabled
    {
      pathToCheck, signalled, requests, okEnabled := "", false, 0, true;
    }

    method CheckPath(dataDir: Path)
      modifies this`pathToCheck, this`signalled, this`requests
      ensures pathToCheck == dataDir && signalled
      ensures requests == old(requests) + if old(signalled) then 0 else 1
    {
      pathToCheck := dataDir;
      if !signalled {
        signalled := true;
        requests := requests + 1;
      }
    }

    method GetPathToCheck() returns (path: Path)
      modifies this`signalled
      ensures path == pathToCheck && !signalled
    {
      path := pathToCheck;
      signalled := false;
    }

    method OnTextChanged(dataDir: Path)
      modifies this
      ensures !okEnabled && pathToCheck == dataDir && signalled
      ensures requests == old(requests) + if old(signalled) then 0 else 1
    {
      okEnabled := false;
      CheckPath(dataDir);
    }

    method SetStatus(status: Status)
      modifies this`okEnabled
      ensures okEnabled <==> status.ST_OK?
    {
      okEnabled := status != ST_ERROR;
    }
  }
}
