/**
 A proxy request (BitcoreWebRequest in bitcore-proxy/BitcoreProxy.cpp) driven by the search engine
 (SearchPolicy in libs/apputils/Blockchain.cpp).

 The request is a growing list of jobs.  The engine starts jobs, the hub and the indexer answer them in any
 order, and each answer runs a callback that may append jobs and fills the table of transactions and
 outputs the request is about.  The hub and the indexer answer from a fixed chain.
 */
module BitcoreSearch {
  import opened Options


  /** A transaction id, or any other 32-byte hash. */
  type Id = nat

  /** A transaction's place in the chain, or one of the two special values below. */
  datatype Pos = Pos(height: int, offset: int)

  const UNKNOWN := Pos(-1, 0)
  const NOT_FOUND := Pos(-1, 0)
  const UNSPENT_HEIGHT := -2

  predicate Positive(p: Pos) { p.height > 0 && p.offset > 0 }

  datatype TxIn = TxIn(prev: Id, index: nat)

  datatype ChainTx = ChainTx(id: Id, ins: seq<TxIn>, outs: seq<nat>)

  /** An output that pays the address. */
  datatype Use = Use(pos: Pos, index: nat)

  /** What the hub (`txs`, `utxo`) and the indexer (`byId`, `spent`, `uses`) know. */
  datatype Chain = Chain(txs: map<Pos, ChainTx>, utxo: set<Use>,
                         byId: map<Id, Pos>, spent: map<(Id, nat), Pos>, uses: map<Id, seq<Use>>)

  ghost predicate ValidChain(w: Chain) {
    && (forall p :: p in w.txs ==> Positive(p))
    && (forall p, q :: p in w.txs && q in w.txs && w.txs[p].id == w.txs[q].id ==> w.txs[p] == w.txs[q])
    && (forall id :: id in w.byId ==> w.byId[id] in w.txs && w.txs[w.byId[id]].id == id)
    && (forall k :: k in w.spent ==> w.spent[k] in w.txs)
    && (forall a, i :: a in w.uses && 0 <= i < |w.uses[a]| ==>
          w.uses[a][i].pos in w.txs && w.uses[a][i].index < |w.txs[w.uses[a][i].pos].outs|)
  }

  // ---------------------------------------------------------------- transactions as tags

  /** The parts of a raw transaction that its iterator stops at. */
  datatype Tag = PrevTxHash(id: Id) | PrevTxIndex(n: nat) | TxInScript | OutputValue(v: nat) | OutputScript | OtherTag

  function InTags(ins: seq<TxIn>): seq<Tag> {
    if ins == [] then []
    else [PrevTxHash(ins[0].prev), PrevTxIndex(ins[0].index), TxInScript, OtherTag] + InTags(ins[1..])
  }

  function OutTags(outs: seq<nat>): seq<Tag> {
    if outs == [] then [] else [OutputValue(outs[0]), OutputScript] + OutTags(outs[1..])
  }

  function Tags(tx: ChainTx): seq<Tag> { [OtherTag] + InTags(tx.ins) + OutTags(tx.outs) + [OtherTag] }

  // ---------------------------------------------------------------- requests

  datatype Mode = TxForTxIdCoins | AddressTxs | AddressUnspentOutputs | AddressBalance

  datatype Kind = LookupTxById | LookupByAddress | LookupSpentTx | FetchTx | FetchBlockHeader | FetchUTXOUnspent

  datatype Filter = Basic | IncludeTxId | IncludeFullTransactionData | IncludeOutputs

  datatype Job = Job(kind: Kind, started: bool, finished: bool, nextJobId: int, nextJobId2: int, filter: Filter,
                     intData: int, intData2: int, intData3: int, data: Option<Id>)

  function NewJob(kind: Kind): Job { Job(kind, false, false, -1, -1, Basic, 0, 0, 0, None) }

  function Fetch(filter: Filter): Job { NewJob(FetchTx).(filter := filter) }

  function FetchAt(filter: Filter, p: Pos): Job { Fetch(filter).(intData := p.height, intData2 := p.offset) }

  function CheckUnspent(u: Use): Job {
    NewJob(FetchUTXOUnspent).(intData := u.pos.height, intData2 := u.pos.offset, intData3 := u.index)
  }

  function LookupTx(id: Id, next: int): Job { NewJob(LookupTxById).(data := Some(id), nextJobId := next) }

  function LookupSpent(id: Id, index: nat, p: Pos, next: int): Job {
    NewJob(LookupSpentTx).(data := Some(id), intData := index, intData2 := p.height, intData3 := p.offset,
                           nextJobId := next)
  }

  /** A transaction as delivered to the request; what was not asked for is absent. */
  datatype Answer = Answer(jobId: nat, pos: Pos, txid: Option<Id>, full: Option<ChainTx>, outputs: seq<nat>) {
    predicate Coinbase() { 0 < pos.offset < 100 }
  }

  type TxRefs = map<Pos, map<nat, Pos>>

  datatype Search = Search(mode: Mode, jobs: seq<Job>, answer: seq<Answer>, txRefs: TxRefs,
                           blockHeights: map<Id, int>, errors: set<nat>)

  /** The outcome of a callback: the new request, or a failed assertion or invalid dereference. */
  datatype Outcome = Ok(s: Search) | Crash

  /** requestTransactionInfo for the coins of a transaction. */
  function CoinsRequest(txid: Id): Search {
    var fetch := Fetch(IncludeFullTransactionData).(data := Some(txid), nextJobId := 1);
    Search(TxForTxIdCoins, [fetch, NewJob(FetchBlockHeader)], [], map[], map[], {})
  }

  /** requestAddressInfo; `script` is the hashed output script of the address. */
  function AddressRequest(mode: Mode, script: Id): Search {
    Search(mode, [NewJob(LookupByAddress).(data := Some(script))], [], map[], map[], {})
  }

  // ---------------------------------------------------------------- callbacks

  /** The loop of transactionAdded over a raw transaction: jobs for previous outputs, and for who spent an output. */
  function ScanJobs(coins: bool, t: Answer, wanted: set<nat>, tags: seq<Tag>, jobs: seq<Job>,
                    outputIndex: nat): seq<Job>
    requires t.txid.Some?
    decreases tags
  {
    if tags == [] then jobs
    else if tags[0].PrevTxHash? && coins && !t.Coinbase() then
      ScanJobs(coins, t, wanted, tags[1..],
               jobs + [LookupTx(tags[0].id, |jobs| + 1), Fetch(IncludeOutputs)], outputIndex)
    else if tags[0].OutputValue? then
      ScanJobs(coins, t, wanted, tags[1..],
               if coins || outputIndex in wanted
               then jobs + [LookupSpent(t.txid.value, outputIndex, t.pos, |jobs| + 1), Fetch(IncludeTxId)] else jobs,
               outputIndex + 1)
    else ScanJobs(coins, t, wanted, tags[1..], jobs, outputIndex)
  }

  function UnknownRows(n: nat): (rows: map<nat, Pos>)
    ensures forall i :: i in rows <==> 0 <= i < n
    ensures forall i :: 0 <= i < n ==> rows[i] == UNKNOWN
  {
    if n == 0 then map[] else UnknownRows(n - 1)[n - 1 := UNKNOWN]
  }

  function TransactionAdded(s: Search, t: Answer): Outcome {
    if !(s.mode.TxForTxIdCoins? || s.mode.AddressTxs?) || t.full.None? then Ok(s)
    else if t.txid.None? then Crash
    else if s.mode.TxForTxIdCoins? then
      if t.pos in s.txRefs then Crash
      else Ok(s.(txRefs := s.txRefs[t.pos := UnknownRows(|t.full.value.outs|)],
                 jobs := ScanJobs(true, t, {}, Tags(t.full.value), s.jobs, 0)))
    else
      Ok(s.(jobs := ScanJobs(false, t,
                             if t.pos in s.txRefs then s.txRefs[t.pos].Keys else {}, Tags(t.full.value), s.jobs, 0)))
  }

  function TxIdResolved(s: Search, jobId: int, height: int): Outcome {
    if !(0 <= jobId < |s.jobs|) || s.jobs[jobId].data.None? then Crash
    else
      var id := s.jobs[jobId].data.value;
      Ok(if id in s.blockHeights then s else s.(blockHeights := s.blockHeights[id := height]))
  }

  /** What a row records for the answer to a spent-lookup: -1 for unspent becomes -2. */
  function Resolved(p: Pos): Pos { Pos(if p.height == -1 then UNSPENT_HEIGHT else p.height, p.offset) }

  predicate NamesRow(txRefs: TxRefs, job: Job) {
    && job.data.Some? && job.intData2 > 0 && job.intData3 > 0 && job.intData >= 0
    && Pos(job.intData2, job.intData3) in txRefs
    && job.intData in txRefs[Pos(job.intData2, job.intData3)]
  }

  function SetRow(txRefs: TxRefs, p: Pos, index: nat, row: Pos): TxRefs
    requires p in txRefs
  {
    var rows: map<nat, Pos> := map[index := row];
    txRefs[p := txRefs[p] + rows]
  }

  function SpentOutputResolved(s: Search, jobId: int, p: Pos): Outcome {
    if !(0 <= jobId < |s.jobs|) || !NamesRow(s.txRefs, s.jobs[jobId]) then Crash
    else
      var job := s.jobs[jobId];
      Ok(s.(txRefs := SetRow(s.txRefs, Pos(job.intData2, job.intData3), job.intData, Resolved(p))))
  }

  /** The table with an unresolved row for the use, if it had none. */
  function AddRow(t: TxRefs, u: Use): TxRefs {
    if u.pos !in t then t[u.pos := map[u.index := UNKNOWN]]
    else if u.index in t[u.pos] then t
    else SetRow(t, u.pos, u.index, UNKNOWN)
  }

  function AddressUsedInOutput(s: Search, u: Use): Outcome {
    if !Positive(u.pos) then Crash
    else
      var present := u.pos in s.txRefs;
      var s1 := s.(txRefs := AddRow(s.txRefs, u));
      if s.mode.AddressTxs? && !present then Ok(s1.(jobs := s.jobs + [FetchAt(IncludeFullTransactionData, u.pos)]))
      else if s.mode.AddressBalance? || s.mode.AddressUnspentOutputs? then Ok(s1.(jobs := s.jobs + [CheckUnspent(u)]))
      else Ok(s1)
  }

  function UnspentFilter(mode: Mode): Filter {
    if mode.AddressBalance? then IncludeOutputs else IncludeFullTransactionData
  }

  function UtxoLookup(s: Search, u: Use, unspent: bool): Outcome {
    if !unspent then Ok(s)
    else if u.pos in s.txRefs && u.index !in s.txRefs[u.pos] then Crash
    else
      var s1 := if u.pos in s.txRefs then s.(txRefs := SetRow(s.txRefs, u.pos, u.index, Pos(UNSPENT_HEIGHT, 0))) else s;
      if s.mode.AddressUnspentOutputs? || s.mode.AddressBalance?
      then Ok(s1.(jobs := s.jobs + [FetchAt(UnspentFilter(s.mode), u.pos)]))
      else Ok(s1)
  }

  function AllUses(s: Search, uses: seq<Use>): Outcome
    decreases uses
  {
    if uses == [] then Ok(s)
    else match AddressUsedInOutput(s, uses[0])
      case Ok(s1) => AllUses(s1, uses[1..])
      case Crash => Crash
  }

  // ---------------------------------------------------------------- the engine

  datatype Event = Start(job: nat) | Reply(job: nat) | Fail(job: nat)

  predicate HasPlace(job: Job) { job.intData != 0 && job.intData2 != 0 }

  /** A job the engine can act on; a fetch without a place or an id is waiting for data. */
  predicate Startable(job: Job) {
    && !job.started && !job.finished
    && match job.kind
       case FetchTx => HasPlace(job) || job.data.Some?
       case FetchBlockHeader => job.data.Some? || job.intData != 0
       case _ => true
  }

  /** A job definition the engine rejects instead of sending. */
  predicate Invalid(job: Job) {
    match job.kind
    case LookupTxById => job.data.None?
    case LookupByAddress => job.data.None?
    case LookupSpentTx => job.data.None? || job.intData == -1
    case FetchUTXOUnspent => job.data.None? && (job.intData <= 0 || job.intData2 <= 0)
    case _ => false
  }

  predicate InFlight(job: Job) { job.started && !job.finished }

  function PlaceOf(job: Job): Pos { Pos(job.intData, job.intData2) }

  function UseOf(job: Job): Use
    requires job.intData3 >= 0
  {
    Use(PlaceOf(job), job.intData3)
  }

  /** An answer may arrive once for each request sent; the hub delivers only transactions it has. */
  predicate Enabled(w: Chain, s: Search, e: Event) {
    && e.job < |s.jobs|
    && var job := s.jobs[e.job];
       match e
       case Start(_) => Startable(job)
       case Reply(_) => InFlight(job) && (job.kind.FetchTx? ==> PlaceOf(job) in w.txs)
       case Fail(_) => InFlight(job) && (job.kind.FetchTx? || job.kind.FetchBlockHeader? || job.kind.FetchUTXOUnspent?)
  }

  /** processRequests for one job.  A fetch by id is replaced by a lookup and a fetch that waits for it. */
  function StartJob(s: Search, i: nat): Search
    requires i < |s.jobs|
  {
    var job := s.jobs[i];
    if Invalid(job) then s.(jobs := s.jobs[i := job.(started := true, finished := true)])
    else if job.kind.FetchTx? && !HasPlace(job) then
      s.(jobs := s.jobs[i := job.(started := true, finished := true)] + [
           NewJob(LookupTxById).(data := job.data, nextJobId := job.nextJobId, nextJobId2 := |s.jobs| + 1),
           Fetch(job.filter)])
    else s.(jobs := s.jobs[i := job.(started := true)])
  }

  /** What the indexer finds for a lookup. */
  function Found(w: Chain, job: Job): Pos {
    if job.data.None? then NOT_FOUND
    else if job.kind.LookupTxById? then (if job.data.value in w.byId then w.byId[job.data.value] else NOT_FOUND)
    else if job.intData >= 0 && (job.data.value, job.intData as nat) in w.spent
         then w.spent[(job.data.value, job.intData as nat)]
    else NOT_FOUND
  }

  predicate ValidNext(jobs: seq<Job>, next: int) { next == -1 || 0 <= next < |jobs| }

  /** updateJob: the place found becomes the place of the waiting job. */
  function UpdateJob(jobs: seq<Job>, next: int, data: Option<Id>, p: Pos): seq<Job>
    requires ValidNext(jobs, next)
  {
    if next == -1 then jobs
    else jobs[next := jobs[next].(intData := p.height, intData2 := p.offset, data := data)]
  }

  /** fillTx for a fetched transaction. */
  function FillTx(w: Chain, job: Job, i: nat): Answer
    requires PlaceOf(job) in w.txs
  {
    var tx := w.txs[PlaceOf(job)];
    Answer(i, PlaceOf(job),
           if job.filter.IncludeTxId? || (job.data.None? && job.filter.IncludeFullTransactionData?) then Some(tx.id)
           else job.data,
           if job.filter.IncludeFullTransactionData? then Some(tx) else None,
           if job.filter.IncludeOutputs? then tx.outs else [])
  }

  function LookupReply(w: Chain, s: Search, i: nat): Outcome
    requires i < |s.jobs|
  {
    var job := s.jobs[i];
    var p := Found(w, job);
    if p.height != -1 && !(ValidNext(s.jobs, job.nextJobId) && ValidNext(s.jobs, job.nextJobId2)) then Crash
    else
      var jobs := if p.height == -1 then s.jobs
                  else UpdateJob(UpdateJob(s.jobs, job.nextJobId, job.data, p), job.nextJobId2, job.data, p);
      var s1 := s.(jobs := jobs);
      if job.kind.LookupTxById? then TxIdResolved(s1, i, p.height) else SpentOutputResolved(s1, i, p)
  }

  function Finish(s: Search, i: nat): Search
    requires i < |s.jobs|
  {
    s.(jobs := s.jobs[i := s.jobs[i].(finished := true)])
  }

  function Next(w: Chain, s: Search, e: Event): Outcome
    requires Enabled(w, s, e)
  {
    var job := s.jobs[e.job];
    match e
    case Start(i) => Ok(StartJob(s, i))
    case Fail(i) => Ok(Finish(s, i).(errors := s.errors + {i}))
    case Reply(i) =>
      var s1 := Finish(s, i);
      match job.kind
      case LookupTxById => LookupReply(w, s1, i)
      case LookupSpentTx => LookupReply(w, s1, i)
      case LookupByAddress => AllUses(s1,
                                      if job.data.Some? && job.data.value in w.uses then w.uses[job.data.value] else [])
      case FetchTx => TransactionAdded(s1.(answer := s.answer + [FillTx(w, job, i)]), FillTx(w, job, i))
      case FetchBlockHeader => Ok(s1)
      case FetchUTXOUnspent => if job.intData3 < 0 then Crash else UtxoLookup(s1, UseOf(job), UseOf(job) in w.utxo)
  }

  ghost predicate ValidRun(w: Chain, s: Search, events: seq<Event>)
    decreases events
  {
    events == []
    || (Enabled(w, s, events[0])
        && match Next(w, s, events[0]) case Ok(s1) => ValidRun(w, s1, events[1..]) case Crash => true)
  }

  ghost function Run(w: Chain, s: Search, events: seq<Event>): Outcome
    requires ValidRun(w, s, events)
    decreases events
  {
    if events == [] then Ok(s)
    else match Next(w, s, events[0])
      case Ok(s1) => Run(w, s1, events[1..])
      case Crash => Crash
  }

  /** Nothing is in flight and nothing can be started: the engine reports the search finished. */
  predicate SearchFinished(s: Search) {
    forall i :: 0 <= i < |s.jobs| ==> !InFlight(s.jobs[i]) && !Startable(s.jobs[i])
  }

  /** A job that has failed has finished. */
  ghost predicate ErrorsFinished(jobs: seq<Job>, errors: set<nat>) {
    forall i :: i in errors ==> i < |jobs| && jobs[i].finished
  }

  // ---------------------------------------------------------------- rows never get lost

  /** Every transaction and output of `a` is still in `b`, and what was known about it is not forgotten. */
  ghost predicate RowsKept(a: TxRefs, b: TxRefs) {
    forall p :: p in a ==> p in b && forall i :: i in a[p] ==> i in b[p] && (a[p][i] != UNKNOWN ==> b[p][i] != UNKNOWN)
  }

  lemma RowsKeptTransitive(a: TxRefs, b: TxRefs, c: TxRefs)
    requires RowsKept(a, b) && RowsKept(b, c)
    ensures RowsKept(a, c)
  {
  }

  lemma {:induction false} SetRowKeeps(refs: TxRefs, p: Pos, i: nat, row: Pos)
    requires p in refs && (i in refs[p] && refs[p][i] != UNKNOWN ==> row != UNKNOWN)
    ensures RowsKept(refs, SetRow(refs, p, i, row))
  {
  }

  lemma {:induction false} UseKeepsRows(s: Search, u: Use)
    ensures AddressUsedInOutput(s, u).Ok? ==> RowsKept(s.txRefs, AddressUsedInOutput(s, u).s.txRefs)
  {
    if u.pos in s.txRefs && u.index !in s.txRefs[u.pos] { SetRowKeeps(s.txRefs, u.pos, u.index, UNKNOWN); }
  }

  lemma {:induction false} UsesKeepRows(s: Search, uses: seq<Use>)
    ensures AllUses(s, uses).Ok? ==> RowsKept(s.txRefs, AllUses(s, uses).s.txRefs)
    decreases uses
  {
    if uses != [] {
      var o := AddressUsedInOutput(s, uses[0]);
      if o.Ok? && AllUses(o.s, uses[1..]).Ok? {
        UseKeepsRows(s, uses[0]);
        UsesKeepRows(o.s, uses[1..]);
        RowsKeptTransitive(s.txRefs, o.s.txRefs, AllUses(o.s, uses[1..]).s.txRefs);
      }
    }
  }

  lemma {:induction false} UtxoKeepsRows(s: Search, u: Use, unspent: bool)
    ensures UtxoLookup(s, u, unspent).Ok? ==> RowsKept(s.txRefs, UtxoLookup(s, u, unspent).s.txRefs)
  {
    if u.pos in s.txRefs { SetRowKeeps(s.txRefs, u.pos, u.index, Pos(UNSPENT_HEIGHT, 0)); }
  }

  lemma {:induction false} SpentKeepsRows(s: Search, jobId: int, p: Pos)
    ensures SpentOutputResolved(s, jobId, p).Ok? ==> RowsKept(s.txRefs, SpentOutputResolved(s, jobId, p).s.txRefs)
  {
    if 0 <= jobId < |s.jobs| && NamesRow(s.txRefs, s.jobs[jobId]) {
      var job := s.jobs[jobId];
      SetRowKeeps(s.txRefs, Pos(job.intData2, job.intData3), job.intData, Resolved(p));
    }
  }

  lemma {:induction false} ReplyKeepsRows(w: Chain, s: Search, i: nat)
    requires Enabled(w, s, Reply(i))
    ensures Next(w, s, Reply(i)).Ok? ==> RowsKept(s.txRefs, Next(w, s, Reply(i)).s.txRefs)
  {
    var job := s.jobs[i];
    var s1 := Finish(s, i);
    match job.kind {
      case LookupTxById =>
      case LookupSpentTx =>
        var o := Next(w, s, Reply(i));
        if o.Ok? { SpentKeepsRows(s1.(jobs := o.s.jobs), i, Found(w, s1.jobs[i])); }
      case LookupByAddress => UsesKeepRows(s1,
                                           if job.data.Some? && job.data.value in w.uses then w.uses[job.data.value]
                                           else []);
      case FetchTx =>
      case FetchBlockHeader =>
      case FetchUTXOUnspent => if job.intData3 >= 0 { UtxoKeepsRows(s1, UseOf(job), UseOf(job) in w.utxo); }
    }
  }

  lemma {:induction false} StepKeepsRows(w: Chain, s: Search, e: Event)
    requires Enabled(w, s, e)
    ensures Next(w, s, e).Ok? ==> RowsKept(s.txRefs, Next(w, s, e).s.txRefs)
  {
    if e.Reply? { ReplyKeepsRows(w, s, e.job); }
  }

  /** Whatever the hub and the indexer answer, over a whole run no transaction and no output is dropped from the
      table, and an output once resolved never goes back to unknown. */
  lemma {:induction false} RunKeepsRows(w: Chain, s: Search, events: seq<Event>)
    requires ValidRun(w, s, events)
    ensures Run(w, s, events).Ok? ==> RowsKept(s.txRefs, Run(w, s, events).s.txRefs)
    decreases events
  {
    if events != [] {
      StepKeepsRows(w, s, events[0]);
      var o := Next(w, s, events[0]);
      if o.Ok? && Run(w, o.s, events[1..]).Ok? {
        RunKeepsRows(w, o.s, events[1..]);
        RowsKeptTransitive(s.txRefs, o.s.txRefs, Run(w, o.s, events[1..]).s.txRefs);
      }
    }
  }
}
