/**
 The address list (AddressTablePriv in hub-qt/addresstablemodel.cpp) against the wallet's address book
 (SetAddressBook and DelAddressBook in libs/server/wallet/wallet.cpp), which announces its changes
 through a queue.
 */
module AddressTable {
  /** The place of an address in the order of the address texts. */
  type Address = nat

  datatype Kind = Sending | Receiving | Hidden

  datatype BookData = BookData(name: string, purpose: string)

  type Book = map<Address, BookData>

  datatype Shown = Shown(kind: Kind, name: string)

  /** What is displayed for each address. */
  type View = map<Address, Shown>

  datatype Entry = Entry(kind: Kind, name: string, address: Address)

  datatype ChangeType = New | Updated | Deleted

  datatype Notification = Notification(address: Address, name: string, purpose: string, status: ChangeType)

  /** Which addresses belong to the wallet. */
  type Owned = Address -> bool

  /** translateTransactionType: without a purpose the kind is guessed from the owner. */
  function Translate(purpose: string, mine: bool): Kind {
    if purpose == "send" then Sending
    else if purpose == "receive" then Receiving
    else if purpose == "unknown" || purpose == "" then (if mine then Receiving else Sending)
    else Hidden
  }

  /** What a rebuild displays. */
  function Intended(book: Book, owned: Owned): View {
    map a | a in book :: Shown(Translate(book[a].purpose, owned(a)), book[a].name)
  }

  // ---------------------------------------------------------------- lists and views

  ghost predicate Strict(c: seq<Entry>) { forall i, j :: 0 <= i < j < |c| ==> c[i].address < c[j].address }

  ghost predicate Has(c: seq<Entry>, a: Address) { exists i :: 0 <= i < |c| && c[i].address == a }

  /** Every entry is in the view, as the view shows it. */
  ghost predicate Within(c: seq<Entry>, view: View) {
    forall i :: 0 <= i < |c| ==> c[i].address in view && view[c[i].address] == Shown(c[i].kind, c[i].name)
  }

  ghost predicate Covers(c: seq<Entry>, view: View) { forall a :: a in view ==> Has(c, a) }

  /** The list shows every address of the view once, in ascending order. */
  ghost predicate Represents(c: seq<Entry>, view: View) { Strict(c) && Within(c, view) && Covers(c, view) }

  lemma {:induction false} RepresentsTail(c: seq<Entry>, view: View)
    requires c != [] && Represents(c, view)
    ensures Represents(c[1..], view - {c[0].address})
  {
    var rest := view - {c[0].address};
    forall a | a in rest ensures Has(c[1..], a) {
      assert Has(c, a);
      var i :| 0 <= i < |c| && c[i].address == a;
      assert c[1..][i - 1].address == a;
    }
  }

  lemma {:induction false} SameFirst(c: seq<Entry>, d: seq<Entry>, view: View)
    requires c != [] && Represents(c, view) && Represents(d, view)
    ensures d != [] && c[0] == d[0]
  {
    assert Has(d, c[0].address);
    var i :| 0 <= i < |d| && d[i].address == c[0].address;
    assert Has(c, d[0].address);
    var j :| 0 <= j < |c| && c[j].address == d[0].address;
    assert c[0].address <= c[j].address && d[0].address <= d[i].address;
  }

  /** A view has only one list. */
  lemma {:induction false} ListIsItsView(c: seq<Entry>, d: seq<Entry>, view: View)
    requires Represents(c, view) && Represents(d, view)
    ensures c == d
  {
    if d != [] { SameFirst(d, c, view); }
    if c != [] {
      SameFirst(c, d, view);
      RepresentsTail(c, view);
      RepresentsTail(d, view);
      ListIsItsView(c[1..], d[1..], view - {c[0].address});
    }
  }

  /** Everything before `at` has a smaller address and everything from there on a greater or equal one. */
  ghost predicate Splits(c: seq<Entry>, at: nat, address: Address) {
    && at <= |c|
    && (forall k :: 0 <= k < at ==> c[k].address < address)
    && (forall k :: at <= k < |c| ==> address <= c[k].address)
  }

  predicate FoundAt(c: seq<Entry>, at: nat, address: Address) { at < |c| && c[at].address == address }

  lemma {:induction false} FoundIffShown(c: seq<Entry>, view: View, at: nat, address: Address)
    requires Represents(c, view) && Splits(c, at, address)
    ensures FoundAt(c, at, address) <==> address in view
  {
    if address in view {
      assert Has(c, address);
      var i :| 0 <= i < |c| && c[i].address == address;
      assert at <= i && c[at].address <= c[i].address;
    }
  }

  lemma {:induction false} HasConcat(a: seq<Entry>, b: seq<Entry>, x: Address)
    ensures Has(a + b, x) <==> Has(a, x) || Has(b, x)
  {
    var c := a + b;
    if Has(a, x) {
      var i :| 0 <= i < |a| && a[i].address == x;
      assert c[i].address == x;
    }
    if Has(b, x) {
      var i :| 0 <= i < |b| && b[i].address == x;
      assert c[|a| + i].address == x;
    }
  }

  lemma {:induction false} HasSplit(c: seq<Entry>, at: nat, x: Address)
    requires at < |c|
    ensures Has(c, x) <==> Has(c[..at], x) || c[at].address == x || Has(c[at + 1..], x)
  {
    assert c == c[..at] + ([c[at]] + c[at + 1..]);
    HasConcat(c[..at], [c[at]] + c[at + 1..], x);
    HasConcat([c[at]], c[at + 1..], x);
    assert Has([c[at]], x) <==> [c[at]][0].address == x;
  }

  /** Entries with greater addresses after entries with smaller ones. */
  lemma {:induction false} StrictJoin(a: seq<Entry>, e: Entry, b: seq<Entry>)
    requires Strict(a) && Strict(b)
    requires forall k :: 0 <= k < |a| ==> a[k].address < e.address
    requires forall k :: 0 <= k < |b| ==> e.address < b[k].address
    ensures Strict(a + [e] + b)
  {
    var c := a + [e] + b;
    forall i, j | 0 <= i < j < |c| ensures c[i].address < c[j].address {
      assert i < |a| ==> c[i] == a[i];
      assert |a| < j ==> c[j] == b[j - |a| - 1];
      assert |a| < i ==> c[i] == b[i - |a| - 1];
    }
  }

  lemma {:induction false} WithinInsert(a: seq<Entry>, e: Entry, b: seq<Entry>, view: View)
    requires Within(a, view) && Within(b, view) && e.address !in view
    ensures Within(a + [e] + b, view[e.address := Shown(e.kind, e.name)])
  {
    var d := a + [e] + b;
    var after := view[e.address := Shown(e.kind, e.name)];
    forall k | 0 <= k < |d| ensures d[k].address in after && after[d[k].address] == Shown(d[k].kind, d[k].name) {
      assert k < |a| ==> d[k] == a[k];
      assert |a| < k ==> d[k] == b[k - |a| - 1];
    }
  }

  lemma {:induction false} HasInsert(a: seq<Entry>, e: Entry, b: seq<Entry>, x: Address)
    ensures Has(a + [e] + b, x) <==> Has(a + b, x) || e.address == x
  {
    HasConcat(a + [e], b, x);
    HasConcat(a, [e], x);
    HasConcat(a, b, x);
    assert Has([e], x) <==> [e][0].address == x;
  }

  lemma {:induction false} InsertEntry(c: seq<Entry>, view: View, at: nat, e: Entry)
    requires Represents(c, view) && Splits(c, at, e.address) && e.address !in view
    ensures Represents(c[..at] + [e] + c[at..], view[e.address := Shown(e.kind, e.name)])
  {
    var a, b := c[..at], c[at..];
    var after := view[e.address := Shown(e.kind, e.name)];
    AboveInsertion(c, view, at, e.address);
    StrictJoin(a, e, b);
    WithinInsert(a, e, b, view);
    forall x | x in after ensures Has(a + [e] + b, x) {
      HasInsert(a, e, b, x);
      assert a + b == c;
    }
  }

  lemma {:induction false} AboveInsertion(c: seq<Entry>, view: View, at: nat, address: Address)
    requires Within(c, view) && Splits(c, at, address) && address !in view
    ensures forall k :: 0 <= k < |c[at..]| ==> address < c[at..][k].address
  {
    forall k | 0 <= k < |c[at..]| ensures address < c[at..][k].address { assert c[at + k].address in view; }
  }

  lemma {:induction false} ReplaceEntry(c: seq<Entry>, view: View, at: nat, e: Entry)
    requires Represents(c, view) && FoundAt(c, at, e.address)
    ensures Represents(c[at := e], view[e.address := Shown(e.kind, e.name)])
  {
    var d := c[at := e];
    var after := view[e.address := Shown(e.kind, e.name)];
    forall a | a in after ensures Has(d, a) {
      HasSplit(d, at, a);
      HasSplit(c, at, a);
      assert d[..at] == c[..at] && d[at + 1..] == c[at + 1..];
    }
  }

  lemma {:induction false} RemoveEntry(c: seq<Entry>, view: View, at: nat)
    requires Represents(c, view) && at < |c|
    ensures Represents(c[..at] + c[at + 1..], view - {c[at].address})
  {
    var d := c[..at] + c[at + 1..];
    var after := view - {c[at].address};
    forall k | 0 <= k < |d| ensures d[k].address in after && after[d[k].address] == Shown(d[k].kind, d[k].name) {
      assert k < at ==> d[k] == c[k];
      assert at <= k ==> d[k] == c[k + 1];
    }
    forall a | a in after ensures Has(d, a) {
      HasSplit(c, at, a);
      HasConcat(c[..at], c[at + 1..], a);
    }
  }

  /** Only one view has this list. */
  lemma {:induction false} ViewIsItsList(c: seq<Entry>, view: View, other: View)
    requires Represents(c, view) && Represents(c, other)
    ensures view == other
  {
    assert forall a :: a in view <==> Has(c, a);
    forall a | a in view ensures view[a] == other[a] {
      var i :| 0 <= i < |c| && c[i].address == a;
    }
  }

  ghost predicate IsGreatest(a: Address, addresses: set<Address>) {
    a in addresses && forall b :: b in addresses ==> b <= a
  }

  function GreatestOf(addresses: set<Address>): (greatest: Address)
    requires addresses != {}
    ensures IsGreatest(greatest, addresses)
  {
    ghost var one: Address :| one in addresses;
    SomeIsGreatest(addresses, one);
    var a: Address :| a in addresses && forall b :: b in addresses ==> b <= a;
    a
  }

  lemma {:induction false} GreatestExists(addresses: set<Address>, one: Address) returns (m: Address)
    requires one in addresses
    ensures IsGreatest(m, addresses)
    decreases |addresses|
  {
    m := one;
    if a: Address :| a in addresses && one < a {
      m := GreatestExists(addresses - {one}, a);
      GreatestOfMore(addresses, one, a, m);
    }
  }

  lemma {:induction false} GreatestOfMore(addresses: set<Address>, one: Address, a: Address, m: Address)
    requires IsGreatest(m, addresses - {one}) && a in addresses && one < a
    ensures IsGreatest(m, addresses)
  {
    assert a in addresses - {one};
    forall b | b in addresses ensures b <= m { assert b != one ==> b in addresses - {one}; }
  }

  lemma {:induction false} SomeIsGreatest(addresses: set<Address>, one: Address)
    requires one in addresses
    ensures exists a :: a in addresses && forall b :: b in addresses ==> b <= a
  {
    var m := GreatestExists(addresses, one);
    assert IsGreatest(m, addresses);
  }

  /** The list of a view: its addresses in ascending order. */
  function ListOf(view: View): (c: seq<Entry>)
    ensures Represents(c, view)
    decreases |view|
  {
    if view == map[] then []
    else
      var a := GreatestOf(view.Keys);
      var rest := view - {a};
      assert rest.Keys == view.Keys - {a};
      var e := Entry(view[a].kind, view[a].name, a);
      var init := ListOf(rest);
      AppendGreatest(init, rest, e);
      assert rest[a := view[a]] == view;
      init + [e]
  }

  lemma {:induction false} AppendGreatest(c: seq<Entry>, view: View, e: Entry)
    requires Represents(c, view) && e.address !in view && forall a :: a in view ==> a <= e.address
    ensures Represents(c + [e], view[e.address := Shown(e.kind, e.name)])
  {
    assert Splits(c, |c|, e.address);
    InsertEntry(c, view, |c|, e);
    assert c[..|c|] + [e] + c[|c|..] == c + [e];
  }

  // ---------------------------------------------------------------- the wallet's side

  datatype Op = Set(address: Address, name: string, purpose: string) | Del(address: Address)

  /** A new record starts with the purpose "unknown"; an empty purpose leaves the stored one alone. */
  function BookAfter(book: Book, op: Op): Book {
    match op
    case Set(a, name, purpose) =>
      var stored := if a in book then book[a].purpose else "unknown";
      book[a := BookData(name, if purpose == "" then stored else purpose)]
    case Del(a) => book - {a}
  }

  /** Only the record of the address changes: its name, and its purpose unless none is given; then the stored purpose
      stays, and is "unknown" for a new record. */
  lemma {:induction false} OneRecordChanges(book: Book, a: Address, name: string, purpose: string)
    ensures var after := BookAfter(book, Set(a, name, purpose));
            && after.Keys == book.Keys + {a} && after[a].name == name
            && (purpose != "" ==> after[a].purpose == purpose)
            && (purpose == "" && a in book ==> after[a].purpose == book[a].purpose)
            && (purpose == "" && a !in book ==> after[a].purpose == "unknown")
            && (forall b :: b in book && b != a ==> after[b] == book[b])
    ensures var after := BookAfter(book, Del(a));
            after.Keys == book.Keys - {a} && forall b :: b in after ==> after[b] == book[b]
  {
  }

  function Announce(book: Book, op: Op): Notification {
    match op
    case Set(a, name, purpose) => Notification(a, name, purpose, if a in book then Updated else New)
    case Del(a) => Notification(a, "", "", Deleted)
  }

  function Apply(view: View, owned: Owned, n: Notification): View {
    match n.status
    case New =>
      if n.address in view then view
      else view[n.address := Shown(Translate(n.purpose, owned(n.address)), n.name)]
    case Updated =>
      if n.address in view then view[n.address := Shown(Translate(n.purpose, owned(n.address)), n.name)]
      else view
    case Deleted => view - {n.address}
  }

  /** The first place whose address is not smaller. */
  function PlaceOf(c: seq<Entry>, address: Address): (at: nat)
    ensures at <= |c|
  {
    if c == [] || address <= c[0].address then 0 else 1 + PlaceOf(c[1..], address)
  }

  lemma {:induction false} PlaceSplits(c: seq<Entry>, address: Address)
    requires Strict(c)
    ensures Splits(c, PlaceOf(c, address), address)
  {
    if c != [] && c[0].address < address {
      PlaceSplits(c[1..], address);
      forall k | 1 <= k < |c| ensures c[k] == c[1..][k - 1] {}
    }
  }

  lemma {:induction false} OnePlace(c: seq<Entry>, at: nat, address: Address)
    requires Strict(c) && Splits(c, at, address)
    ensures at == PlaceOf(c, address)
  {
    if c != [] && c[0].address < address { OnePlace(c[1..], at - 1, address); }
  }

  /** updateEntry on the sorted list. */
  function UpdateList(c: seq<Entry>, owned: Owned, n: Notification): seq<Entry> {
    var at := PlaceOf(c, n.address);
    var e := Entry(Translate(n.purpose, owned(n.address)), n.name, n.address);
    match n.status
    case New => if FoundAt(c, at, n.address) then c else c[..at] + [e] + c[at..]
    case Updated => if FoundAt(c, at, n.address) then c[at := e] else c
    case Deleted => if FoundAt(c, at, n.address) then c[..at] + c[at + 1..] else c
  }

  /** An update of the list is the update of what it shows, and keeps it sorted. */
  lemma {:induction false} UpdateListRepresents(c: seq<Entry>, view: View, owned: Owned, n: Notification)
    requires Represents(c, view)
    ensures Represents(UpdateList(c, owned, n), Apply(view, owned, n))
  {
    var at := PlaceOf(c, n.address);
    var e := Entry(Translate(n.purpose, owned(n.address)), n.name, n.address);
    PlaceSplits(c, n.address);
    FoundIffShown(c, view, at, n.address);
    match n.status {
      case New => if !FoundAt(c, at, n.address) { InsertEntry(c, view, at, e); }
      case Updated => if FoundAt(c, at, n.address) { ReplaceEntry(c, view, at, e); }
      case Deleted =>
        if FoundAt(c, at, n.address) { RemoveEntry(c, view, at); } else { assert view - {n.address} == view; }
    }
  }

  /** An addition of an address that is listed, and a change or removal of one that is not, are ignored. */
  lemma {:induction false} UnexpectedIsIgnored(c: seq<Entry>, owned: Owned, n: Notification)
    requires Strict(c) && (if n.status == New then Has(c, n.address) else !Has(c, n.address))
    ensures UpdateList(c, owned, n) == c
  {
    var at := PlaceOf(c, n.address);
    PlaceSplits(c, n.address);
    if Has(c, n.address) {
      var i :| 0 <= i < |c| && c[i].address == n.address;
      assert at <= i && c[at].address <= c[i].address;
    }
  }

  function UpdateAll(c: seq<Entry>, owned: Owned, queue: seq<Notification>): seq<Entry>
    decreases |queue|
  {
    if queue == [] then c else UpdateAll(UpdateList(c, owned, queue[0]), owned, queue[1..])
  }

  lemma {:induction false} UpdateAllRepresents(c: seq<Entry>, view: View, owned: Owned, queue: seq<Notification>)
    requires Represents(c, view)
    ensures Represents(UpdateAll(c, owned, queue), ApplyAll(view, owned, queue))
    decreases |queue|
  {
    if queue != [] {
      UpdateListRepresents(c, view, owned, queue[0]);
      UpdateAllRepresents(UpdateList(c, owned, queue[0]), Apply(view, owned, queue[0]), owned, queue[1..]);
    }
  }

  function ApplyAll(view: View, owned: Owned, queue: seq<Notification>): View
    decreases |queue|
  {
    if queue == [] then view else ApplyAll(Apply(view, owned, queue[0]), owned, queue[1..])
  }

  lemma {:induction false} ApplyAllSnoc(view: View, owned: Owned, queue: seq<Notification>, n: Notification)
    ensures ApplyAll(view, owned, queue + [n]) == Apply(ApplyAll(view, owned, queue), owned, n)
    decreases |queue|
  {
    if queue == [] {
      assert queue + [n] == [n];
      assert ApplyAll(view, owned, [n]) == ApplyAll(Apply(view, owned, n), owned, []);
    } else {
      assert (queue + [n])[1..] == queue[1..] + [n];
      ApplyAllSnoc(Apply(view, owned, queue[0]), owned, queue[1..], n);
    }
  }

  // ---------------------------------------------------------------- runs

  datatype State = State(book: Book, queue: seq<Notification>, list: seq<Entry>)

  datatype Step = Change(op: Op) | Deliver

  function Next(s: State, owned: Owned, step: Step): State {
    match step
    case Change(op) => State(BookAfter(s.book, op), s.queue + [Announce(s.book, op)], s.list)
    case Deliver => if s.queue == [] then s else State(s.book, s.queue[1..], UpdateList(s.list, owned, s.queue[0]))
  }

  /** Opening the window rebuilds the list. */
  function Start(book: Book, owned: Owned): State { State(book, [], ListOf(Intended(book, owned))) }

  function Run(book: Book, owned: Owned, steps: seq<Step>): State {
    if steps == [] then Start(book, owned)
    else Next(Run(book, owned, steps[..|steps| - 1]), owned, steps[|steps| - 1])
  }

  /** The last change made to the address renamed it without a purpose. */
  predicate Renamed(steps: seq<Step>, a: Address) {
    steps != [] &&
    var last := steps[|steps| - 1];
    if last.Change? && last.op.address == a then last.op.Set? && last.op.purpose == ""
    else Renamed(steps[..|steps| - 1], a)
  }

  /** The displayed kind is the guess after a rename without a purpose, and the stored one otherwise. */
  function Displayed(book: Book, owned: Owned, steps: seq<Step>): View {
    map a | a in book :: Shown(Translate(if Renamed(steps, a) then "" else book[a].purpose, owned(a)), book[a].name)
  }

  lemma {:induction false} ChangeDisplays(book: Book, owned: Owned, steps: seq<Step>, op: Op)
    ensures Apply(Displayed(book, owned, steps), owned, Announce(book, op)) ==
            Displayed(BookAfter(book, op), owned, steps + [Change(op)])
  {
    var steps' := steps + [Change(op)];
    assert steps'[..|steps|] == steps;
    forall a
      ensures Renamed(steps', a) <==> if a == op.address then op.Set? && op.purpose == "" else Renamed(steps, a)
    {
    }
  }

  lemma {:induction false} DeliverDisplays(book: Book, owned: Owned, steps: seq<Step>)
    ensures Displayed(book, owned, steps + [Deliver]) == Displayed(book, owned, steps)
  {
    assert (steps + [Deliver])[..|steps|] == steps;
    forall a ensures Renamed(steps + [Deliver], a) <==> Renamed(steps, a) {}
  }

  /** What the list shows, and will show once the queue is delivered. */
  lemma {:induction false} RunView(book: Book, owned: Owned, steps: seq<Step>) returns (view: View)
    ensures var s := Run(book, owned, steps);
            Represents(s.list, view) && ApplyAll(view, owned, s.queue) == Displayed(s.book, owned, steps)
  {
    if steps == [] {
      view := Intended(book, owned);
    } else {
      var init, last := steps[..|steps| - 1], steps[|steps| - 1];
      var s := Run(book, owned, init);
      view := RunView(book, owned, init);
      assert steps == init + [last];
      match last {
        case Change(op) =>
          ApplyAllSnoc(view, owned, s.queue, Announce(s.book, op));
          ChangeDisplays(s.book, owned, init, op);
        case Deliver =>
          DeliverDisplays(s.book, owned, init);
          if s.queue != [] {
            UpdateListRepresents(s.list, view, owned, s.queue[0]);
            view := Apply(view, owned, s.queue[0]);
          }
      }
    }
  }

  /** In every reachable state the list is sorted, and once the queue is delivered it is the list of every address of
      the book with its name, and with the stored kind unless the last change left the purpose out. */
  lemma {:induction false} RunDisplays(book: Book, owned: Owned, steps: seq<Step>)
    ensures var s := Run(book, owned, steps);
            Strict(s.list) && UpdateAll(s.list, owned, s.queue) == ListOf(Displayed(s.book, owned, steps))
  {
    var s := Run(book, owned, steps);
    var view := RunView(book, owned, steps);
    UpdateAllRepresents(s.list, view, owned, s.queue);
    var shown := Displayed(s.book, owned, steps);
    ListIsItsView(UpdateAll(s.list, owned, s.queue), ListOf(shown), shown);
  }

  /** The guess differs from the kind the book stores. */
  predicate Misguessed(book: Book, owned: Owned, a: Address)
    requires a in book
  {
    Translate("", owned(a)) != Translate(book[a].purpose, owned(a))
  }

  lemma {:induction false} DisplayedIsIntendedIff(book: Book, owned: Owned, steps: seq<Step>)
    ensures Displayed(book, owned, steps) == Intended(book, owned) <==>
            forall a :: a in book && Renamed(steps, a) ==> !Misguessed(book, owned, a)
  {
    var shown, want := Displayed(book, owned, steps), Intended(book, owned);
    if shown == want {
      forall a | a in book && Renamed(steps, a) ensures !Misguessed(book, owned, a) { assert shown[a] == want[a]; }
    }
    if forall a :: a in book && Renamed(steps, a) ==> !Misguessed(book, owned, a) {
      forall a | a in book ensures shown[a] == want[a] { assert Renamed(steps, a) ==> !Misguessed(book, owned, a); }
      assert shown == want;
    }
  }

  /** Once the queue is delivered, the list equals a rebuilt list exactly when no address that was last renamed without
      a purpose has a stored kind that differs from the guess. */
  lemma {:induction false} ListEqualsRebuildIff(book: Book, owned: Owned, steps: seq<Step>)
    requires Run(book, owned, steps).queue == []
    ensures var s := Run(book, owned, steps);
            s.list == ListOf(Intended(s.book, owned)) <==>
            forall a :: a in s.book && Renamed(steps, a) ==> !Misguessed(s.book, owned, a)
  {
    var s := Run(book, owned, steps);
    RunDisplays(book, owned, steps);
    DisplayedIsIntendedIff(s.book, owned, steps);
    SameListIffSameView(Displayed(s.book, owned, steps), Intended(s.book, owned));
  }

  lemma {:induction false} SameListIffSameView(view: View, other: View)
    ensures ListOf(view) == ListOf(other) <==> view == other
  {
    if ListOf(view) == ListOf(other) { ViewIsItsList(ListOf(view), view, other); }
  }

  /** The kind that a rebuilt list shows for each address of the book: by the purpose stored, or by the owner where the
      purpose is unknown or empty. */
  lemma {:induction false} RebuiltKinds(book: Book, owned: Owned, a: Address) returns (i: nat)
    requires a in book
    ensures var list := ListOf(Intended(book, owned));
            && i < |list| && list[i].address == a && list[i].name == book[a].name
            && (book[a].purpose == "send" ==> list[i].kind == Sending)
            && (book[a].purpose == "receive" ==> list[i].kind == Receiving)
            && (book[a].purpose == "unknown" || book[a].purpose == "" ==>
                list[i].kind == if owned(a) then Receiving else Sending)
            && (book[a].purpose !in {"send", "receive", "unknown", ""} ==> list[i].kind == Hidden)
  {
    var view := Intended(book, owned);
    assert a in view && Has(ListOf(view), a);
    i :| 0 <= i < |ListOf(view)| && ListOf(view)[i].address == a;
  }

  const EVERYTHING_IS_OURS: Owned := (a: Address) => true

  /** Two payments to an own address, the second under another label. */
  const TWO_PAYMENTS: seq<Step> := [Change(Set(0, "shop", "send")), Deliver, Change(Set(0, "market", "")), Deliver]

  lemma {:induction false} AfterTheFirst()
    ensures var s := Run(map[], EVERYTHING_IS_OURS, TWO_PAYMENTS[..2]);
            s.queue == [] && s.book == map[0 := BookData("shop", "send")] && s.list == [Entry(Sending, "shop", 0)]
  {
    var owned, steps := EVERYTHING_IS_OURS, TWO_PAYMENTS;
    assert steps[..2][..1] == steps[..1] && steps[..1][..0] == [];
    var s0 := Run(map[], owned, []);
    assert Intended(map[], owned) == map[];
    assert s0 == State(map[], [], []);
    var s1 := Run(map[], owned, steps[..1]);
    assert s1 == Next(s0, owned, steps[0]);
    assert s1.queue == [Notification(0, "shop", "send", New)];
  }

  lemma {:induction false} AfterTheSecond()
    ensures var s := Run(map[], EVERYTHING_IS_OURS, TWO_PAYMENTS);
            s.queue == [] && s.book == map[0 := BookData("market", "send")] && s.list == [Entry(Receiving, "market", 0)]
  {
    var owned, steps := EVERYTHING_IS_OURS, TWO_PAYMENTS;
    AfterTheFirst();
    var s2 := Run(map[], owned, steps[..2]);
    assert steps[..3][..2] == steps[..2] && steps[..|steps| - 1] == steps[..3];
    var s3 := Run(map[], owned, steps[..3]);
    assert s3 == Next(s2, owned, steps[2]);
    assert s3.queue == [Notification(0, "market", "", Updated)];
  }

  /** An own address that is paid twice, under different labels, moves from the sending list to the receiving one,
      while a rebuild shows it as sending. */
  lemma {:induction false} RenameCanMisplace()
    ensures var s := Run(map[], EVERYTHING_IS_OURS, TWO_PAYMENTS);
            && s.queue == [] && s.list == [Entry(Receiving, "market", 0)]
            && ListOf(Intended(s.book, EVERYTHING_IS_OURS)) == [Entry(Sending, "market", 0)]
  {
    AfterTheSecond();
    MarketIsSending(Run(map[], EVERYTHING_IS_OURS, TWO_PAYMENTS).book);
  }

  lemma {:induction false} MarketIsSending(book: Book)
    requires book == map[0 := BookData("market", "send")]
    ensures ListOf(Intended(book, EVERYTHING_IS_OURS)) == [Entry(Sending, "market", 0)]
  {
    var want := Intended(book, EVERYTHING_IS_OURS);
    assert want == map[0 := Shown(Sending, "market")];
    OneEntry(Entry(Sending, "market", 0));
    ListIsItsView(ListOf(want), [Entry(Sending, "market", 0)], want);
  }

  lemma {:induction false} OneEntry(e: Entry)
    ensures Represents([e], map[e.address := Shown(e.kind, e.name)])
  {
    assert [e][0].address == e.address;
  }

  // ---------------------------------------------------------------- the code

  class AddressTablePriv {
    const owned: Owned
    var cachedAddressTable: seq<Entry>
    ghost var view: View

    ghost predicate Valid()
      reads this
    {
      Represents(cachedAddressTable, view)
    }

    constructor (owned: Owned)
      ensures Valid() && this.owned == owned && view == map[]
    {
      this.owned := owned;
      cachedAddressTable, view := [], map[];
    }

    method FindLower(address: Address) returns (begin: nat)
      requires Valid()
      ensures Splits(cachedAddressTable, begin, address)
    {
      begin := 0;
      var n: nat := |cachedAddressTable|;
      while n > 0
        invariant begin + n <= |cachedAddressTable|
        invariant forall k :: 0 <= k < begin ==> cachedAddressTable[k].address < address
        invariant forall k :: begin + n <= k < |cachedAddressTable| ==> address <= cachedAddressTable[k].address
      {
        var half := n / 2;
        var middle := begin + half;
        if cachedAddressTable[middle].address < address {
          begin, n := middle + 1, n - half - 1;
        } else {
          n := half;
        }
      }
    }

    method FindUpper(address: Address) returns (begin: nat)
      requires Valid()
      ensures Splits(cachedAddressTable, begin, address + 1)
    {
      begin := 0;
      var n: nat := |cachedAddressTable|;
      while n > 0
        invariant begin + n <= |cachedAddressTable|
        invariant forall k :: 0 <= k < begin ==> cachedAddressTable[k].address <= address
        invariant forall k :: begin + n <= k < |cachedAddressTable| ==> address < cachedAddressTable[k].address
      {
        var half := n / 2;
        var middle := begin + half;
        if address < cachedAddressTable[middle].address {
          n := half;
        } else {
          begin, n := middle + 1, n - half - 1;
        }
      }
    }

    /** The book iterated in any order: entries are appended and then sorted by address text. */
    method RefreshAddressTable(book: Book, order: seq<Address>)
      requires forall a :: a in book <==> a in order
      requires forall i, j :: 0 <= i < j < |order| ==> order[i] != order[j]
      modifies this
      ensures Valid() && view == Intended(book, owned) && cachedAddressTable == ListOf(view)
    {
      var appended: seq<Entry> := [];
      for i := 0 to |order|
        invariant |appended| == i
        invariant forall k :: 0 <= k < i ==> order[k] in book && appended[k] == BookEntry(book, order[k])
      {
        assert order[i] in book;
        appended := appended + [BookEntry(book, order[i])];
      }
      view := Intended(book, owned);
      forall a | a in view ensures Has(appended, a) {
        var i :| 0 <= i < |order| && order[i] == a;
        assert appended[i].address == a;
      }
      cachedAddressTable := SortEntries(appended, view);
      ListIsItsView(cachedAddressTable, ListOf(view), view);
    }

    function BookEntry(book: Book, a: Address): (e: Entry)
      requires a in book
    {
      Entry(Translate(book[a].purpose, owned(a)), book[a].name, a)
    }

    /** updateEntry. */
    method UpdateEntry(n: Notification)
      requires Valid()
      modifies this
      ensures Valid() && view == Apply(old(view), owned, n)
      ensures cachedAddressTable == UpdateList(old(cachedAddressTable), owned, n)
    {
      var lower := FindLower(n.address);
      var upper := FindUpper(n.address);
      AdjacentBounds(cachedAddressTable, lower, upper, n.address);
      OnePlace(cachedAddressTable, lower, n.address);
      UpdateListRepresents(cachedAddressTable, view, owned, n);
      Change(n, lower, upper);
      view := Apply(view, owned, n);
    }

    /** The switch over the status, with the entry of the address, if it is listed, at lower..upper. */
    method Change(n: Notification, lower: nat, upper: nat)
      requires lower == PlaceOf(cachedAddressTable, n.address)
      requires upper == if FoundAt(cachedAddressTable, lower, n.address) then lower + 1 else lower
      modifies this`cachedAddressTable
      ensures cachedAddressTable == UpdateList(old(cachedAddressTable), owned, n)
    {
      var inModel := lower != upper;
      var e := Entry(Translate(n.purpose, owned(n.address)), n.name, n.address);
      match n.status {
        case New =>
          if !inModel {
            cachedAddressTable := cachedAddressTable[..lower] + [e] + cachedAddressTable[lower..];
          }
        case Updated =>
          if inModel {
            cachedAddressTable := cachedAddressTable[lower := e];
          }
        case Deleted =>
          if inModel {
            cachedAddressTable := cachedAddressTable[..lower] + cachedAddressTable[upper..];
          }
      }
    }
  }

  predicate Below(c: seq<Entry>, at: nat, address: Address) { at < |c| && c[at].address < address }

  lemma {:induction false} AdjacentBounds(c: seq<Entry>, lower: nat, upper: nat, address: Address)
    requires Strict(c) && Splits(c, lower, address) && Splits(c, upper, address + 1)
    ensures upper == if FoundAt(c, lower, address) then lower + 1 else lower
  {
    assert lower + 1 < |c| ==> c[lower].address < c[lower + 1].address;
    assert upper < lower ==> Below(c, upper, address);
    assert lower < upper ==> c[lower].address < address + 1;
  }

  method PlaceFor(c: seq<Entry>, address: Address) returns (at: nat)
    requires Strict(c)
    ensures Splits(c, at, address)
  {
    at := 0;
    while at < |c| && c[at].address < address
      invariant at <= |c|
      invariant forall k :: 0 <= k < at ==> c[k].address < address
    {
      at := at + 1;
    }
  }

  lemma {:induction false} HasSnoc(entries: seq<Entry>, i: nat, x: Address)
    requires i < |entries|
    ensures Has(entries[..i + 1], x) <==> Has(entries[..i], x) || entries[i].address == x
  {
    HasConcat(entries[..i], [entries[i]], x);
    assert entries[..i + 1] == entries[..i] + [entries[i]];
    assert Has([entries[i]], x) <==> [entries[i]][0].address == x;
  }

  /** The entries so far, as the view shows them. */
  ghost predicate PartOf(partial: View, entries: seq<Entry>, view: View) {
    && (forall a :: a in partial <==> Has(entries, a))
    && (forall a :: a in partial ==> a in view && partial[a] == view[a])
  }

  lemma {:induction false} PartOfSnoc(partial: View, entries: seq<Entry>, i: nat, view: View)
    requires i < |entries| && Within(entries, view) && PartOf(partial, entries[..i], view)
    ensures PartOf(partial[entries[i].address := Shown(entries[i].kind, entries[i].name)], entries[..i + 1], view)
  {
    forall x { HasSnoc(entries, i, x); }
  }

  lemma {:induction false} PartIsAll(partial: View, entries: seq<Entry>, view: View)
    requires PartOf(partial, entries, view) && Covers(entries, view)
    ensures partial == view
  {
    assert forall a :: a in view ==> a in partial;
  }

  /** The list that sorting by address gives: the only one that represents the view the entries show. */
  method SortEntries(entries: seq<Entry>, ghost view: View) returns (sorted: seq<Entry>)
    requires forall i, j :: 0 <= i < j < |entries| ==> entries[i].address != entries[j].address
    requires Within(entries, view) && Covers(entries, view)
    ensures Represents(sorted, view)
  {
    sorted := [];
    ghost var partial: View := map[];
    for i := 0 to |entries|
      invariant Represents(sorted, partial) && PartOf(partial, entries[..i], view)
    {
      var e := entries[i];
      var at := PlaceFor(sorted, e.address);
      InsertEntry(sorted, partial, at, e);
      PartOfSnoc(partial, entries, i, view);
      sorted := sorted[..at] + [e] + sorted[at..];
      partial := partial[e.address := Shown(e.kind, e.name)];
    }
    assert entries[..|entries|] == entries;
    PartIsAll(partial, entries, view);
  }
}
